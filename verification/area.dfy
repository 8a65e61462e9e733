/**
 * Planar vectors and rectangular areas (the mapping package's AliMpArea), with the
 * overlap and intersection operations the cluster server relies on.
 */
module MpArea {

  datatype Vec2 = Vec2(x: real, y: real)

  datatype Vec3 = Vec3(x: real, y: real, z: real)

  /** A rectangle given by its centre and its half-dimensions, with a validity flag. */
  datatype Rect = Rect(position: Vec2, dimensions: Vec2, valid: bool) {
    function LeftBorder(): real { position.x - dimensions.x }
    function RightBorder(): real { position.x + dimensions.x }
    function DownBorder(): real { position.y - dimensions.y }
    function UpBorder(): real { position.y + dimensions.y }
    predicate IsValid() { valid }
  }

  /** Half-dimensions a valid area can have: neither negative, and not both zero. */
  predicate Proper(d: Vec2) {
    d.x >= 0.0 && d.y >= 0.0 && (d.x > 0.0 || d.y > 0.0)
  }

  /**
   * An area (AliMpArea). A valid area has proper half-dimensions; an invalid one
   * has null half-dimensions. The default area is invalid, and callers use an
   * invalid area to mean "no restriction".
   */
  type Area = r: Rect | r.valid == Proper(r.dimensions) && (!r.valid ==> r.dimensions == Vec2(0.0, 0.0))
    witness Rect(Vec2(0.0, 0.0), Vec2(0.0, 0.0), false)

  /** The default-constructed area: at the origin, null dimensions, invalid. */
  function DefaultArea(): Area {
    Rect(Vec2(0.0, 0.0), Vec2(0.0, 0.0), false)
  }

  /**
   * The area built from a position and half-dimensions: improper half-dimensions
   * make it invalid and are replaced by null ones.
   */
  function MakeArea(position: Vec2, dimensions: Vec2): (a: Area)
    ensures a.position == position
    ensures a.IsValid() <==> Proper(dimensions)
    ensures a.dimensions == if Proper(dimensions) then dimensions else Vec2(0.0, 0.0)
  {
    if Proper(dimensions) then Rect(position, dimensions, true)
    else Rect(position, Vec2(0.0, 0.0), false)
  }

  function Min(a: real, b: real): real { if a <= b then a else b }

  function Max(a: real, b: real): real { if a >= b then a else b }

  /** `p` lies strictly inside `a`. */
  predicate Inside(p: Vec2, a: Area) {
    a.LeftBorder() < p.x < a.RightBorder() && a.DownBorder() < p.y < a.UpBorder()
  }

  /** `inner` lies within `outer`, borders included. */
  predicate Within(inner: Area, outer: Area) {
    && outer.LeftBorder() <= inner.LeftBorder() && inner.RightBorder() <= outer.RightBorder()
    && outer.DownBorder() <= inner.DownBorder() && inner.UpBorder() <= outer.UpBorder()
  }

  /** Both half-dimensions are positive: the area has a non-empty interior. */
  predicate Solid(a: Area) {
    a.dimensions.x > 0.0 && a.dimensions.y > 0.0
  }

  /** The two rectangles share a region of positive area. */
  predicate Overlaps(a: Area, b: Area) {
    && a.LeftBorder() < b.RightBorder() && b.LeftBorder() < a.RightBorder()
    && a.DownBorder() < b.UpBorder() && b.DownBorder() < a.UpBorder()
  }

  /** The rectangle bounded by the inner borders of `a` and `b`. */
  function Intersect(a: Area, b: Area): (r: Area)
    ensures forall p :: Inside(p, r) <==> Inside(p, a) && Inside(p, b)
  {
    var xmin := Max(a.LeftBorder(), b.LeftBorder());
    var xmax := Min(a.RightBorder(), b.RightBorder());
    var ymin := Max(a.DownBorder(), b.DownBorder());
    var ymax := Min(a.UpBorder(), b.UpBorder());
    MakeArea(Vec2((xmin + xmax) / 2.0, (ymin + ymax) / 2.0),
             Vec2((xmax - xmin) / 2.0, (ymax - ymin) / 2.0))
  }

  /** For areas with an interior, overlap is exactly "some point lies strictly inside both". */
  lemma OverlapIsSharedPoint(a: Area, b: Area)
    requires Solid(a) && Solid(b)
    ensures Overlaps(a, b) <==> exists p :: Inside(p, a) && Inside(p, b)
  {
    if Overlaps(a, b) {
      var xmin, xmax := Max(a.LeftBorder(), b.LeftBorder()), Min(a.RightBorder(), b.RightBorder());
      var ymin, ymax := Max(a.DownBorder(), b.DownBorder()), Min(a.UpBorder(), b.UpBorder());
      var p := Vec2((xmin + xmax) / 2.0, (ymin + ymax) / 2.0);
      assert Inside(p, a) && Inside(p, b);
    }
  }

  /** Overlap and intersection do not depend on the order of the operands. */
  lemma OverlapSymmetric(a: Area, b: Area)
    ensures Overlaps(a, b) == Overlaps(b, a)
    ensures Intersect(a, b) == Intersect(b, a)
  {
  }

  /**
   * The intersection of two overlapping areas lies within both; when both have an
   * interior, so does the intersection, and it is valid.
   */
  lemma IntersectionOfOverlapping(a: Area, b: Area)
    requires Overlaps(a, b)
    ensures Within(Intersect(a, b), a) && Within(Intersect(a, b), b)
    ensures Solid(a) && Solid(b) ==> Solid(Intersect(a, b)) && Intersect(a, b).IsValid()
  {
  }
}
