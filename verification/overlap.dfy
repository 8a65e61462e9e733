/**
 * Restricting a global query area to one DE: the DE-local transformation of an
 * area and the overlap test against the DE's cached global area.
 */
module OverlapResolver {
  import opened MpArea
  import opened Mapping

  /**
   * The area moved to the DE's local frame: its position is transformed at the
   * nominal z of the DE's chamber, its dimensions and validity pass through unchanged.
   */
  function Global2Local(t: Transformer, elems: DetElems, de: DeId, globalArea: Area): (localArea: Area)
    ensures localArea.dimensions == globalArea.dimensions
    ensures localArea.IsValid() == globalArea.IsValid()
  {
    var zg := elems.chamberZ(elems.chamberOf(de));
    var l := t.global2Local(de, Vec3(globalArea.position.x, globalArea.position.y, zg));
    MakeArea(Vec2(l.x, l.y), globalArea.dimensions)
  }

  /**
   * With a consistent transformer, moving the local position back to global
   * coordinates (at the local z the transformation produced) restores the global
   * position at the chamber's nominal z.
   */
  lemma Global2LocalRoundTrip(t: Transformer, elems: DetElems, de: DeId, globalArea: Area)
    requires Consistent(t)
    ensures var l := Global2Local(t, elems, de, globalArea);
            exists zl :: t.local2Global(de, Vec3(l.position.x, l.position.y, zl))
                         == Vec3(globalArea.position.x, globalArea.position.y, elems.chamberZ(elems.chamberOf(de)))
  {
    var zg := elems.chamberZ(elems.chamberOf(de));
    var g := Vec3(globalArea.position.x, globalArea.position.y, zg);
    var l := t.global2Local(de, g);
    assert Global2Local(t, elems, de, globalArea).position == Vec2(l.x, l.y);
    assert l == Vec3(l.x, l.y, l.z);
    assert t.local2Global(de, Vec3(l.x, l.y, l.z)) == g;
  }

  /**
   * Whether the query area overlaps the DE's cached global area; if it does, the
   * intersection in DE-local coordinates, otherwise the default (invalid) area.
   */
  function Overlap(deAreas: map<DeId, Area>, t: Transformer, elems: DetElems, de: DeId, area: Area): (r: (bool, Area))
    requires de in deAreas
    ensures r.0 <==> Overlaps(area, deAreas[de])
    ensures r.0 ==> r.1 == Global2Local(t, elems, de, Intersect(area, deAreas[de]))
    ensures !r.0 ==> r.1 == DefaultArea()
  {
    var globalDEArea := deAreas[de];
    if Overlaps(area, globalDEArea) then
      (true, Global2Local(t, elems, de, Intersect(area, globalDEArea)))
    else
      (false, DefaultArea())
  }

  /**
   * For areas with an interior, Overlap reports exactly whether some point lies
   * inside both the query area and the DE's area; when it does, the returned local
   * area has the intersection's dimensions and is valid, and (with a consistent
   * transformer) its position maps back to the intersection's centre.
   */
  lemma OverlapIsLocalIntersection(deAreas: map<DeId, Area>, t: Transformer, elems: DetElems, de: DeId, area: Area)
    requires de in deAreas && Solid(area) && Solid(deAreas[de])
    requires Consistent(t)
    ensures var r := Overlap(deAreas, t, elems, de, area);
            && (r.0 <==> exists p :: Inside(p, area) && Inside(p, deAreas[de]))
            && (r.0 ==> var i := Intersect(area, deAreas[de]);
                        && r.1.IsValid() && r.1.dimensions == i.dimensions
                        && exists zl :: t.local2Global(de, Vec3(r.1.position.x, r.1.position.y, zl))
                                        == Vec3(i.position.x, i.position.y, elems.chamberZ(elems.chamberOf(de))))
  {
    OverlapIsSharedPoint(area, deAreas[de]);
    if Overlaps(area, deAreas[de]) {
      var i := Intersect(area, deAreas[de]);
      IntersectionOfOverlapping(area, deAreas[de]);
      Global2LocalRoundTrip(t, elems, de, i);
    }
  }
}
