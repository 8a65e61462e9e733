/**
 * The per-DE area index the cluster server builds once at construction: for every
 * DE, a rectangle in global coordinates covering the DE.
 */
module DEAreas {
  import opened MpArea
  import opened Mapping

  /** The largest finite single-precision float, the seed of the running min/max. */
  const FLT_MAX: real := 340282346638528859811704183484516925440.0

  /** Running bounds of pad borders. */
  datatype Envelope = Envelope(xmin: real, xmax: real, ymin: real, ymax: real)

  function Seed(): Envelope {
    Envelope(FLT_MAX, -FLT_MAX, FLT_MAX, -FLT_MAX)
  }

  /** The area a segmentation pad covers. */
  function PadArea(p: MpPad): Area {
    MakeArea(p.position, p.dimensions)
  }

  /** The bounds widened to cover one more pad. */
  function Widen(e: Envelope, p: MpPad): Envelope {
    var a := PadArea(p);
    Envelope(Min(e.xmin, a.LeftBorder()), Max(e.xmax, a.RightBorder()),
             Min(e.ymin, a.DownBorder()), Max(e.ymax, a.UpBorder()))
  }

  /** The bounds widened over `pads`, in iteration order. */
  function Accumulate(e: Envelope, pads: seq<MpPad>): Envelope
  {
    if pads == [] then e
    else Widen(Accumulate(e, pads[..|pads| - 1]), pads[|pads| - 1])
  }

  /** The bounds over every pad of cathode 0 then of cathode 1 of a DE. */
  function StationEnvelope(seg: Segmentation, de: DeId): Envelope {
    Accumulate(Accumulate(Seed(), seg.pads(de, 0)), seg.pads(de, 1))
  }

  /** Station types whose DE area is the envelope of their pads. */
  predicate NeedsEnvelope(st: StationType) {
    st == Station1 || st == Station2
  }

  /**
   * The DE's box in its own coordinates, as centre and half-dimensions: the box of
   * the pad envelope for stations 1 and 2, otherwise the nominal dimensions of
   * cathode 0 at the origin.
   */
  function LocalBox(seg: Segmentation, elems: DetElems, de: DeId): (Vec2, Vec2) {
    if NeedsEnvelope(elems.stationOf(de)) then
      var e := StationEnvelope(seg, de);
      (Vec2((e.xmin + e.xmax) / 2.0, (e.ymin + e.ymax) / 2.0),
       Vec2((e.xmax - e.xmin) / 2.0, (e.ymax - e.ymin) / 2.0))
    else
      (Vec2(0.0, 0.0), seg.dimensions(de, 0))
  }

  /** The DE's box in its own coordinates, as an area. */
  function LocalFootprint(seg: Segmentation, elems: DetElems, de: DeId): Area {
    var (centre, half) := LocalBox(seg, elems, de);
    MakeArea(centre, half)
  }

  /** The cached global area of a DE: the box's centre moved to global coordinates. */
  function DEArea(seg: Segmentation, elems: DetElems, t: Transformer, de: DeId): Area {
    var (centre, half) := LocalBox(seg, elems, de);
    var g := t.local2Global(de, Vec3(centre.x, centre.y, 0.0));
    MakeArea(Vec2(g.x, g.y), half)
  }

  /** Computes one DE's area with the running min/max over the pads of both cathodes. */
  method BuildDEArea(seg: Segmentation, elems: DetElems, t: Transformer, de: DeId) returns (area: Area)
    ensures area == DEArea(seg, elems, t, de)
  {
    var xl, yl, zl := 0.0, 0.0, 0.0;
    var nominal := seg.dimensions(de, 0);
    var dx, dy := nominal.x, nominal.y;
    if NeedsEnvelope(elems.stationOf(de)) {
      var xmin, xmax, ymin, ymax := FLT_MAX, -FLT_MAX, FLT_MAX, -FLT_MAX;
      for cathode := 0 to 2
        invariant cathode == 0 ==> Envelope(xmin, xmax, ymin, ymax) == Seed()
        invariant cathode == 1 ==> Envelope(xmin, xmax, ymin, ymax) == Accumulate(Seed(), seg.pads(de, 0))
        invariant cathode == 2 ==> Envelope(xmin, xmax, ymin, ymax) == StationEnvelope(seg, de)
      {
        ghost var start := Envelope(xmin, xmax, ymin, ymax);
        var pads := seg.pads(de, cathode);
        for k := 0 to |pads|
          invariant Envelope(xmin, xmax, ymin, ymax) == Accumulate(start, pads[..k])
        {
          var a := PadArea(pads[k]);
          xmin := Min(xmin, a.LeftBorder());
          xmax := Max(xmax, a.RightBorder());
          ymin := Min(ymin, a.DownBorder());
          ymax := Max(ymax, a.UpBorder());
          assert pads[..k + 1][..k] == pads[..k];
        }
        assert pads[..|pads|] == pads;
      }
      xl := (xmin + xmax) / 2.0;
      yl := (ymin + ymax) / 2.0;
      dx := (xmax - xmin) / 2.0;
      dy := (ymax - ymin) / 2.0;
    }
    var g := t.local2Global(de, Vec3(xl, yl, zl));
    area := MakeArea(Vec2(g.x, g.y), Vec2(dx, dy));
  }

  /** The accumulated bounds only widen, and cover every pad's borders. */
  lemma {:induction false} AccumulateCovers(e: Envelope, pads: seq<MpPad>)
    ensures var r := Accumulate(e, pads);
            && r.xmin <= e.xmin && e.xmax <= r.xmax && r.ymin <= e.ymin && e.ymax <= r.ymax
            && forall p :: p in pads ==>
                 && r.xmin <= PadArea(p).LeftBorder() && PadArea(p).RightBorder() <= r.xmax
                 && r.ymin <= PadArea(p).DownBorder() && PadArea(p).UpBorder() <= r.ymax
  {
    if pads != [] {
      var prefix := pads[..|pads| - 1];
      AccumulateCovers(e, prefix);
      assert pads == prefix + [pads[|pads| - 1]];
    }
  }

  /** Each accumulated bound is either the starting bound or some pad's border. */
  lemma {:induction false} AccumulateAttains(e: Envelope, pads: seq<MpPad>)
    ensures var r := Accumulate(e, pads);
            && (r.xmin == e.xmin || exists p :: p in pads && r.xmin == PadArea(p).LeftBorder())
            && (r.xmax == e.xmax || exists p :: p in pads && r.xmax == PadArea(p).RightBorder())
            && (r.ymin == e.ymin || exists p :: p in pads && r.ymin == PadArea(p).DownBorder())
            && (r.ymax == e.ymax || exists p :: p in pads && r.ymax == PadArea(p).UpBorder())
  {
    if pads != [] {
      var prefix := pads[..|pads| - 1];
      AccumulateAttains(e, prefix);
      assert pads == prefix + [pads[|pads| - 1]];
    }
  }

  /**
   * For a station 1 or 2 DE, every pad of either cathode lies within the local
   * footprint, whose borders are exactly the running bounds once there is a pad
   * (a DE without pads is covered by PadlessStationAreaIsInvalid).
   */
  lemma StationFootprintCoversPads(seg: Segmentation, elems: DetElems, de: DeId)
    requires NeedsEnvelope(elems.stationOf(de))
    ensures var f := LocalFootprint(seg, elems, de);
            var e := StationEnvelope(seg, de);
            && (seg.pads(de, 0) + seg.pads(de, 1) != [] ==>
                  && f.LeftBorder() == e.xmin && f.RightBorder() == e.xmax
                  && f.DownBorder() == e.ymin && f.UpBorder() == e.ymax)
            && forall c: Cathode, p :: p in seg.pads(de, c) ==> Within(PadArea(p), f)
  {
    var inner := Accumulate(Seed(), seg.pads(de, 0));
    AccumulateCovers(Seed(), seg.pads(de, 0));
    AccumulateCovers(inner, seg.pads(de, 1));
  }

  /** Every border of the pad is a finite single-precision value. */
  predicate Finite(p: MpPad) {
    var a := PadArea(p);
    && -FLT_MAX <= a.LeftBorder() <= FLT_MAX && -FLT_MAX <= a.RightBorder() <= FLT_MAX
    && -FLT_MAX <= a.DownBorder() <= FLT_MAX && -FLT_MAX <= a.UpBorder() <= FLT_MAX
  }

  /**
   * When the DE has at least one pad and every pad border is finite, each border of
   * a station 1 or 2 footprint is the border of some pad: the box is tight.
   */
  lemma StationFootprintIsTight(seg: Segmentation, elems: DetElems, de: DeId)
    requires NeedsEnvelope(elems.stationOf(de))
    requires seg.pads(de, 0) + seg.pads(de, 1) != []
    requires forall c: Cathode, p :: p in seg.pads(de, c) ==> Finite(p)
    ensures var f := LocalFootprint(seg, elems, de);
            var all := seg.pads(de, 0) + seg.pads(de, 1);
            && (exists p :: p in all && f.LeftBorder() == PadArea(p).LeftBorder())
            && (exists p :: p in all && f.RightBorder() == PadArea(p).RightBorder())
            && (exists p :: p in all && f.DownBorder() == PadArea(p).DownBorder())
            && (exists p :: p in all && f.UpBorder() == PadArea(p).UpBorder())
  {
    var p0, p1 := seg.pads(de, 0), seg.pads(de, 1);
    var all := p0 + p1;
    var inner := Accumulate(Seed(), p0);
    var e := StationEnvelope(seg, de);
    StationFootprintCoversPads(seg, elems, de);
    AccumulateAttains(Seed(), p0);
    AccumulateAttains(inner, p1);
    AccumulateCovers(Seed(), p0);
    AccumulateCovers(inner, p1);
    var q := if p0 != [] then p0[0] else p1[0];
    assert q in all && Finite(q);
    // A bound still equal to its seed is squeezed onto the border of q.
    if e.xmin == FLT_MAX { assert e.xmin == PadArea(q).LeftBorder(); }
    if e.xmax == -FLT_MAX { assert e.xmax == PadArea(q).RightBorder(); }
    if e.ymin == FLT_MAX { assert e.ymin == PadArea(q).DownBorder(); }
    if e.ymax == -FLT_MAX { assert e.ymax == PadArea(q).UpBorder(); }
  }

  /**
   * A station 1 or 2 DE without any pad keeps the seeds, so its box has negative
   * half-dimensions: its cached area is invalid, with null dimensions.
   */
  lemma PadlessStationAreaIsInvalid(seg: Segmentation, elems: DetElems, t: Transformer, de: DeId)
    requires NeedsEnvelope(elems.stationOf(de))
    requires seg.pads(de, 0) == [] && seg.pads(de, 1) == []
    ensures LocalBox(seg, elems, de).1 == Vec2(-FLT_MAX, -FLT_MAX)
    ensures !DEArea(seg, elems, t, de).IsValid()
    ensures DEArea(seg, elems, t, de).dimensions == Vec2(0.0, 0.0)
  {
  }
}
