/**
 * Pad ingestion: turning the digits of one event into per-DE, per-cathode arrays of
 * pads (AliMUONSimpleClusterServer::UseDigits and PadArray), stated on values.
 */
module PadIngestion {
  import opened Wrappers
  import opened MpArea
  import opened Mapping

  /** One electronics channel's charge measurement. */
  datatype Digit = Digit(
    de: DeId, cathode: Cathode, ix: int, iy: int,
    charge: real, saturated: bool, uniqueId: nat)

  /** A pad handed to the cluster finder (AliMUONPad). */
  datatype Pad = Pad(
    de: DeId, cathode: Cathode, ix: int, iy: int,
    position: Vec2, dimensions: Vec2,
    charge: real, saturated: bool, isReal: bool, uniqueId: nat)

  type PadMap = map<DeId, seq<Pad>>

  /** The two per-cathode maps from DE to its pad array. */
  datatype CathodeMaps = CathodeMaps(cath0: PadMap, cath1: PadMap) {
    function Get(c: Cathode): PadMap {
      if c == 0 then cath0 else cath1
    }

    function With(c: Cathode, m: PadMap): CathodeMaps {
      if c == 0 then CathodeMaps(m, cath1) else CathodeMaps(cath0, m)
    }
  }

  /** Both maps cleared. */
  function NoPads(): CathodeMaps {
    CathodeMaps(map[], map[])
  }

  /** The pad array of one cathode of one DE, or None when it was never created. */
  function PadArray(s: CathodeMaps, de: DeId, c: Cathode): (r: Option<seq<Pad>>)
    ensures r.Some? <==> de in s.Get(c)
    ensures r.Some? ==> r.value == s.Get(c)[de]
  {
    if de in s.Get(c) then Some(s.Get(c)[de]) else None
  }

  /**
   * The digit is skipped. The source's test `! d->Charge() > 0` negates the charge
   * before comparing, so only a charge of exactly zero is skipped.
   */
  predicate IsVoid(d: Digit) {
    d.charge == 0.0
  }

  /** The pad built from a digit and the segmentation pad at its indices. */
  function PadOf(seg: Segmentation, d: Digit): Pad {
    var mp := seg.padByIndices(d.de, d.cathode, d.ix, d.iy);
    Pad(d.de, d.cathode, d.ix, d.iy, mp.position, mp.dimensions,
        d.charge, d.saturated, true, d.uniqueId)
  }

  /** The pads already held for (de, c), an absent array counting as empty. */
  function Held(s: CathodeMaps, de: DeId, c: Cathode): seq<Pad> {
    if de in s.Get(c) then s.Get(c)[de] else []
  }

  /** One step of ingestion: skip a void digit, otherwise append its pad. */
  function IngestDigit(seg: Segmentation, s: CathodeMaps, d: Digit): (r: CathodeMaps)
    ensures IsVoid(d) ==> r == s
    ensures !IsVoid(d) ==> PadArray(r, d.de, d.cathode) == Some(Held(s, d.de, d.cathode) + [PadOf(seg, d)])
    ensures forall de: DeId, c: Cathode :: (de != d.de || c != d.cathode) ==> PadArray(r, de, c) == PadArray(s, de, c)
  {
    if IsVoid(d) then s
    else s.With(d.cathode, s.Get(d.cathode)[d.de := Held(s, d.de, d.cathode) + [PadOf(seg, d)]])
  }

  /** The pad state after ingesting `digits` into cleared maps, in order. */
  function Ingested(seg: Segmentation, digits: seq<Digit>): CathodeMaps
  {
    if digits == [] then NoPads()
    else IngestDigit(seg, Ingested(seg, digits[..|digits| - 1]), digits[|digits| - 1])
  }

  /** Reference definition: the pads of the non-void digits on (de, c), in digit order. */
  function Selected(seg: Segmentation, digits: seq<Digit>, de: DeId, c: Cathode): seq<Pad>
  {
    if digits == [] then []
    else
      var d := digits[0];
      (if !IsVoid(d) && d.de == de && d.cathode == c then [PadOf(seg, d)] else [])
      + Selected(seg, digits[1..], de, c)
  }

  lemma {:induction false} SelectedSnoc(seg: Segmentation, digits: seq<Digit>, d: Digit, de: DeId, c: Cathode)
    ensures Selected(seg, digits + [d], de, c)
         == Selected(seg, digits, de, c) + (if !IsVoid(d) && d.de == de && d.cathode == c then [PadOf(seg, d)] else [])
  {
    if digits != [] {
      assert (digits + [d])[1..] == digits[1..] + [d];
      SelectedSnoc(seg, digits[1..], d, de, c);
    }
  }

  /**
   * After ingestion, the array of (de, c) holds exactly the pads of the non-void
   * digits on that DE and cathode, in digit order, and exists only if there is one.
   */
  lemma {:induction false} IngestedArrays(seg: Segmentation, digits: seq<Digit>, de: DeId, c: Cathode)
    ensures var sel := Selected(seg, digits, de, c);
            PadArray(Ingested(seg, digits), de, c) == if sel == [] then None else Some(sel)
  {
    if digits != [] {
      var n := |digits| - 1;
      var prefix, d := digits[..n], digits[n];
      assert digits == prefix + [d];
      IngestedArrays(seg, prefix, de, c);
      SelectedSnoc(seg, prefix, d, de, c);
      var before := Ingested(seg, prefix);
      assert Ingested(seg, digits) == IngestDigit(seg, before, d);
      if !IsVoid(d) && d.de == de && d.cathode == c {
        assert Held(before, de, c) == Selected(seg, prefix, de, c);
        assert Selected(seg, digits, de, c) == Held(before, de, c) + [PadOf(seg, d)];
      } else {
        assert Selected(seg, digits, de, c) == Selected(seg, prefix, de, c);
        assert PadArray(Ingested(seg, digits), de, c) == PadArray(before, de, c);
      }
    }
  }

  lemma {:induction false} SelectedComeFromDigits(seg: Segmentation, digits: seq<Digit>, de: DeId, c: Cathode)
    ensures forall p :: p in Selected(seg, digits, de, c) ==>
              exists d :: d in digits && !IsVoid(d) && d.de == de && d.cathode == c && p == PadOf(seg, d)
  {
    if digits != [] {
      SelectedComeFromDigits(seg, digits[1..], de, c);
    }
  }

  /**
   * Every pad held after ingestion is the pad of a non-void digit of the input on
   * the same DE and cathode: it is real, and carries that digit's indices, charge,
   * saturation flag and unique ID, with the segmentation pad's geometry.
   */
  lemma IngestedPadsComeFromDigits(seg: Segmentation, digits: seq<Digit>, de: DeId, c: Cathode)
    requires PadArray(Ingested(seg, digits), de, c).Some?
    ensures forall p :: p in PadArray(Ingested(seg, digits), de, c).value ==>
              && p.de == de && p.cathode == c && p.isReal && p.charge != 0.0
              && (exists d :: d in digits && !IsVoid(d) && p == PadOf(seg, d)
                    && p.ix == d.ix && p.iy == d.iy && p.charge == d.charge
                    && p.saturated == d.saturated && p.uniqueId == d.uniqueId)
  {
    IngestedArrays(seg, digits, de, c);
    SelectedComeFromDigits(seg, digits, de, c);
  }

  /** Digits that all carry zero charge leave every array absent. */
  lemma {:induction false} VoidDigitsLeaveNoPads(seg: Segmentation, digits: seq<Digit>)
    requires forall d :: d in digits ==> IsVoid(d)
    ensures Ingested(seg, digits) == NoPads()
  {
    if digits != [] {
      VoidDigitsLeaveNoPads(seg, digits[..|digits| - 1]);
    }
  }

  /** A digit with negative charge is not skipped: it yields a pad. */
  lemma NegativeChargeMakesPad(seg: Segmentation, d: Digit)
    requires d.charge < 0.0
    ensures PadArray(Ingested(seg, [d]), d.de, d.cathode) == Some([PadOf(seg, d)])
  {
    assert [d][..0] == [];
    assert Ingested(seg, [d][..0]) == NoPads();
    assert Ingested(seg, [d]) == IngestDigit(seg, NoPads(), d);
    assert Held(NoPads(), d.de, d.cathode) + [PadOf(seg, d)] == [PadOf(seg, d)];
  }
}
