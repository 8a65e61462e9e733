/**
 * What one Clusterize call does, stated on values: which DEs are handed to the
 * cluster finder and with what, and which records are appended to the store.
 */
module Orchestration {
  import opened Wrappers
  import opened MpArea
  import opened Mapping
  import opened PadIngestion
  import opened OverlapResolver
  import opened ClusterFinding

  /** The parts of the server fixed at construction. */
  datatype Env = Env(elems: DetElems, transformer: Transformer, deAreas: map<DeId, Area>) {
    /** Every DE of `des` has a cached area. */
    predicate Covers(des: seq<DeId>) {
      forall de :: de in des ==> de in deAreas
    }
  }

  /** At least one of the DE's two pad arrays exists and is not empty. */
  predicate HasPads(s: CathodeMaps, de: DeId) {
    || (PadArray(s, de, 0).Some? && |PadArray(s, de, 0).value| > 0)
    || (PadArray(s, de, 1).Some? && |PadArray(s, de, 1).value| > 0)
  }

  /** The Prepare call Clusterize makes for one DE, or None when it skips the DE. */
  function PrepareFor(env: Env, s: CathodeMaps, needSeg: bool, de: DeId, area: Area): (r: Option<PrepareCall>)
    requires de in env.deAreas
    ensures !HasPads(s, de) ==> r == None
    ensures r.Some? ==> && r.value.de == de && r.value.withSegmentation == needSeg
                        && r.value.pads0 == PadArray(s, de, 0) && r.value.pads1 == PadArray(s, de, 1)
    ensures HasPads(s, de) && !area.IsValid() ==> r.Some? && r.value.deArea == DefaultArea()
    ensures HasPads(s, de) && area.IsValid() ==>
              var (ok, deArea) := Overlap(env.deAreas, env.transformer, env.elems, de, area);
              (r.Some? <==> ok) && (ok ==> r.value.deArea == deArea)
  {
    if !HasPads(s, de) then None
    else
      var (ok, deArea) :=
        if area.IsValid() then Overlap(env.deAreas, env.transformer, env.elems, de, area)
        else (true, DefaultArea());
      if ok then Some(PrepareCall(de, PadArray(s, de, 0), PadArray(s, de, 1), deArea, needSeg))
      else None
  }

  /** The Prepare call made for one DE, as a list of zero or one call. */
  function DECalls(env: Env, s: CathodeMaps, needSeg: bool, de: DeId, area: Area): seq<PrepareCall>
    requires de in env.deAreas
  {
    match PrepareFor(env, s, needSeg, de, area)
    case None => []
    case Some(call) => [call]
  }

  /** The Prepare calls made while walking `des`, in order. */
  function Calls(env: Env, s: CathodeMaps, needSeg: bool, des: seq<DeId>, area: Area): seq<PrepareCall>
    requires env.Covers(des)
  {
    if des == [] then []
    else Calls(env, s, needSeg, des[..|des| - 1], area) + DECalls(env, s, needSeg, des[|des| - 1], area)
  }

  /** The unique IDs of the real pads, in pad order. */
  function RealPadIds(pads: seq<Pad>): seq<nat>
  {
    if pads == [] then []
    else
      var last := pads[|pads| - 1];
      RealPadIds(pads[..|pads| - 1]) + (if last.isReal then [last.uniqueId] else [])
  }

  /** Collects the digit IDs of a cluster's pads, skipping virtual pads. */
  method CollectDigitIds(pads: seq<Pad>) returns (ids: seq<nat>)
    ensures ids == RealPadIds(pads)
  {
    ids := [];
    for iPad := 0 to |pads|
      invariant ids == RealPadIds(pads[..iPad])
    {
      var pad := pads[iPad];
      assert pads[..iPad + 1][..iPad] == pads[..iPad];
      if !pad.isReal {
        continue;
      }
      ids := ids + [pad.uniqueId];
    }
    assert pads[..|pads|] == pads;
  }

  /** The record stored for cluster `c` of DE `de` under sequence index `index`. */
  function MakeRecord(env: Env, de: DeId, index: int, c: Cluster): RawCluster {
    var g := env.transformer.local2Global(de, Vec3(c.position.x, c.position.y, 0.0));
    RawCluster(env.elems.chamberOf(de), de, index, RealPadIds(c.pads), c.charge, c.chi2, g)
  }

  /** The clusters `cs`, each tagged with the DE they were found on. */
  function Tagged(de: DeId, cs: seq<Cluster>): (r: seq<(DeId, Cluster)>)
    ensures |r| == |cs| && forall i :: 0 <= i < |cs| ==> r[i] == (de, cs[i])
  {
    seq(|cs|, i requires 0 <= i < |cs| => (de, cs[i]))
  }

  /** The records made from tagged clusters, one each in order, numbered from `start`. */
  function RecordsOf(env: Env, pulled: seq<(DeId, Cluster)>, start: int): seq<RawCluster>
  {
    if pulled == [] then []
    else
      var n := |pulled| - 1;
      RecordsOf(env, pulled[..n], start) + [MakeRecord(env, pulled[n].0, start + n, pulled[n].1)]
  }

  /** Reference definition: every cluster pulled from the finder, tagged with its DE, in order. */
  function Pulled(calls: seq<PrepareCall>, find: PrepareCall -> seq<Cluster>): seq<(DeId, Cluster)>
  {
    if calls == [] then []
    else
      var last := calls[|calls| - 1];
      Pulled(calls[..|calls| - 1], find) + Tagged(last.de, find(last))
  }

  lemma {:induction false} RecordsOfLength(env: Env, pulled: seq<(DeId, Cluster)>, start: int)
    ensures |RecordsOf(env, pulled, start)| == |pulled|
  {
    if pulled != [] {
      RecordsOfLength(env, pulled[..|pulled| - 1], start);
    }
  }

  lemma {:induction false} RecordsOfAt(env: Env, pulled: seq<(DeId, Cluster)>, start: int)
    ensures |RecordsOf(env, pulled, start)| == |pulled|
    ensures forall k :: 0 <= k < |pulled| ==>
              RecordsOf(env, pulled, start)[k] == MakeRecord(env, pulled[k].0, start + k, pulled[k].1)
  {
    if pulled != [] {
      RecordsOfAt(env, pulled[..|pulled| - 1], start);
    }
  }

  lemma {:induction false} RecordsOfSnoc(env: Env, pulled: seq<(DeId, Cluster)>, x: (DeId, Cluster), start: int, at: int)
    requires at == start + |pulled|
    ensures RecordsOf(env, pulled + [x], start) == RecordsOf(env, pulled, start) + [MakeRecord(env, x.0, at, x.1)]
  {
    assert (pulled + [x])[..|pulled|] == pulled;
  }

  lemma {:induction false} RecordsOfAppend(env: Env, a: seq<(DeId, Cluster)>, b: seq<(DeId, Cluster)>, start: int, mid: int)
    requires mid == start + |a|
    ensures RecordsOf(env, a + b, start) == RecordsOf(env, a, start) + RecordsOf(env, b, mid)
  {
    if b == [] {
      assert a + b == a;
    } else {
      var n := |b| - 1;
      RecordsOfAppend(env, a, b[..n], start, mid);
      assert (a + b)[..|a + b| - 1] == a + b[..n];
      assert (a + b)[|a + b| - 1] == b[n];
    }
  }

  lemma {:induction false} TaggedSnoc(de: DeId, cs: seq<Cluster>, j: nat)
    requires j < |cs|
    ensures Tagged(de, cs[..j + 1]) == Tagged(de, cs[..j]) + [(de, cs[j])]
  {
    assert |Tagged(de, cs[..j + 1])| == |Tagged(de, cs[..j]) + [(de, cs[j])]|;
    forall k | 0 <= k < j + 1
      ensures Tagged(de, cs[..j + 1])[k] == (Tagged(de, cs[..j]) + [(de, cs[j])])[k]
    {
    }
  }

  lemma {:induction false} PulledAppend(a: seq<PrepareCall>, b: seq<PrepareCall>, find: PrepareCall -> seq<Cluster>)
    ensures Pulled(a + b, find) == Pulled(a, find) + Pulled(b, find)
  {
    if b == [] {
      assert a + b == a;
      assert Pulled(a, find) + [] == Pulled(a, find);
    } else {
      var n := |b| - 1;
      var last := b[n];
      PulledAppend(a, b[..n], find);
      assert (a + b)[..|a + b| - 1] == a + b[..n];
      assert (a + b)[|a + b| - 1] == last;
      calc {
        Pulled(a + b, find);
        Pulled(a + b[..n], find) + Tagged(last.de, find(last));
        (Pulled(a, find) + Pulled(b[..n], find)) + Tagged(last.de, find(last));
        Pulled(a, find) + (Pulled(b[..n], find) + Tagged(last.de, find(last)));
        Pulled(a, find) + Pulled(b, find);
      }
    }
  }

  /** One DE further along the walk: its Prepare call, if any, follows the earlier ones. */
  lemma {:induction false} CallsStep(env: Env, s: CathodeMaps, needSeg: bool, des: seq<DeId>, i: nat, area: Area)
    requires env.Covers(des) && i < |des|
    ensures Calls(env, s, needSeg, des[..i + 1], area)
            == Calls(env, s, needSeg, des[..i], area) + DECalls(env, s, needSeg, des[i], area)
  {
    assert des[..i + 1][..i] == des[..i] && des[..i + 1][i] == des[i];
  }

  /** The records appended while walking `des`: one per pulled cluster, numbered from `start`. */
  function RecordsFor(env: Env, s: CathodeMaps, needSeg: bool, find: PrepareCall -> seq<Cluster>,
                      des: seq<DeId>, area: Area, start: int): seq<RawCluster>
    requires env.Covers(des)
  {
    RecordsOf(env, Pulled(Calls(env, s, needSeg, des, area), find), start)
  }

  /**
   * The records of one Clusterize call are the pulled clusters, one record each, in
   * the order they were pulled: the k-th carries the sequence index start + k, the
   * DE and its chamber, the IDs of the cluster's real pads, the cluster's charge and
   * chi2 unchanged, and its position moved to global coordinates.
   */
  lemma RecordsArePulledClusters(env: Env, s: CathodeMaps, needSeg: bool,
      find: PrepareCall -> seq<Cluster>, des: seq<DeId>, area: Area, start: int)
    requires env.Covers(des)
    ensures var recs := RecordsFor(env, s, needSeg, find, des, area, start);
            var pulled := Pulled(Calls(env, s, needSeg, des, area), find);
            && |recs| == |pulled|
            && forall k :: 0 <= k < |recs| ==>
                 && recs[k].index == start + k
                 && recs[k].de == pulled[k].0 && recs[k].chamberId == env.elems.chamberOf(pulled[k].0)
                 && recs[k].digitIds == RealPadIds(pulled[k].1.pads)
                 && recs[k].charge == pulled[k].1.charge && recs[k].chi2 == pulled[k].1.chi2
                 && recs[k].position == env.transformer.local2Global(pulled[k].0,
                      Vec3(pulled[k].1.position.x, pulled[k].1.position.y, 0.0))
  {
    RecordsOfAt(env, Pulled(Calls(env, s, needSeg, des, area), find), start);
  }

  /** Consecutive sequence indices, starting from the store size at entry. */
  lemma SequenceIndicesContiguous(env: Env, s: CathodeMaps, needSeg: bool,
      find: PrepareCall -> seq<Cluster>, des: seq<DeId>, area: Area, start: int)
    requires env.Covers(des)
    ensures var recs := RecordsFor(env, s, needSeg, find, des, area, start);
            forall k :: 0 <= k < |recs| ==> recs[k].index == start + k
  {
    RecordsArePulledClusters(env, s, needSeg, find, des, area, start);
  }

  lemma {:induction false} RealPadIdsAreRealPads(pads: seq<Pad>)
    ensures forall id :: id in RealPadIds(pads) <==> exists p :: p in pads && p.isReal && p.uniqueId == id
    ensures |RealPadIds(pads)| <= |pads|
    ensures (forall p :: p in pads ==> !p.isReal) <==> RealPadIds(pads) == []
  {
    if pads != [] {
      var prefix, last := pads[..|pads| - 1], pads[|pads| - 1];
      RealPadIdsAreRealPads(prefix);
      assert pads == prefix + [last];
    }
  }

  lemma {:induction false} CallsAreFromDEs(env: Env, s: CathodeMaps, needSeg: bool, des: seq<DeId>, area: Area)
    requires env.Covers(des)
    ensures forall c :: c in Calls(env, s, needSeg, des, area) <==>
              exists de :: de in des && PrepareFor(env, s, needSeg, de, area) == Some(c)
  {
    if des != [] {
      var prefix := des[..|des| - 1];
      CallsAreFromDEs(env, s, needSeg, prefix, area);
      assert des == prefix + [des[|des| - 1]];
    }
  }

  /**
   * Every Prepare call concerns a DE of the walk that has pads, and passes that DE's
   * two pad arrays and the finder's segmentation flag: a DE without pads is never
   * handed to the finder.
   */
  lemma PreparedDEsHavePads(env: Env, s: CathodeMaps, needSeg: bool, des: seq<DeId>, area: Area)
    requires env.Covers(des)
    ensures forall c :: c in Calls(env, s, needSeg, des, area) ==>
              && c.de in des && HasPads(s, c.de) && c.withSegmentation == needSeg
              && c.pads0 == PadArray(s, c.de, 0) && c.pads1 == PadArray(s, c.de, 1)
  {
    CallsAreFromDEs(env, s, needSeg, des, area);
  }

  /** With an invalid query area, every DE with pads is prepared, with the default area. */
  lemma InvalidAreaPreparesEveryDEWithPads(env: Env, s: CathodeMaps, needSeg: bool, des: seq<DeId>, area: Area)
    requires env.Covers(des) && !area.IsValid()
    ensures forall de :: de in des && HasPads(s, de) ==>
              PrepareCall(de, PadArray(s, de, 0), PadArray(s, de, 1), DefaultArea(), needSeg)
                in Calls(env, s, needSeg, des, area)
    ensures forall c :: c in Calls(env, s, needSeg, des, area) ==> c.deArea == DefaultArea()
  {
    CallsAreFromDEs(env, s, needSeg, des, area);
  }

  /**
   * Every invalid query area, a zero-size one included, means "no restriction":
   * the walk makes the same Prepare calls and stores the same records as with the
   * default area.
   */
  lemma {:induction false} InvalidAreasActAsDefault(env: Env, s: CathodeMaps, needSeg: bool,
      find: PrepareCall -> seq<Cluster>, des: seq<DeId>, area: Area, start: int)
    requires env.Covers(des) && !area.IsValid()
    ensures Calls(env, s, needSeg, des, area) == Calls(env, s, needSeg, des, DefaultArea())
    ensures RecordsFor(env, s, needSeg, find, des, area, start)
            == RecordsFor(env, s, needSeg, find, des, DefaultArea(), start)
  {
    if des != [] {
      var n := |des| - 1;
      InvalidAreasActAsDefault(env, s, needSeg, find, des[..n], area, start);
      assert PrepareFor(env, s, needSeg, des[n], area) == PrepareFor(env, s, needSeg, des[n], DefaultArea());
    }
  }

  /**
   * With a valid query area, a DE with pads is prepared exactly when Overlap
   * reports an overlap, and then with the local area Overlap computed.
   */
  lemma ValidAreaPreparesExactlyOverlapping(env: Env, s: CathodeMaps, needSeg: bool, des: seq<DeId>, area: Area)
    requires env.Covers(des) && area.IsValid()
    ensures forall de :: de in des && HasPads(s, de) ==>
              ((exists c :: c in Calls(env, s, needSeg, des, area) && c.de == de)
               <==> Overlap(env.deAreas, env.transformer, env.elems, de, area).0)
    ensures forall c :: c in Calls(env, s, needSeg, des, area) ==>
              && c.de in env.deAreas
              && c.deArea == Overlap(env.deAreas, env.transformer, env.elems, c.de, area).1
  {
    CallsAreFromDEs(env, s, needSeg, des, area);
    forall de | de in des && HasPads(s, de)
      ensures (exists c :: c in Calls(env, s, needSeg, des, area) && c.de == de)
              <==> Overlap(env.deAreas, env.transformer, env.elems, de, area).0
    {
      if Overlap(env.deAreas, env.transformer, env.elems, de, area).0 {
        var c := PrepareFor(env, s, needSeg, de, area).value;
        assert c in Calls(env, s, needSeg, des, area);
      }
    }
  }

  lemma {:induction false} PulledFromCalls(calls: seq<PrepareCall>, find: PrepareCall -> seq<Cluster>)
    ensures forall k :: 0 <= k < |Pulled(calls, find)| ==>
              exists c :: c in calls && Pulled(calls, find)[k].0 == c.de && Pulled(calls, find)[k].1 in find(c)
  {
    if calls != [] {
      var prefix := calls[..|calls| - 1];
      var last := calls[|calls| - 1];
      PulledFromCalls(prefix, find);
      var before := Pulled(prefix, find);
      var tagged := Tagged(last.de, find(last));
      assert Pulled(calls, find) == before + tagged;
      forall k | 0 <= k < |Pulled(calls, find)|
        ensures exists c :: c in calls && Pulled(calls, find)[k].0 == c.de && Pulled(calls, find)[k].1 in find(c)
      {
        if k < |before| {
          var c :| c in prefix && before[k].0 == c.de && before[k].1 in find(c);
          assert c in calls;
        } else {
          assert Pulled(calls, find)[k] == tagged[k - |before|];
          assert find(last)[k - |before|] in find(last);
        }
      }
    } else {
      assert Pulled(calls, find) == [];
    }
  }

  /**
   * Only prepared DEs contribute records: every record's DE is in the walk, has
   * pads, and (for a valid query area) overlaps it. A DE disjoint from the query
   * area contributes nothing, whatever pads it holds.
   */
  lemma RecordsComeFromPreparedDEs(env: Env, s: CathodeMaps, needSeg: bool,
      find: PrepareCall -> seq<Cluster>, des: seq<DeId>, area: Area, start: int)
    requires env.Covers(des)
    ensures forall r :: r in RecordsFor(env, s, needSeg, find, des, area, start) ==>
              && r.de in des && HasPads(s, r.de)
              && (area.IsValid() ==> Overlap(env.deAreas, env.transformer, env.elems, r.de, area).0)
  {
    var recs := RecordsFor(env, s, needSeg, find, des, area, start);
    var calls := Calls(env, s, needSeg, des, area);
    RecordsArePulledClusters(env, s, needSeg, find, des, area, start);
    PulledFromCalls(calls, find);
    CallsAreFromDEs(env, s, needSeg, des, area);
    forall r | r in recs
      ensures && r.de in des && HasPads(s, r.de)
              && (area.IsValid() ==> Overlap(env.deAreas, env.transformer, env.elems, r.de, area).0)
    {
      var k :| 0 <= k < |recs| && recs[k] == r;
      var c :| c in calls && Pulled(calls, find)[k].0 == c.de && Pulled(calls, find)[k].1 in find(c);
      var de :| de in des && PrepareFor(env, s, needSeg, de, area) == Some(c);
    }
  }
}
