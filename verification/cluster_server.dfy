/**
 * AliMUONSimpleClusterServer: builds the per-DE area index once, ingests the digits
 * of an event into per-cathode pad arrays, and on request clusterizes the DEs of a
 * chamber that have pads and overlap a search area, appending the clusters found
 * to a cluster store.
 */
module SimpleClusterServer {
  import opened Wrappers
  import opened MpArea
  import opened Mapping
  import opened PadIngestion
  import opened DEAreas
  import opened OverlapResolver
  import opened ClusterFinding
  import opened Orchestration

  lemma Reassociate<T>(a: seq<T>, b: seq<T>, c: seq<T>)
    ensures (a + b) + c == a + (b + c)
  {
  }

  lemma DropFirst<T>(cs: seq<T>, j: nat)
    requires j < |cs|
    ensures cs[j..][0] == cs[j] && cs[j..][1..] == cs[j + 1..]
  {
  }

  /**
   * One DE further along Clusterize's walk: its Prepare call, if any, and the
   * records of the clusters it yields extend what the earlier DEs produced.
   */
  lemma WalkStep(env: Env, s: CathodeMaps, needSeg: bool, find: PrepareCall -> seq<Cluster>,
      des: seq<DeId>, i: nat, area: Area, start: int, mid: int, pulled: seq<(DeId, Cluster)>,
      prepared0: seq<PrepareCall>, records0: seq<RawCluster>)
    requires env.Covers(des) && i < |des|
    requires pulled == Pulled(Calls(env, s, needSeg, des[..i], area), find)
    requires mid == start + |pulled|
    ensures var step := DECalls(env, s, needSeg, des[i], area);
            var found := Pulled(step, find);
            && (prepared0 + Calls(env, s, needSeg, des[..i], area)) + step
               == prepared0 + Calls(env, s, needSeg, des[..i + 1], area)
            && pulled + found == Pulled(Calls(env, s, needSeg, des[..i + 1], area), find)
            && (records0 + RecordsOf(env, pulled, start)) + RecordsOf(env, found, mid)
               == records0 + RecordsOf(env, pulled + found, start)
  {
    var step := DECalls(env, s, needSeg, des[i], area);
    var calls := Calls(env, s, needSeg, des[..i], area);
    var found := Pulled(step, find);
    CallsStep(env, s, needSeg, des, i, area);
    PulledAppend(calls, step, find);
    RecordsOfAppend(env, pulled, found, start, mid);
    Reassociate(records0, RecordsOf(env, pulled, start), RecordsOf(env, found, mid));
    Reassociate(prepared0, calls, step);
  }

  class ClusterServer {
    const finder: ClusterFinder
    const transformer: Transformer
    const segmentation: Segmentation
    const elems: DetElems
    /** The global area of every DE, filled at construction. */
    const deAreas: map<DeId, Area>
    /** The pad arrays of the current event, one map per cathode. */
    var pads: CathodeMaps

    /** Every DE the iterator can visit has a cached area. */
    predicate Valid() {
      forall de :: de in elems.all ==> de in deAreas
    }

    /** The parts of the server that Clusterize reads but never changes. */
    function Context(): Env {
      Env(elems, transformer, deAreas)
    }

    /** Walks every DE once and caches its global area; the pad maps start empty. */
    constructor (finder: ClusterFinder, transformer: Transformer, segmentation: Segmentation, elems: DetElems)
      ensures this.finder == finder && this.transformer == transformer
      ensures this.segmentation == segmentation && this.elems == elems
      ensures forall de :: de in deAreas <==> de in elems.all
      ensures forall de :: de in deAreas ==> deAreas[de] == DEArea(segmentation, elems, transformer, de)
      ensures pads == NoPads()
      ensures Valid()
    {
      var areas: map<DeId, Area> := map[];
      for i := 0 to |elems.all|
        invariant forall de :: de in areas <==> de in elems.all[..i]
        invariant forall de :: de in areas ==> areas[de] == DEArea(segmentation, elems, transformer, de)
      {
        var de := elems.all[i];
        var area := BuildDEArea(segmentation, elems, transformer, de);
        areas := areas[de := area];
        assert elems.all[..i + 1] == elems.all[..i] + [de];
      }
      assert elems.all[..|elems.all|] == elems.all;
      this.finder := finder;
      this.transformer := transformer;
      this.segmentation := segmentation;
      this.elems := elems;
      deAreas := areas;
      pads := NoPads();
    }

    /**
     * Clears both pad maps, then appends one pad per non-void digit to the array of
     * its DE and cathode, creating the array on first use.
     */
    method UseDigits(digits: seq<Digit>)
      modifies this
      ensures pads == Ingested(segmentation, digits)
    {
      pads := NoPads();
      for i := 0 to |digits|
        invariant pads == Ingested(segmentation, digits[..i])
      {
        var d := digits[i];
        assert digits[..i + 1][..i] == digits[..i];
        if IsVoid(d) {
          continue;
        }
        var mp := segmentation.padByIndices(d.de, d.cathode, d.ix, d.iy);
        var padArray := PadArray(pads, d.de, d.cathode);
        var held := if padArray.None? then [] else padArray.value;
        var mpad := Pad(d.de, d.cathode, d.ix, d.iy, mp.position, mp.dimensions, d.charge, false, true, d.uniqueId);
        if d.saturated {
          mpad := mpad.(saturated := true);
        }
        pads := pads.With(d.cathode, pads.Get(d.cathode)[d.de := held + [mpad]]);
      }
      assert digits[..|digits|] == digits;
    }

    /**
     * Drains the finder after one Prepare call: each cluster it returns is appended
     * to `store` as a record numbered from `nCluster`, with the digit IDs of its
     * real pads and its position moved to global coordinates.
     */
    method StoreClusters(de: DeId, store: ClusterStore, nCluster: int) returns (added: nat)
      modifies store, finder
      ensures finder.prepared == old(finder.prepared) && finder.pending == []
      ensures store.records == old(store.records) + RecordsOf(Context(), Tagged(de, old(finder.pending)), nCluster)
      ensures added == |old(finder.pending)|
    {
      ghost var cs := finder.pending;
      ghost var env := Context();
      ghost var j := 0;
      added := 0;
      var cluster := finder.NextCluster();
      while cluster.Some?
        invariant finder.prepared == old(finder.prepared)
        invariant 0 <= j <= |cs| && added == j
        invariant cluster.Some? ==> j < |cs| && cluster.value == cs[j] && finder.pending == cs[j + 1..]
        invariant cluster.None? ==> j == |cs| && finder.pending == []
        invariant store.records == old(store.records) + RecordsOf(env, Tagged(de, cs[..j]), nCluster)
        decreases |finder.pending| + (if cluster.Some? then 1 else 0)
      {
        var c := cluster.value;
        var ids := CollectDigitIds(c.pads);
        var g := transformer.local2Global(de, Vec3(c.position.x, c.position.y, 0.0));
        var rawCluster := RawCluster(elems.chamberOf(de), de, nCluster + added, ids, c.charge, c.chi2, g);
        ghost var done := Tagged(de, cs[..j]);
        TaggedSnoc(de, cs, j);
        assert |done| == j;
        RecordsOfSnoc(env, done, (de, c), nCluster, nCluster + added);
        assert rawCluster == MakeRecord(env, de, nCluster + added, c);
        store.Add(rawCluster);
        Reassociate(old(store.records), RecordsOf(env, done, nCluster), [rawCluster]);
        assert store.records == old(store.records) + RecordsOf(env, Tagged(de, cs[..j + 1]), nCluster);
        added := added + 1;
        j := j + 1;
        assert finder.pending == cs[j..];
        if j < |cs| {
          DropFirst(cs, j);
        }
        cluster := finder.NextCluster();
      }
      assert cs[..j] == cs;
    }

    /**
     * One DE of the walk: when it has pads and, for a valid search area, overlaps
     * it, prepares the finder with its pad arrays and local search area, then
     * stores every cluster found under sequence indices from `nCluster`.
     */
    method ClusterizeDE(de: DeId, store: ClusterStore, area: Area, nCluster: int) returns (added: nat)
      requires de in deAreas
      modifies store, finder
      ensures finder.prepared == old(finder.prepared) + DECalls(Context(), pads, finder.needSegmentation, de, area)
      ensures store.records
              == old(store.records)
                 + RecordsOf(Context(), Pulled(DECalls(Context(), pads, finder.needSegmentation, de, area), finder.find), nCluster)
      ensures added == |Pulled(DECalls(Context(), pads, finder.needSegmentation, de, area), finder.find)|
    {
      ghost var prepared := DECalls(Context(), pads, finder.needSegmentation, de, area);
      added := 0;
      var pads0, pads1 := PadArray(pads, de, 0), PadArray(pads, de, 1);
      if (pads0.Some? && |pads0.value| > 0) || (pads1.Some? && |pads1.value| > 0) {
        var deArea := DefaultArea();
        var ok := true;
        if area.IsValid() {
          var overlap := Overlap(deAreas, transformer, elems, de, area);
          ok, deArea := overlap.0, overlap.1;
        }
        if ok {
          var call := PrepareCall(de, pads0, pads1, deArea, finder.needSegmentation);
          assert prepared == [call] by {
            assert PrepareFor(Context(), pads, finder.needSegmentation, de, area) == Some(call);
          }
          ghost var found := Tagged(de, finder.find(call));
          assert Pulled(prepared, finder.find) == found by {
            assert [call][..0] == [];
            assert [] + found == found;
          }
          finder.Prepare(call);
          assert finder.pending == finder.find(call);
          added := StoreClusters(de, store, nCluster);
          assert store.records == old(store.records) + RecordsOf(Context(), found, nCluster);
        } else {
          assert prepared == [];
        }
      } else {
        assert prepared == [];
      }
      assert pads == old(pads);
      assert prepared == DECalls(Context(), pads, finder.needSegmentation, de, area);
    }

    /**
     * Clusterizes the DEs of chamber `chamberId` that have pads and, when `area` is
     * valid, overlap it; every cluster found is appended to `store` under the next
     * sequence index. Returns the number of clusters added.
     */
    method Clusterize(chamberId: int, store: ClusterStore, area: Area) returns (nofAddedClusters: int)
      requires Valid()
      modifies store, finder
      ensures finder.prepared
              == old(finder.prepared) + Calls(Context(), pads, finder.needSegmentation, ChamberDEs(elems, chamberId), area)
      ensures store.records
              == old(store.records)
                 + RecordsFor(Context(), pads, finder.needSegmentation, finder.find,
                              ChamberDEs(elems, chamberId), area, old(|store.records|))
      ensures nofAddedClusters
              == |RecordsFor(Context(), pads, finder.needSegmentation, finder.find,
                             ChamberDEs(elems, chamberId), area, old(|store.records|))|
    {
      var des := ChamberDEs(elems, chamberId);
      ghost var env := Context();
      ghost var needSeg := finder.needSegmentation;
      ghost var s := pads;
      nofAddedClusters := 0;
      var nCluster := store.GetSize();
      ghost var start := nCluster;
      ghost var pulled: seq<(DeId, Cluster)> := [];
      for i := 0 to |des|
        invariant env.Covers(des)
        invariant finder.prepared == old(finder.prepared) + Calls(env, s, needSeg, des[..i], area)
        invariant pulled == Pulled(Calls(env, s, needSeg, des[..i], area), finder.find)
        invariant store.records == old(store.records) + RecordsOf(env, pulled, start)
        invariant nCluster == start + |pulled| && nofAddedClusters == |pulled|
      {
        var de := des[i];
        ghost var found := Pulled(DECalls(env, s, needSeg, de, area), finder.find);
        WalkStep(env, s, needSeg, finder.find, des, i, area, start, nCluster, pulled,
                 old(finder.prepared), old(store.records));
        var added := ClusterizeDE(de, store, area, nCluster);
        pulled := pulled + found;
        nCluster := nCluster + added;
        nofAddedClusters := nofAddedClusters + added;
      }
      assert des[..|des|] == des;
      RecordsOfLength(env, pulled, start);
    }
  }
}
