/**
 * The collaborators Clusterize talks to: the external cluster finder (prepared
 * with one DE's pads, then drained one cluster at a time) and the cluster store.
 */
module ClusterFinding {
  import opened Wrappers
  import opened MpArea
  import opened Mapping
  import opened PadIngestion

  /** A cluster as the finder returns it: local position, charge, chi2 and member pads. */
  datatype Cluster = Cluster(position: Vec2, charge: real, chi2: real, pads: seq<Pad>)

  /**
   * The arguments of one Prepare call: the DE, its two pad arrays (None for an
   * array never created), the local search area, and whether segmentations were given.
   */
  datatype PrepareCall = PrepareCall(
    de: DeId, pads0: Option<seq<Pad>>, pads1: Option<seq<Pad>>,
    deArea: Area, withSegmentation: bool)

  /** A cluster record in the store. */
  datatype RawCluster = RawCluster(
    chamberId: int, de: DeId, index: int,
    digitIds: seq<nat>, charge: real, chi2: real, position: Vec3)

  /**
   * The external cluster finder. Its algorithm is the function `find`, from what it
   * was prepared with to the clusters it emits; `pending` is what NextCluster has
   * still to return, and `prepared` records every Prepare call.
   */
  class ClusterFinder {
    const needSegmentation: bool
    const find: PrepareCall -> seq<Cluster>
    ghost var prepared: seq<PrepareCall>
    var pending: seq<Cluster>

    constructor (needSegmentation: bool, find: PrepareCall -> seq<Cluster>)
      ensures this.needSegmentation == needSegmentation && this.find == find
      ensures prepared == [] && pending == []
    {
      this.needSegmentation := needSegmentation;
      this.find := find;
      prepared := [];
      pending := [];
    }

    method Prepare(call: PrepareCall)
      modifies this
      ensures prepared == old(prepared) + [call]
      ensures pending == find(call)
    {
      prepared := prepared + [call];
      pending := find(call);
    }

    /** The next cluster, or None once the prepared DE is exhausted. */
    method NextCluster() returns (c: Option<Cluster>)
      modifies this
      ensures prepared == old(prepared)
      ensures old(pending) == [] ==> c == None && pending == []
      ensures old(pending) != [] ==> c == Some(old(pending)[0]) && pending == old(pending)[1..]
    {
      if pending == [] {
        c := None;
      } else {
        c := Some(pending[0]);
        pending := pending[1..];
      }
    }
  }

  /** The cluster store: the records appended so far. */
  class ClusterStore {
    var records: seq<RawCluster>

    constructor ()
      ensures records == []
    {
      records := [];
    }

    function GetSize(): nat
      reads this
    {
      |records|
    }

    method Add(r: RawCluster)
      modifies this
      ensures records == old(records) + [r]
    {
      records := records + [r];
    }
  }
}
