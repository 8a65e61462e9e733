/**
 * The detector description the cluster server consults: detection elements (DEs),
 * their segmentation into pads, and the local/global geometry transformation.
 * These services are external to the server; each is given here as data.
 */
module Mapping {
  import opened MpArea

  type DeId = int

  /** One of the two cathode planes of a DE. */
  type Cathode = c: int | 0 <= c <= 1

  datatype StationType = Station1 | Station2 | Station345 | StationTrigger

  /** A pad of the segmentation: centre and half-dimensions in DE-local coordinates. */
  datatype MpPad = MpPad(position: Vec2, dimensions: Vec2)

  /** The segmentation of every (DE, cathode). */
  datatype Segmentation = Segmentation(
    // nominal half-dimensions of the plane
    dimensions: (DeId, Cathode) -> Vec2,
    // every pad of the plane, in pad-iterator order
    pads: (DeId, Cathode) -> seq<MpPad>,
    // the pad at electronic indices (ix, iy)
    padByIndices: (DeId, Cathode, int, int) -> MpPad)

  /** The DE manager and iterator: all DEs in iteration order, and per-DE attributes. */
  datatype DetElems = DetElems(
    all: seq<DeId>,
    chamberOf: DeId -> int,
    stationOf: DeId -> StationType,
    // the nominal z of each chamber
    chamberZ: int -> real)

  /** The DE-local to global transformation and its inverse. */
  datatype Transformer = Transformer(
    local2Global: (DeId, Vec3) -> Vec3,
    global2Local: (DeId, Vec3) -> Vec3)

  /** The two directions of the transformation undo each other. */
  ghost predicate Consistent(t: Transformer) {
    && (forall de, p :: t.global2Local(de, t.local2Global(de, p)) == p)
    && (forall de, p :: t.local2Global(de, t.global2Local(de, p)) == p)
  }

  /** The DEs of `des` that belong to chamber `chamberId`, in the same order. */
  function OfChamber(des: seq<DeId>, chamberOf: DeId -> int, chamberId: int): (r: seq<DeId>)
    ensures forall de :: de in r <==> de in des && chamberOf(de) == chamberId
    ensures |r| <= |des|
  {
    if des == [] then []
    else (if chamberOf(des[0]) == chamberId then [des[0]] else []) + OfChamber(des[1..], chamberOf, chamberId)
  }

  /** The DEs the iterator visits when started on one chamber. */
  function ChamberDEs(elems: DetElems, chamberId: int): (r: seq<DeId>)
  {
    OfChamber(elems.all, elems.chamberOf, chamberId)
  }
}
