# AliMUONSimpleClusterServer, modelled in Dafny

The MUON cluster server (`AliMUONSimpleClusterServer`) routes data between the
digits of an event, an external cluster finder and a cluster store. It does four
things:

- **DE area index.** At construction it walks every detection element (DE). For each
  one it caches a rectangle in global coordinates. For station 1 and 2 DEs this is
  the bounding box of every pad of both cathodes, found with a running min/max
  seeded with `FLT_MAX`. For the other DEs it is the nominal dimensions of cathode 0
  centred on the local origin. Either way the centre is then moved to global
  coordinates.
- **Pad ingestion (`UseDigits`, `PadArray`).** It clears both per-cathode maps.
  Then, for each digit whose charge is not zero, it appends one pad to the array of
  the digit's (DE, cathode), creating that array on first use.
- **Overlap resolution (`Overlap`, `Global2Local`).** It tests a global query area
  against a DE's cached area. On overlap it returns the intersection with its
  position moved to DE-local coordinates; otherwise it returns the default, invalid
  area.
- **Clusterize.** It walks the DEs of one chamber. It skips DEs without pads and,
  when the query area is valid, DEs that do not overlap it. It prepares the finder
  with each remaining DE and drains it. Every cluster becomes a store record with a
  running sequence index, the IDs of its real pads, its charge and chi2, and its
  position in global coordinates.

Modules, one concern each:

- `MpArea` (area.dfy): vectors and rectangles.
- `Mapping` (mapping.dfy): DEs, segmentation and the geometry transformer, given as
  data.
- `PadIngestion` (pad_ingestion.dfy): digits, pads and the per-cathode maps.
- `DEAreas` (de_areas.dfy): the per-DE area.
- `OverlapResolver` (overlap.dfy): `Global2Local` and `Overlap`.
- `ClusterFinding` (cluster_finder.dfy): the finder and store collaborators, as
  classes.
- `Orchestration` (orchestration.dfy): what one `Clusterize` call does, stated on
  values.
- `SimpleClusterServer` (cluster_server.dfy): the server class. Its constructor,
  `UseDigits` and `Clusterize` are imperative, and each is proved against the
  functions above.
- `Wrappers` (wrappers.dfy): `Option`.

The finder's algorithm is a function `find` from the arguments of a `Prepare` call
to the clusters the finder then emits. A ghost log `prepared` records every
`Prepare` call, so the routing done by `Clusterize` can be stated.

## Model

| member | source | states |
|---|---|---|
| MpArea.Intersect | MUON/AliMUONSimpleClusterServer.cxx:304-306 | a point lies strictly inside the intersection exactly when it lies strictly inside both areas |
| MpArea.OverlapIsSharedPoint | MUON/AliMUONSimpleClusterServer.cxx:304 | for areas with an interior, the overlap test holds exactly when some point is inside both |
| MpArea.OverlapSymmetric | MUON/AliMUONSimpleClusterServer.cxx:304-306 | overlap and intersection do not depend on the order of the two areas |
| MpArea.IntersectionOfOverlapping | MUON/AliMUONSimpleClusterServer.cxx:304-306 | the intersection of two overlapping areas lies within both; when both have an interior, so does the intersection, and it is valid |
| Mapping.OfChamber | MUON/AliMUONSimpleClusterServer.cxx:170-172 | the iterator started on a chamber visits exactly the DEs of that chamber, and no more than all DEs |
| PadIngestion.PadArray | MUON/AliMUONSimpleClusterServer.cxx:327-333 | the array of (DE, cathode) is present exactly when that cathode's map holds the DE, and is then the held array |
| PadIngestion.IngestDigit | MUON/AliMUONSimpleClusterServer.cxx:347-369 | a zero-charge digit changes nothing; any other digit appends exactly its pad to the end of its (DE, cathode) array, an absent array counting as empty; no other array changes |
| PadIngestion.IngestedArrays | MUON/AliMUONSimpleClusterServer.cxx:341-370 | after ingestion, each (DE, cathode) array holds exactly the pads of that pair's non-void digits in digit order, and exists only if there is at least one |
| PadIngestion.IngestedPadsComeFromDigits | MUON/AliMUONSimpleClusterServer.cxx:348-368 | every ingested pad is real, carries its digit's DE, cathode, indices, charge, saturation flag and unique ID, and has the segmentation pad's geometry |
| PadIngestion.VoidDigitsLeaveNoPads | MUON/AliMUONSimpleClusterServer.cxx:341-347 | digits that all have zero charge leave both maps empty |
| PadIngestion.NegativeChargeMakesPad | MUON/AliMUONSimpleClusterServer.cxx:347 | a digit with negative charge is not skipped and yields a pad |
| DEAreas.BuildDEArea | MUON/AliMUONSimpleClusterServer.cxx:88-142 | the running min/max loops over both cathodes' pads compute the DE's area function |
| DEAreas.AccumulateCovers | MUON/AliMUONSimpleClusterServer.cxx:116-125 | the running bounds only widen and cover every pad's borders |
| DEAreas.AccumulateAttains | MUON/AliMUONSimpleClusterServer.cxx:116-125 | each running bound is either its seed or a border of some pad |
| DEAreas.StationFootprintCoversPads | MUON/AliMUONSimpleClusterServer.cxx:100-133 | for station 1 and 2, every pad of both cathodes lies within the local box, whose borders are the running min/max once there is a pad |
| DEAreas.StationFootprintIsTight | MUON/AliMUONSimpleClusterServer.cxx:100-133 | for station 1 and 2 with at least one pad of finite borders, each border of the local box is the border of some pad |
| DEAreas.PadlessStationAreaIsInvalid | MUON/AliMUONSimpleClusterServer.cxx:102-133 | a station 1 or 2 DE without pads keeps the `FLT_MAX` seeds, so its box has half-dimensions -FLT_MAX and its cached area is invalid, with null dimensions |
| OverlapResolver.Global2Local | MUON/AliMUONSimpleClusterServer.cxx:272-286 | the local area keeps the global area's dimensions and validity |
| OverlapResolver.Global2LocalRoundTrip | MUON/AliMUONSimpleClusterServer.cxx:277-285 | with a consistent transformer, the local position maps back to the global position at the chamber's nominal z |
| OverlapResolver.Overlap | MUON/AliMUONSimpleClusterServer.cxx:289-324 | true exactly when the query area overlaps the DE's cached area; then the local form of the intersection, otherwise the default area |
| OverlapResolver.OverlapIsLocalIntersection | MUON/AliMUONSimpleClusterServer.cxx:289-313 | for areas with an interior, true exactly when some point is inside both; then a valid area with the intersection's dimensions, whose position maps back to the intersection's centre |
| ClusterFinding.ClusterFinder.Prepare | MUON/AliMUONSimpleClusterServer.cxx:203-214 | a Prepare call is logged and sets the clusters the finder will emit |
| ClusterFinding.ClusterFinder.NextCluster | MUON/AliMUONSimpleClusterServer.cxx:223 | returns the next pending cluster and consumes it, or nothing once none is left |
| ClusterFinding.ClusterStore.Add | MUON/AliMUONSimpleClusterServer.cxx:227 | appends one record |
| Orchestration.PrepareFor | MUON/AliMUONSimpleClusterServer.cxx:184-214 | no call for a DE without pads; otherwise the DE's two arrays and the segmentation flag, with the default area for an invalid query area, and for a valid one a call exactly when Overlap succeeds, with Overlap's local area |
| Orchestration.CollectDigitIds | MUON/AliMUONSimpleClusterServer.cxx:232-243 | the loop over a cluster's pads collects the unique IDs of its real pads, in pad order |
| Orchestration.RealPadIdsAreRealPads | MUON/AliMUONSimpleClusterServer.cxx:235-243 | an ID is collected exactly when some real pad carries it; virtual pads add nothing |
| Orchestration.RecordsArePulledClusters | MUON/AliMUONSimpleClusterServer.cxx:223-253 | one record per pulled cluster, in pull order; the k-th has index start + k, its DE and chamber, its real pads' IDs, its charge and chi2, and its position in global coordinates |
| Orchestration.SequenceIndicesContiguous | MUON/AliMUONSimpleClusterServer.cxx:175-227 | sequence indices are contiguous from the store size at entry |
| Orchestration.CallsAreFromDEs | MUON/AliMUONSimpleClusterServer.cxx:180-214 | a Prepare call is made exactly when some DE of the walk yields it |
| Orchestration.PreparedDEsHavePads | MUON/AliMUONSimpleClusterServer.cxx:190-214 | every prepared DE belongs to the walk and has a non-empty pad array; it is passed its own two arrays and the finder's segmentation flag |
| Orchestration.InvalidAreaPreparesEveryDEWithPads | MUON/AliMUONSimpleClusterServer.cxx:193-201 | with an invalid query area, every DE with pads is prepared, always with the default area |
| Orchestration.InvalidAreasActAsDefault | MUON/AliMUONSimpleClusterServer.cxx:193-201 | every invalid query area, a zero-size one included, gives the same Prepare calls and the same records as the default area |
| Orchestration.ValidAreaPreparesExactlyOverlapping | MUON/AliMUONSimpleClusterServer.cxx:196-201 | with a valid query area, a DE with pads is prepared exactly when Overlap succeeds, with Overlap's local area |
| Orchestration.PulledFromCalls | MUON/AliMUONSimpleClusterServer.cxx:209-223 | every pulled cluster was emitted by the finder for a Prepare call on its own DE |
| Orchestration.RecordsComeFromPreparedDEs | MUON/AliMUONSimpleClusterServer.cxx:190-227 | every record's DE is in the walk, has pads and, for a valid query area, overlaps it |
| SimpleClusterServer.ClusterServer.constructor | MUON/AliMUONSimpleClusterServer.cxx:67-146 | caches exactly the iterated DEs, each with its DE area, and starts with empty pad maps |
| SimpleClusterServer.ClusterServer.UseDigits | MUON/AliMUONSimpleClusterServer.cxx:336-371 | the new pad maps are the ingestion of this call's digits into cleared maps, whatever the old maps held |
| SimpleClusterServer.ClusterServer.StoreClusters | MUON/AliMUONSimpleClusterServer.cxx:223-259 | draining the finder appends one record per pending cluster, numbered from the running index, and returns how many |
| SimpleClusterServer.ClusterServer.ClusterizeDE | MUON/AliMUONSimpleClusterServer.cxx:182-260 | one DE of the walk makes its Prepare call, if any, and appends the records of the clusters that call yields |
| SimpleClusterServer.ClusterServer.Clusterize | MUON/AliMUONSimpleClusterServer.cxx:159-268 | the Prepare calls are those of the chamber's DEs in walk order; the store gains exactly the records of the pulled clusters, numbered from its size at entry; the result is their number |

## Left out

- `Print` and `AsString` are debug output, and `AliDebug`/`AliWarning` logging has no effect on behaviour; neither is modelled.
- The destructor's memory management and the placement-new into `TClonesArray` are not modelled. Pad arrays are sequences in maps owned by the server.
- Floating point: coordinates are `real`, so IEEE rounding is not modelled. `FLT_MAX` is the exact largest finite single-precision value.
- `AliMpArea` is not part of this model. Its semantics are stated in `MpArea`:
  - overlap is a strict border test, without a length tolerance;
  - intersection is bounded by the inner borders;
  - an area is valid exactly when its half-dimensions are neither negative nor both zero;
  - an area built with other half-dimensions is invalid and holds null ones, and so does the default area.
- The geometry transformer, segmentation and DE iterator/manager are given as functions and data (`Mapping`), not as the mapping database. Their internals are not part of this model.
- The cluster finder's algorithm is an arbitrary function from what it was prepared with to the clusters it emits. The model does not check that the clusters it returns are built from the pads it was given.
- When `NeedSegmentation()` is true, the source passes both cathodes' segmentations to `Prepare`. The model records only that they were passed (a flag in the call).
- SimpleClusterServer.ClusterServer.Clusterize: the store fills a record through the handle `Add` returns. The model builds the record as a value and then appends it, so it does not capture aliasing through that handle. The finder receives the server's own pad arrays, through non-const pointers at lines 209 and 213. The model passes copies and assumes the finder leaves those arrays untouched, so the server's pads are unchanged after Clusterize; the source does not guarantee this. The inner per-DE body and the drain loop are split into the helper methods `ClusterizeDE` and `StoreClusters`.
- The charge test at MUON/AliMUONSimpleClusterServer.cxx:347 is commented as skipping void digits, which reads as "charge ≤ 0". As written, `! d->Charge() > 0` negates the charge first, so only a charge of exactly zero is skipped. The model follows the code (see `NegativeChargeMakesPad`).
