# GoTransit: a verified model of its core

GoTransit plans journeys over public transport and streets, keeps its street graph and its timetable up to date
from live feeds, and follows a rider along a plan. This project models the parts of it where mistakes are hardest
to see, in Dafny, and proves what they promise.

- **The round-based search** (`Timetable`, `RaptorLabels`, `RaptorOptimal`, `RaptorRounds`, `RaptorJourneys`, `Raptor`,
  `RaptorLimits`).
  `RaptorSearch.Raptor` keeps its labels, marks and queues between queries, as the program does. Every journey it
  returns is a real one, whatever was asked before; under the assumptions the search itself relies on, no chain of
  rides and footpaths beats what it returns. `RaptorLimits` runs the search where its two
  conditions fail and shows what is lost.
- **The street searches** (`GraphModel`, `Heap`, `LabelStore`, `NearSearch`, `RoadSearch`, `Components`, `Twins`).
  Bounded Dijkstra on reusable epoch-stamped arrays is exact; weighted A* with reopened nodes is bounded by the
  heuristic's factor; union-find with path halving finds exactly the undirected components.
- **The street source's life** (`StreetMap`, `SourceData`, `SourceUpdate`, `StoreFormat`, `StoreBack`, `StoreCodec`,
  `StoreLoad`, `StoreReader`, `Geometry`, `Csr`, `Chains`, `Assembly`, `GraphBuild`, `GraphFacts`, `GraphShapes`). Folding a diff refines an
  update of a map of ways and nodes; the stored image round-trips; cutting ways into edges loses and invents nothing;
  every edge shows its way's own points, in both directions.
- **Realtime feeds** (`Wire`, `GtfsRt`, `GtfsRtBack`, `GtfsRtEncode`, `GtfsRtScan`, `GtfsRtDecode`, `Delays`,
  `OverlayBuild`, `OverlayRead`). The hand-written GTFS-RT encoder and decoder are inverse up to a stated normal form, and
  the bytes on which the decoder panics are known exactly (Protocol Buffers Encoding, sections
  "Base 128 Varints" and "Message Structure"); the overlay built from a feed holds, for every trip, a fold over its
  matched stop updates, and the router reads nothing else.
- **The tracking session** (`ShapeBoarding`, `Persistence`, `Hysteresis`, `SessionModel`, `RiskWatch`, `RideRecord`, `Session`). The boarding
  detector, the persistence anchors, the risk hysteresis of every connection, and the session's state machine over whole
  runs with arbitrary inputs.

`Words`, `Seqs`, `Varints`, `Sorting` and `Reversing` hold what the others share. Code that changes state step by step is
a class with the program's own fields and loops; each method is tied to a function or predicate on values, and the
properties are lemmas about those.

## How to read the main results

- `Ideal(tt, q)` collects what the search's optimality rests on: no overtaking within a pattern, times that do not
  decrease along a ride, no stop skipped by a trip that a later one serves, zero buffers, no incoming rail ride, egress
  costs below 2^31 seconds, and footpaths that obey the triangle inequality in rounded seconds. Out of a seeded stop the
  program leaves walking to the street search, so a ride that reaches a seeded stop no earlier than its seed is not walked
  on from. A `Feasible` chain therefore has only walks that `WalkCounts` admits: out of a stop reached before its seeds, or
  to a stop seeded no later than the walk gets there.
- `FootpathsSeeded(tt, q)` is what a caller can check before the search: every footpath out of a seed ends at a stop seeded
  no later than the walk takes. Then all chains count (`RaptorJourneys.AllChainsCount`). It is needed: for every seed and
  footpath that violate it, `RaptorLimits.RunIntoGap` gives an ideal timetable with these footpaths, one stop more and one
  return trip to it, on which the search returns nothing although a chain arrives.
- The alighting position of a reported ride is looked up again, as the first later visit of its stop. `Reported` relates a
  reported leg to the true one, whatever the patterns; a leg is its true ride exactly when that first visit is served in
  time (`RaptorLimits.RideIsReal`, for journeys `JourneyIsTrue`), which `FirstVisitServed(tt)` guarantees and which holds
  of every timetable whose patterns visit no stop twice. `RaptorLimits.RunOnLoop` is a run that reports a wrong leg.
- `Admissible(k, dst, eps)` is the hypothesis on the A* heuristic; the program's own metre rounding keeps its haversine
  heuristic from meeting it exactly. `NoWrap(k)` says that the 32-bit sums of A* do not wrap at the end of any seeded
  path of allowed edges that visits no node twice; `Bounded` is a bound on edges, seeds and nodes that implies it.
- `HopsStored(b)` asks that a single hop between two nodes of an open way is stored with a metre or more. Only a hop of
  65535.5 m or more can violate it, because the language leaves open what a conversion to sixteen bits makes of it.
- A decoder's result is a value, an error or a panic. `Stumbles(kind, m, offsets)` says that the cursor meets, before any
  error, a payload length `n` at offset `i` with `n >= 2^63 - i`, inside the fields that start at `offsets`.
- A session keeps, for the proof only, `past` (what each evaluation was given) and `rounds` (where it found the rider, where
  the rider was when it looked ahead, and how far it judged). `WatchOf` is what was heard of a connection, as a fold over
  both since the plan's first evaluation; `Justified`, `RoundOk` and `RidesAt` are stated on them alone. A `Streak` is a
  rising list of evaluations that found a connection critical, with no other judgement of it in between.
- Where a boarding allowance is concerned the claim is about the label at the moment of boarding
  (`RunRound`, `NewRidesInTime`), not about every extracted journey: a footpath of the same round may later
  overwrite the label that was boarded from.

## Model

| member | source | states |
|---|---|---|
| RaptorSearch.Raptor.Plan | internal/transit/raptor.go:147-327 | any query on a reused instance: every journey returned is real (starts at a seed, legs meet, active uncancelled trips, board before alight, unskipped stops, no leg starts before the previous ends, footpaths at least as long as their path, arrival is last label plus egress) but for its alighting stops, which are the looked-up ones, and real outright under `FirstVisitServed`; arrivals strictly improve; under `Ideal` no feasible chain beats the journeys with no more rides, and with `FootpathsSeeded` no chain at all; the instance is clean again |
| RaptorSearch.Raptor.RunRound | internal/transit/raptor.go:243-295 | one round keeps every label true and no later, best time equal to the round's label, changed stops marked; new ride labels were boarded with every allowance; all rides are covered under `Ideal` |
| RaptorSearch.Raptor.RunRounds | internal/transit/raptor.go:221-309 | per round the best label plus egress and where it is reached; once nothing is marked the remaining rounds can add nothing; no chain of at most k rides beats rounds 0 to k |
| RaptorSearch.Raptor.ScanPattern | internal/transit/raptor.go:330-440 | from the earliest marked position on, every ride of the pattern that can be caught is covered, although only one trip is held and target pruning is on |
| RaptorSearch.Raptor.CatchTrip | internal/transit/raptor.go:404-438 | the trip caught is boardable at the ready time, never later than the one held, and without overtaking no boardable trip is earlier |
| RaptorSearch.Raptor.ReadyAt | internal/transit/raptor.go:360-403 | the first moment at which all allowances (slack, change margin from the train's own arrival, station entry) are taken; never, if that is beyond 31 bits |
| RaptorSearch.Raptor.Transfers | internal/transit/raptor.go:274-295 | footpaths out of every stop reached by a ride are covered, using the triangle inequality for stops overwritten on the way |
| RaptorSearch.Raptor.Queue | internal/transit/raptor.go:250-264 | each pattern serving a marked stop is queued once, at or before that position; marks are cleared |
| RaptorSearch.Raptor.SeedSources | internal/transit/raptor.go:152-183 | stale labels of earlier queries are gone and each stop holds its earliest seed with that seed's rail context |
| RaptorSearch.Raptor.RailWalks | internal/transit/raptor.go:190-210 | one-footpath labels out of rail-seeded stops keep round zero true |
| RaptorSearch.Raptor.Extract | internal/transit/raptor.go:496-535 | walking labels back from a target better than its seed terminates, never fails, yields between 1 and k rides, and legs that are those of a true journey from a seed to the target at the label's time, each ride alighting at the first later visit of its stop |
| RaptorJourneys.BackOneLeg | internal/transit/raptor.go:503-531 | a footpath parent that is itself a footpath is strictly earlier and a ride's parent lives one round lower, even after overwrites |
| RaptorSearch.Raptor.PosInPattern | internal/transit/raptor.go:539-553 | the first later visit of the stop, if there is one |
| RaptorSearch.Raptor.Report | internal/transit/raptor.go:311-326 | a journey for every round strictly better than all before it, with no more rides than rounds |
| RaptorJourneys.NoneBetter | internal/transit/raptor.go:311-326 | if no chain beats the rounds then none beats the reported journeys, except where a seed is itself a target |
| RaptorOptimal.RoundCovers | internal/transit/raptor.go:242-304 | a round closed under rides and footpaths covers all chains with one ride more |
| RaptorOptimal.FixpointCovers | internal/transit/raptor.go:297-303 | a round that changes nothing covers chains of every length |
| RaptorLabels.WriteXfer | internal/transit/raptor.go:283-288 | overwriting a label by a footpath keeps all labels of the round true |
| RaptorLimits.SeededStopHidesFootpath | internal/transit/raptor.go:274-280 | an ideal timetable on which a ride followed by a footpath arrives and no journey of the search exists, because the stop between is seeded earlier |
| RaptorOptimal.ChainCounts | internal/transit/raptor.go:274-280 | with every footpath out of a seed seeded, every chain is feasible |
| RaptorJourneys.AllChainsCount | internal/transit/raptor.go:147-327 | then what no feasible chain beats no chain beats |
| RaptorLimits.GapLoses | internal/transit/raptor.go:274-280 | for every footpath out of a seed that is not seeded, journeys that are real on the timetable built for it cannot keep up with one of its chains |
| RaptorLimits.RunIntoGap | internal/transit/raptor.go:147-327 | run on that timetable, which is ideal, the search returns no journey although a chain arrives |
| RaptorJourneys.LookupTells | internal/transit/raptor.go:519-546 | the position looked up for a label's ride is its own or an earlier visit not served in time |
| RaptorLimits.RideIsReal | internal/transit/raptor.go:519-546 | a reported ride is its true ride, and one that alights in time, exactly when the first later visit of its stop is served in time |
| RaptorLimits.JourneyIsTrue | internal/transit/raptor.go:496-546 | a journey is reported with its true legs exactly when all its rides' first visits are served in time, and is then real |
| RaptorLimits.RunOnLoop | internal/transit/raptor.go:496-546 | run on a looping pattern that skips the first visit, the search returns exactly one journey, whose ride alights at the skipped visit |
| Transit.Timetable.PatternOfTrip | internal/transit/model.go:321-333 | binary search finds the pattern that owns the trip |
| Transit.Timetable.OnePattern | internal/transit/model.go:235-238 | a trip belongs to one pattern only |
| NearSearching.NearSearch.Run | internal/graph/search.go:49-91 | after any earlier runs the labels are fully explored up to the bound (at most 65000) and the touched list holds each labelled node once |
| NearSearching.Exact | internal/graph/search.go:49-113 | a node is labelled iff some seeded path costs at most the bound, and its label is the cheapest such cost |
| NearSearching.NearSearch.PathTo | internal/graph/search.go:118-135 | a connected path of mode-allowed edges from a seed whose seed cost plus edge costs is exactly the label |
| NearSearching.NearSearch.Dist | internal/graph/search.go:107-113 | reports exactly the labelled nodes, with their labels |
| LabelStores.LabelStore.NextEpoch | internal/graph/search.go:53-57 | a new epoch forgets every label, also when the counter wraps |
| RoadSearching.RoadSearch.Route | internal/graph/search.go:176-274 | where no sum wraps, found iff a complete route exists (unless the settle limit was hit); the path is connected from a source seed to the end seed and its true cost is at most the reported one; for every eps with an admissible heuristic the cost is at most eps times any complete route's |
| RoadSearching.BestIsBounded | internal/graph/search.go:223-251 | stopping when no queued key is below the best total is safe for every eps at once, with nodes reopened, where no sum wraps |
| RoadSearching.OfferRealised | internal/graph/search.go:223-251 | every label offered is the cost of a seeded path that visits no node twice, so only sums at the ends of such paths are formed |
| RoadSearching.BoundedFits | internal/graph/search.go:176-274 | bounds on the node count, edges, seeds and heuristic under which no sum wraps |
| RoadSearching.OptimalAtOne | internal/graph/search.go:176-274 | with eps = 1 the reported cost is the cheapest route's and the path achieves it |
| Heap.HeapPush | internal/graph/search.go:278-290 | keeps the heap order and adds exactly the item |
| Heap.HeapPop | internal/graph/search.go:292-314 | removes exactly the least item and keeps the heap order |
| GraphModel.Graph.EdgeCosts | internal/graph/model.go:100-114 | every edge costs at least one decisecond, although the 32-bit product wraps on long edges |
| GraphModel.Graph.SourceOf | internal/graph/snap.go:27-32 | binary search finds the node whose bucket holds the edge |
| Twins.Twin | internal/graph/snap.go:55-67 | an opposite edge with the same shape and length, or proof that there is none |
| Twins.ReversePath | internal/graph/snap.go:42-53 | succeeds iff every edge has a twin, and is then the twins in reverse order |
| Twins.BackwardWalks | internal/graph/snap.go:42-53 | a reversed walk leads from its end to its start over the same metres |
| Twins.BackwardCosts | internal/graph/snap.go:42-53 | on foot or by bike the way back takes as many deciseconds as the way there |
| Components.SnapComponents | internal/graph/build.go:387-449 | a node gets a mode's bit iff it touches an edge of that mode and its undirected component has at least the threshold of nodes |
| Components.Find | internal/graph/build.go:402-408 | path halving terminates on every reachable parent array and keeps the forest's classes |
| Components.RepIsComponent | internal/graph/build.go:410-424 | two nodes have the same representative iff they are connected |
| SourceUpdate.SrcData.ApplyChange | internal/graph/apply.go:26-137 | the new source is a fresh valid one whose map is the old map updated; the old source is untouched, names only grow and stay unique |
| SourceUpdate.SrcData.ApplyChanges | internal/graph/apply.go:23-26 | any list of diffs folds |
| SourceUpdate.SrcData.IndexNodes | internal/graph/build.go:157-184 | ids are exactly the referenced nodes, sorted and unique; a node routes iff it is used twice or ends a way; coordinates start missing |
| SourceUpdate.SrcData.CarryWays | internal/graph/apply.go:51-71 | exactly the ways neither deleted nor upserted survive, with contiguous references |
| SourceUpdate.SrcData.AddWays | internal/graph/apply.go:72-108 | then come the routable upserts, in order, each name at one index |
| SourceUpdate.SrcData.TakeNodes | internal/graph/apply.go:113-134 | every live node gets the coordinate the update gives it |
| StreetMap.WaysAfter | internal/graph/apply.go:30-108 | a way is in the new map iff it is a routable upsert, or an old way neither deleted nor upserted |
| StreetMap.NodesAfter | internal/graph/apply.go:113-134 | a live node is missing if deleted, else at its last upsert, else at its old coordinate |
| StreetMap.ReplayHarmless | internal/graph/apply.go:26-137 | applying the same diff twice gives the same map |
| StreetMap.NothingChanges | internal/graph/apply.go:26-137 | the empty diff changes nothing |
| StreetMap.DeleteAndUpsert | internal/graph/apply.go:30-134 | in one diff an upsert wins over the deletion of the same way, and a deletion over an upsert of the same node |
| StreetMap.ApplyInParts | internal/graph/apply.go:26-137 | a list of diffs may be folded in two parts |
| SourceData.MapValid | internal/graph/build.go:157-184 | a valid source's map has coordinates for exactly the referenced nodes |
| Sorting.Compact | internal/graph/build.go:161-172 | runs of equal ids in a sorted array become one id each, in place, with whether it occurred twice |
| StoreBack.ImageBack | internal/graph/store.go:115-233 | decode(encode(src)) = src for every source with contiguous references, parallel arrays and strings up to 1 MiB, whatever bytes follow |
| StoreBack.ImageInjective | internal/graph/store.go:115-171 | different storable sources have different images |
| StoreBack.BackIff | internal/graph/store.go:115-233 | the image reads back exactly when references are contiguous, arrays parallel, every field within its integer type and no string over 1 MiB |
| StoreBack.OnlyStorable | internal/graph/store.go:173-233 | whatever the bytes, the source they hold is such a one, and no count in it exceeds their number |
| StoreBack.FlagsBack | internal/graph/store.go:161-170 | the bitset of eight route flags a byte reads back, whatever its length |
| StoreBack.ValidStorable | internal/graph/store.go:115-171 | every valid source with fewer than 2^32 references is storable |
| StoreCodec.WriteStore | internal/graph/store.go:22-62 | the whole image comes out exactly when there is room for it; a write error sticks |
| StoreCodec.Encode | internal/graph/store.go:115-171 | the loops with running deltas write exactly the image |
| StoreReader.ReadStore | internal/graph/store.go:173-233 | for any bytes: a panic exactly where a count met before any error is more than make() accepts, otherwise the source they hold, or an error |
| StoreLoading.LoadPanicsIff | internal/graph/store.go:181-217 | loading panics exactly when one of the counts a reader meets, of names, way records, references or node ids, has no room |
| StoreLoading.HeldLoads | internal/graph/store.go:173-233 | bytes that hold a source are loaded exactly when there is room for its four lists |
| StoreReader.RestartAndUpdate | internal/graph/store.go:65-85 | saving, reloading and applying diffs gives the map that applying them directly gives; reloading panics only without room for the lists that were saved |
| Assembly.Assembler.CutWay | internal/graph/build.go:270-292 | a way is cut at holes and routing nodes; its neighbouring present positions are covered so far, in order |
| Assembly.Assembler.EmitChain | internal/graph/build.go:236-253 | a chain is split so that a piece exceeds 65000 m only if it is a single hop, nothing left out |
| Assembly.Assembler.EmitEdge | internal/graph/build.go:216-233 | the staged edge stands for its span: end nodes, rounded metres, profile, stored shape |
| Assembly.Assembler.Promote | internal/graph/build.go:206-213 | a source node becomes a routing node once |
| GraphBuild.Assemble | internal/graph/build.go:257-367 | the finished arrays hold exactly the directions of the staged edges, which tile the ways |
| GraphFacts.PairInOneEdge | internal/graph/build.go:270-292 | two neighbouring present positions of a way lie in exactly one staged edge |
| GraphFacts.EdgeInsideRun | internal/graph/build.go:236-253 | no edge crosses a hole, has a routing node inside, or exceeds 65000 m unless it is a single hop; one of several hops is stored with its rounded length |
| GraphFacts.ArcOnce | internal/graph/build.go:316-367 | each direction of a non-loop edge has one CSR position of its own, in its source's bucket, with flags |
| GraphFacts.EdgeIsArc | internal/graph/build.go:316-367 | every CSR edge is one of those directions |
| GraphShapes.ArcShape | internal/graph/model.go:128-171 | the forward CSR edge shows exactly the chain's points and the backward one their reversal, whatever surrounds the shape in the blob |
| GraphShapes.AppendGeometry | internal/graph/model.go:128-144 | the points appended are the edge's points, the first one on request |
| GraphFacts.GraphValid | internal/graph/build.go:216-367 | an assembled graph meets what the searches and the component labelling require exactly when every single hop between two nodes of an open way is stored with a metre or more |
| GraphFacts.LostHop | internal/graph/build.go:216-253 | a hop stored with no metre leaves an edge of length zero in the graph, whatever else the way holds |
| Csr.Layout | internal/graph/build.go:316-367 | counting, prefix sums and fill counters lay every arc out in its slot |
| Csr.SlotsDiffer | internal/graph/build.go:343-352 | no two arcs share a slot |
| Csr.SlotTaken | internal/graph/build.go:331-352 | every position of a bucket is some arc's slot |
| Csr.ArcPresent | internal/graph/build.go:353-367 | every flagged direction of a non-loop edge is laid out |
| Geometry.ShapeBack | internal/graph/model.go:146-190 | a stored chain gives back its inner points under 32-bit wrap-around of the deltas |
| Geometry.AppendShape | internal/graph/build.go:221-232 | the blob grows by the chain's shape |
| Geometry.DecodeGeom | internal/graph/model.go:146-171 | appends the shape's points, reversed on request |
| Varints.ParseUvarint | internal/graph/build.go:451-457 | a written varint reads back, whatever follows |
| Varints.ReadersAgree | internal/rt/proto.go:418-434 | the store's reader and the feed's reader return the same value and length for every 64-bit varint |
| GtfsRtBack.FeedBack | internal/rt/encode.go:9-31 | Decode(Encode(f)) is f in normal form: Added dropped if cancelled, NoData dropped if skipped, trip delay only if it is given, signed zero position is no position |
| GtfsRtBack.LosslessIff | internal/rt/proto.go:61-106 | the round trip returns the feed itself exactly when it is canonical |
| GtfsRtBack.TripBack | internal/rt/proto.go:187-240 | a trip update, its descriptor, stop updates, timestamp and delay come back |
| GtfsRtBack.STUBack | internal/rt/proto.go:244-295 | a stop update comes back, negative delays as ten-byte varints included |
| GtfsRtBack.VehicleBack | internal/rt/proto.go:327-410 | a vehicle comes back |
| GtfsRtBack.DescriptorBack | internal/rt/proto.go:145-185 | a trip descriptor comes back, cancelled winning over added |
| GtfsRtBack.NormIdempotent | internal/rt/encode.go:9-160 | a second round trip changes nothing |
| GtfsRtEncoding.Encode | internal/rt/encode.go:9-31 | the field writers produce exactly the feed's encoding |
| GtfsRtDecoding.Decode | internal/rt/proto.go:61-106 | for any bytes the cursor loops compute the decoding where it exists, and otherwise return an error or panic as the scan of the bytes says |
| GtfsRtDecoding.DecodeOrPanic | internal/rt/proto.go:61-106 | decoding panics exactly when the cursor meets an overlong length before any error; without a panic it computes the decoding, errors included |
| GtfsRtScan.PanicsIff | internal/rt/proto.go:444-455 | a scan panics exactly when, after whole fields, it meets a length n at offset i with n >= 2^63 - i, in any message inside |
| GtfsRtScan.OneField | internal/rt/proto.go:444-455 | a first field with any length of 2^63 or more makes the decoder panic, whatever follows |
| GtfsRtScan.Eleven | internal/rt/proto.go:444-455 | so do eleven bytes: one key and the length 2^64 - 1 |
| GtfsRtDecoding.RoundTrip | internal/rt/proto.go:61-106 | encoder then decoder give the normal form, for every feed whose encoding is shorter than 2^63 bytes |
| Wire.Decoder.Varint | internal/rt/proto.go:418-434 | the cursor reads at most ten bytes, truncates to 64 bits, and fails on a truncated or longer varint |
| Wire.BytesFieldBack | internal/rt/encode.go:151-155 | a length-delimited field gives back its number, its payload and what follows |
| Delays.FillTrip | internal/rt/overlay.go:122-190 | for updates in any order the filled slices are the fold over the matched updates, and Passed is raised by exactly the past ones |
| Delays.OneUpdate | internal/rt/overlay.go:122-190 | one matched update keeps the positions before it, sets its own, and gives every later one its departure delay |
| Delays.InStopOrder | internal/rt/overlay.go:122-190 | in stop order a stop's delay is the nearest matched update's at or before it |
| Delays.PassedIsMax | internal/rt/overlay.go:173-185 | Passed ends as the maximum of its old value and every matched past position |
| OverlayBuild.BuildOverlay | internal/rt/overlay.go:11-118 | every trip shows its cancellation, its newest vehicle stamp, its passed stops and the segment of its first update; segments are disjoint |
| OverlayBuild.Builder.TakeUpdate | internal/rt/overlay.go:52-69 | one more trip update keeps all of that |
| OverlayBuild.Builder.TakeVehicle | internal/rt/overlay.go:70-114 | one more vehicle keeps all of that; an older stamp is ignored |
| OverlayBuild.PassedGrows | internal/rt/overlay.go:11-118 | what is passed stays passed as more items arrive |
| OverlayBuild.NewestIsMax | internal/rt/overlay.go:76-92 | the stamp kept is the newest vehicle's |
| OverlayRead.ReadsOwnDelays | internal/transit/model.go:196-266 | arrival, departure and skip of a trip with an update are its schedule moved by its own fold, clamped at zero |
| OverlayRead.ReadsSchedule | internal/transit/model.go:196-266 | a trip without an update is read on schedule |
| OverlayRead.SkippedWhenCancelled | internal/transit/model.go:269-273 | a trip is skipped exactly when some update cancelled it |
| OverlayRead.EntriesDiffer | internal/transit/model.go:196-206 | two trips never read the same entry |
| ShapeBoarding.ShapeBoard.Evaluate | internal/track/gps.go:298-383 | boarded is reported exactly on boarding evidence: fixes since the last restart in the corridor, strictly later by at most 45 s, never 35 m behind the evidence, two forward gains of 5 m, 30 m over 5 s, 100 m from the stop; without a fix of the last 45 s, a reached stop and a shape nothing is judged, and what is reported ends in a fix of the last 45 s |
| ShapeBoarding.ShapeBoard.Consume | internal/track/gps.go:326-367 | what one fix does to the evidence: ignored, dropped, restarted or extended |
| ShapeBoarding.GainsAddUp | internal/track/gps.go:355-362 | proven progress is at least five metres for every moving fix |
| ShapeBoarding.TwoGains | internal/track/gps.go:379-382 | boarding evidence holds two different fixes that each moved five metres beyond everything before |
| ShapeBoarding.TrailTimes | internal/track/gps.go:326-344 | the evidence's fixes are strictly later one by one and at most 45 s apart |
| ShapeBoarding.ReplayTwice | internal/track/gps.go:324-329 | evaluating again on the same history changes nothing, so each fix counts once |
| ShapeBoarding.History.Update | internal/track/gps.go:135-171 | the history keeps the last six accepted fixes in time order; old, late and unusable ones are dropped |
| Persistence.Anchor.Hold | internal/track/gps.go:192-203 | true exactly when the condition has held at every evaluation since one at least d ago |
| Hysteresis.Evaluate | internal/track/risk.go:98-163 | levels by threshold; a level is emitted exactly when it is news and has repeated enough; a reroute is due exactly after enough critical evaluations in a row, the first long enough ago |
| Hysteresis.Count | internal/track/risk.go:111-127 | the counters are the current streaks, and breachAt is set iff the critical streak is not empty, to its first evaluation |
| Hysteresis.RunsAre | internal/track/risk.go:111-127 | a critical streak is never longer than the streak of evaluations that are not good |
| Hysteresis.BlocksGrow | internal/track/risk.go:134-150 | emitted levels form blocks of a warning, a critical level or both in that order, each closed by a recovery |
| Hysteresis.DueMeans | internal/track/risk.go:152-155 | when a reroute is due the configured number of evaluations in a row were critical |
| RiskWatching.JudgeAll | internal/track/risk.go:57-177 | the loop judges exactly the connections ahead, up to the first ride past the horizon or the first that is due when a reroute may be made; every connection's counters stay those of what was heard of it since the plan began |
| RiskWatching.JudgeLeg | internal/track/risk.go:77-150 | one connection is judged once more, at certainty only if it is the current one and its stop is reached, and due exactly on its own streak |
| RiskWatching.FoundIsOk | internal/track/risk.go:152-163 | what the loop finds goes on record as it should, and a connection found due justifies the attempt made for it |
| RiskWatching.JudgingScores | internal/track/risk.go:98-127 | what was heard of a connection is one level from each evaluation of the plan that judged it, in order, and nothing else |
| RiskWatching.DueMeansStreak | internal/track/risk.go:111-163 | a connection is due only after at least the configured number of different evaluations found it critical, the first at least the minimum breach ago, with no evaluation in between that judged it otherwise |
| RiskWatching.AttemptMeans | internal/track/risk.go:152-163 | every justified connection_risk attempt has such a streak of evaluations of its own plan behind it, the last of which is the attempt's own |
| RideRecords.OneLeg | internal/track/track.go:452-602 | one leg further, the record still holds exactly the rides boarded on the clock |
| RideRecords.SkippedWalks | internal/track/gps.go:258-284 | walks that reaching the boarding stop completes board nothing |
| TrackingSession.Session.EvaluateRisk | internal/track/risk.go:39-179 | what is judged, and that an attempt is made exactly for the first due connection, ten seconds after the last attempt at the earliest |
| TrackingSession.Run | internal/track/track.go:228-331 | over any run: every evaluation that looks ahead judged all connections ahead or stopped at a due one; every connection_risk attempt is justified by the evaluations of its plan; every switch but one for an earlier arrival comes from an attempt of that moment and reason; soft reroutes at least three minutes after any reroute event, attempts at least ten seconds apart; no switch while boarded changes the trip or clears boarded; no anchor written twice within a plan; exactly the rides boarded on the clock are on record, each not before its departure and that not before its anchor; nothing leaves the record |
| TrackingSession.Session.Evaluate | internal/track/track.go:228-331 | one evaluation adds at most one reroute event and one attempt, both at this moment; without an event the plan's rides and every anchor stay; it goes on record with where it found the rider, and the rides boarded on the clock from there |
| TrackingSession.Session.Advance | internal/track/track.go:452-602 | terminates by the legs remaining; anchors and rides stay, only times of walks move; exactly the rides boarded on the clock on the way go on record |
| TrackingSession.Session.RideOnClock | internal/track/track.go:489-511 | boards on the clock only from the departure on and not before the anchor, alights only from the arrival on, and every such boarding goes on record |
| TrackingSession.Session.RideOn | internal/track/track.go:519-555 | a rail ride that runs on the clock is boarded on record with its realtime departure; a skipped or too early ride changes nothing |
| TrackingSession.Session.RideOnEvidence | internal/track/track.go:556-600 | boards and alights exactly on the evidence |
| TrackingSession.Session.WalkOn | internal/track/track.go:455-487 | a street leg ends exactly on the clock or at its measured end, unless a vehicle picked the rider up |
| TrackingSession.Session.CompleteAlight | internal/track/track.go:661-681 | the next leg is current, not boarded; a walk restarts at the later of arrival and now; anchors stay |
| TrackingSession.Session.SetReady | internal/track/track.go:695-705 | an anchor is written once |
| TrackingSession.Session.AnchorAfterAlight | internal/track/track.go:779-796 | the change margin counts from the train's arrival, station entry from a bus stopping at the station |
| TrackingSession.Session.AnchorAfterStreet | internal/track/track.go:753-774 | station entry counts from the end of the street leg, a change from the earlier train's arrival |
| TrackingSession.Session.SwitchTo | internal/track/track.go:1200-1235 | installs the plan, forgets the counters of the old one and tells the client, or, if that would move a boarded rider, changes nothing |
| TrackingSession.Session.Reroute | internal/track/track.go:1165-1198 | switches exactly when an attempt is allowed and its plan is usable, and for a soft reason different and affordable |
| TrackingSession.Session.TryBetterArrival | internal/track/track.go:1144-1160 | switches exactly when a better plan exists that keeps the rider's vehicle |
| TrackingSession.Session.Improve | internal/track/track.go:301-330 | no soft reroute within three minutes of the last switch or while boarding; the plan stays or is followed by one event |

## Left out

- The six parallel label slices of a round are one record per stop, and rows, marks and queues are sequence-valued fields: aliasing between slices and updates in place are not captured there, nor in the session's and the overlay's slices.
- `Plan`, `Run`, `Route`, `evaluate` and their loops are split into methods, one loop body each; the order of steps is the program's.
- Calendars: active services are sets in the query; `ActiveServices` and its cache are not part of this model.
- RaptorSearch.Raptor.Plan: no claim that transfer slack holds on every extracted journey, and where a pattern repeats a stop the reported alighting may be an earlier visit, because of the two code paths described above.
- RaptorSearch.Raptor.Plan: optimality outside `Ideal`, in particular with skipped stops or overtaking trips, where the code gives it up.
- RoadSearching.RoadSearch.Route: the great-circle heuristic is a parameter, and nothing is claimed where a 32-bit sum wraps (`NoWrap`).
- Distances are an uninterpreted non-negative real function; float64 rounding of sums of hops is not modelled. What a length beyond sixteen bits is converted to is an arbitrary function, because Go leaves it to the implementation.
- GraphShapes.ArcShape: needs a geometry blob below 2^32 - 1 bytes, beyond which offsets wrap.
- StoreBack.ValidStorable: needs fewer than 2^32 references, beyond which offsets wrap.
- The store's compression, magic number, files and buffering; running out of memory below the limits of make().
- OSM PBF and XML parsing, tag classification (`classifyWay`) and the choice of a way's name are inputs of a diff; `ApplyStats` counters are dropped.
- The grid index and `SnapPoint`, which samples half cells and so promises no nearest edge.
- GtfsRtBack.FeedBack: `ReceivedAt` is not on the wire; floats are their bit patterns; encodings of 2^63 bytes or more are excluded because a length would not fit.
- GtfsRtDecoding.Decode: inputs of 2^63 bytes or more, which no slice can hold.
- The lookup from feed trip ids to trips, the service day's start and the time zone are inputs of an overlay item; vehicle coordinates and feed freshness are dropped; one rebuild at a time.
- The session's positions, feasibility, replans, catch probabilities and guards are arbitrary inputs of a step (`World`, `Checks`); the configuration does not change during a session; messages other than reroutes and risk levels are dropped.
- "Boarded implies a transit leg is current" is not claimed: the fallback for a vanished road trip moves on without clearing it.
- HTTP, WebSocket, fetching, caches, pollers, configuration, GTFS CSV, GBFS, leg assembly, polylines and ranking: plumbing or easy members.
