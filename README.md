# Segment intersection: orientation, crossing test and plane sweep

A model of the segment-intersection core of `cg_ss_25`. The core counts the
crossing pairs of a set of line segments in the plane in two ways. The
first is the brute-force pair test of `src/bin/p01.rs`. The second is the
plane sweep of `src/bin/p03.rs`. Both rest on the orientation test `ccw`
and on the crossing predicate `Line::crosses`.

The model covers these parts:

- **Orientation** (`Orientation`): `ccw` computes a determinant and maps it
  to -1, 0 or 1. A half-open tolerance band `[-EPSILON, EPSILON)` gives 0.
  `EPSILON` is `1e-12`.
- **Points and segments** (`Points`, `Lines`): point addition and
  subtraction, `Line::new` with its normal vector, and `is_in_boundary`.
  `Line::crosses` is modelled as written, with its three stages:
  - one segment lies strictly on one side of the other: no crossing;
  - each segment straddles the other: crossing;
  - otherwise: an endpoint is collinear with the other segment and inside
    its bounding box.
- **Naive crossing test** (`NaiveCrossing`): the early `crosses` of
  `src/bin/01.rs`, which only compares orientations.
- **Case analysis** (`CcwCases`, `UniqueCases`, `Lattice`, `CrossingCases`):
  - the `Ccw` enum and its conversion from integers;
  - `minimize`, which picks a representative combination of four
    orientations;
  - the `main` that collects the distinct representatives;
  - the unit tests of `src/bin/p01.rs`, including the test that no segment
    pair on an integer lattice reaches the two "impossible" combinations.
- **Polygons** (`Polygons`): the point-in-polygon ray test and the signed
  polygon area of `src/bin/p02.rs` and `src/lib/point.rs`.
- **Brute force** (`BruteForce`): the double loop over all pairs.
- **Plane sweep** (`LinesWithOrd`, `Events`, `SweepStatus`, `PlaneSweep`):
  - **The sweep status.** `BTreeSet<LineWithOrd>` is a sequence that
    strictly increases in its key. The key is the segment's y at the x it
    was stored with.
  - **The event queue.** `BinaryHeap<Event>` is a sequence. `pop` takes an
    event of least x.
  - **The sweep state.** The class `SweepState` holds both containers. Its
    methods are the three handlers, which update the state in place.
  - **The driver.** `SweepIntersections` models `main` for one input.

The status looks entries up with the event segment's key at the current x.
Entries are stored under the key of the x at which they were inserted. For
a sloped segment the two keys differ. So `remove` at the segment's right
endpoint misses the segment's own entry, which stays in the status. It
also drops any other entry that happens to be stored under that key. The
sweep keeps this behaviour as written, and `PlaneSweep.EndKeepsSlopedSegment`
states it. `SweepStatus.RemoveLine` is the removal by segment that the
handler evidently intends (see "## Findings").

Several functions are copied across files: `ccw`, `is_in_boundary`,
`Line::new`, `crosses` and `minimize`. Each copy is modelled once. The
table cites the library copy together with the copy in the binary that
the row is about.

## Model

| member | source | states |
|---|---|---|
| Common.CompareReal | src/lib/line_with_ord.rs:34-38 | `partial_cmp` on keys: Less, Equal or Greater exactly when the first key is below, equal to or above the second |
| Points.AddSubInverse | src/lib/point.rs:66-85 | subtracting what was added gives the point back, and adding back what was subtracted does too |
| Points.AddCommutes | src/lib/point.rs:66-75 | point addition does not depend on operand order |
| Points.AddAssign | src/lib/point.rs:59-64 | `+=` leaves the sum in the receiver, and subtracting the operand recovers the old value |
| Orientation.Ccw | src/lib/ccw.rs:90-100 | -1 exactly when the determinant is below -EPSILON, 0 exactly when it lies in [-EPSILON, EPSILON), 1 exactly when it is at least EPSILON |
| Orientation.DetIsCross | src/lib/ccw.rs:91 | the determinant is the cross product of q - p and r - p, i.e. twice the signed triangle area |
| Orientation.CcwCyclic | src/lib/ccw.rs:90-100 | the orientation is unchanged by rotating its three points |
| Orientation.CcwSwapNegates | src/lib/ccw.rs:93-99 | swapping two points negates the orientation exactly when the determinant is not at the band edge +-EPSILON, since the band is half-open |
| Orientation.CcwSwapBandEdgeWitness | src/lib/ccw.rs:93-99 | a concrete triple whose determinant is exactly EPSILON gives 1, while the swapped triple gives 0, not -1 |
| Orientation.CcwDegenerate | src/lib/ccw.rs:90-100 | a triple with a repeated point is collinear (orientation 0) |
| Lines.LineNewAsWritten | src/lib/line.rs:11-23 | `Line::new` as written keeps both endpoints and stores either (p2.x - p2.y, p1.y - p1.x) or its negation |
| Lines.LineNewAsWrittenCases | src/lib/line.rs:12-20 | the raw vector is kept exactly when the offset p1.y*p2.x - p1.x*p2.y is positive, and negated when the offset is zero or negative |
| Lines.NormalAsWrittenNotPerpendicular | src/lib/line.rs:12-13 | for the segment (0,0)-(1,0), the stored vector is not perpendicular to the segment |
| Lines.LineNew | src/lib/line.rs:11-23 | corrected `Line::new`: the normal is perpendicular to the segment and has a non-negative, equal dot product with both endpoints |
| Lines.BoundaryOfEndpoints | src/lib/point.rs:14-21 | both endpoints lie in the segment's bounding box, and the box does not depend on endpoint order |
| Lines.CrossesSymmetric | src/lib/line.rs:25-51 | `crosses` is symmetric in its two segments |
| Lines.CrossesItself | src/lib/line.rs:25-51 | every segment crosses itself |
| Lines.CrossesWithoutCollinearEndpoint | src/lib/line.rs:34-42 | when no endpoint is collinear with the other segment, `crosses` holds exactly when each segment's endpoints lie on opposite sides of the other's line |
| Lines.PointSegmentsCross | src/lib/line.rs:25-51 | two single-point segments cross exactly when the points are equal |
| Lines.PointSegmentCrossesLine | src/lib/line.rs:44-50 | a single-point segment crosses a segment exactly when the point is collinear with it and inside its bounding box |
| Lines.DetOnLine | src/lib/ccw.rs:91 | three points on one parametrised line have determinant 0 |
| Lines.AtInBoundary | src/lib/point.rs:14-21 | on a non-degenerate line, a point lies in the box of a segment of that line exactly when its parameter lies between the segment's parameters |
| Lines.CollinearCrossesIffOverlap | src/lib/line.rs:25-51 | two segments of one line cross exactly when their parameter intervals overlap |
| NaiveCrossing.NaiveCrossesSymmetric | src/bin/01.rs:46-59 | the naive test is symmetric in its two segments |
| NaiveCrossing.NaiveAgreesWithoutCollinearEndpoint | src/bin/01.rs:46-59 | with no collinear endpoint, the naive test and `Line::crosses` agree |
| NaiveCrossing.NaiveRejectsCollinear | src/bin/01.rs:52-57 | when both endpoints of one segment are collinear with the other, the naive test says "no crossing" |
| NaiveCrossing.NaiveMissesCollinearOverlap | src/bin/01.rs:52-57 | any two overlapping segments of one line are rejected by the naive test but accepted by `Line::crosses` |
| NaiveCrossing.NaiveMissesOverlapExample | src/bin/01.rs:52-57 | concrete instance: (0,0)-(0,1) and (0,0.5)-(0,1.5) overlap; the naive test rejects them while `Line::crosses` accepts them |
| CcwCases.FromInt | src/lib/ccw.rs:16-26 | `From<i32>` gives Left exactly for negative values, Middle exactly for 0, Right exactly for positive values |
| CcwCases.FromIntOfRank | src/lib/ccw.rs:7-26 | converting an enum value's discriminant back gives the same value |
| CcwCases.FromIntAgreesWithCcw | src/lib/ccw.rs:16-26 | the enum of a `ccw` result has that result as its discriminant |
| CcwCases.Minimize | src/lib/ccw.rs:36-87 | the result is canonical (each pair ordered and mirrored left, pairs in lexicographic order), and the same case as the input up to reversing a segment, mirroring and swapping segments |
| CcwCases.MinimizeIsLeast | src/lib/ccw.rs:36-87 | the result is lexicographically least among all combinations of the input's case |
| CcwCases.MinimizeFixesCanonical | src/lib/ccw.rs:36-87 | a canonical combination is its own representative |
| CcwCases.MinimizeIdempotent | src/lib/ccw.rs:36-87 | minimising twice equals minimising once |
| CcwCases.PairEquivSymmetric | src/lib/ccw.rs:42-69 | the per-segment equivalence behind `minimize` is symmetric |
| CcwCases.PairEquivTransitive | src/lib/ccw.rs:42-69 | the per-segment equivalence behind `minimize` is transitive |
| CcwCases.SameClassSymmetric | src/lib/ccw.rs:36-87 | "same case" is symmetric |
| CcwCases.SameClassTransitive | src/lib/ccw.rs:36-87 | "same case" is transitive |
| CcwCases.LexLeAntisymmetric | src/lib/ccw.rs:71-86 | the lexicographic order that `minimize` uses is antisymmetric |
| CcwCases.MinimizeClassifies | src/lib/ccw.rs:36-87 | two combinations have the same representative exactly when they are the same case |
| CcwCases.MinimizeSwapPairs | src/lib/ccw.rs:71-78 | swapping the two segments does not change the representative |
| CcwCases.MinimizeReversePair | src/lib/ccw.rs:42-51 | reversing either segment does not change the representative |
| UniqueCases.EnumeratedAt | src/bin/p01_unique_cases.rs:86-99 | the nested loops produce VALUES[i], VALUES[j], VALUES[k], VALUES[l] at position 27i+9j+3k+l |
| UniqueCases.EnumerationCovers | src/bin/p01_unique_cases.rs:86-99 | every combination occurs among the 81 enumerated ones |
| UniqueCases.CanonicalIsRepresentative | src/lib/ccw.rs:36-87 | the canonical combinations are exactly the ten listed representatives |
| UniqueCases.RepresentativeCount | src/bin/p01_unique_cases.rs:84-110 | there are ten representatives |
| UniqueCases.CollectedRepresentatives | src/bin/p01_unique_cases.rs:100-105 | a duplicate-free list of canonical combinations that holds every representative holds exactly the canonical ones, ten in all |
| UniqueCases.AllCases | src/bin/p01_unique_cases.rs:85-99 | the nested loops build all 81 combinations, in enumeration order (also src/bin/01_unique_cases.rs:74-88) |
| UniqueCases.UniqueCases | src/bin/p01_unique_cases.rs:84-110 | the collected result has no duplicates, holds every combination's representative and only canonical combinations, and has ten elements (also src/bin/01_unique_cases.rs:73-99) |
| Lattice.ImpossibleCharacterised | src/bin/p01.rs:212-223 | the representative is one of the two impossible cases exactly when one segment's pair is (Middle, Middle) and the other pair holds two different orientations |
| Lattice.CollinearTransfer | src/bin/p01.rs:207-268 | if r and s lie on the line through p and q (with p and q distinct), then p and q lie on the line through r and s |
| Lattice.LatticeDetIsInteger | src/bin/p01.rs:225-236 | the determinant of three lattice points is an integer |
| Lattice.LatticeCcwIsExact | src/bin/p01.rs:238-249 | on lattice points `ccw` is 0 exactly when the determinant is 0, so the tolerance band has no effect there |
| Lattice.CollinearPairForcesConstantPair | src/bin/p01.rs:207-268 | on the lattice, when both endpoints of one segment are collinear with the other, the other's endpoints get the same orientation against the first |
| Lattice.LatticeExcludesImpossible | src/bin/p01.rs:207-268 | for any two segments with integer coordinates, the representative is neither impossible case |
| Lattice.MiddleRightRepresentative | src/bin/p01.rs:212-217 | the combination (Middle, Right, Middle, Middle) has representative `impossible1` |
| Lattice.AxisStartOrientation | src/lib/ccw.rs:90-100 | (0,0) is collinear with the axis segment (-1,0)-(1,0) |
| Lattice.AxisEndOrientation | src/lib/ccw.rs:90-100 | (1, 0.75e-12) is left of the axis segment, since its determinant 1.5e-12 is at least EPSILON |
| Lattice.RayOrientations | src/lib/ccw.rs:90-100 | both axis endpoints are inside the band against the short ray (0,0)-(1, 0.75e-12) |
| Lattice.OffLatticeOrientations | src/bin/p01.rs:233-257 | off the lattice, the test's combination for these two segments is (Middle, Right, Middle, Middle) |
| Lattice.ImpossibleOffLattice | src/bin/p01.rs:258 | off the lattice, the assertion against `impossible1` would fail: the tolerance band makes that case reachable |
| Polygons.FirstSide | src/lib/point.rs:25-28 | the scan stops at the first vertex from index i on that is off the line through (-1,-1) and p |
| Polygons.CountFrom | src/lib/point.rs:31-42 | the edges counted from vertex j on are at most the vertices left |
| Polygons.Crossings | src/lib/point.rs:29-42 | fewer edges are counted than the polygon has vertices |
| Polygons.IsInPolygon | src/lib/point.rs:23-44 | the result is "inside" exactly when the number of counted side-changing edges is odd (also src/bin/p02.rs:22-41) |
| Polygons.NoSideChangeNoCrossing | src/lib/point.rs:31-42 | if no vertex from j on lies on the other side, no edge is counted |
| Polygons.OneSidedPolygonExcludes | src/lib/point.rs:23-44 | a polygon whose vertices all lie on one side of the ray's line, or on it, counts no crossing, so p is outside |
| Polygons.EdgeCountedAndCrosses | src/lib/point.rs:33-40 | for an edge whose ends lie on opposite sides of the ray's line: the edge is counted if `crosses` reports the ray segment crossing it; and when it is counted and neither (-1,-1) nor p lies on the edge's line, `crosses` reports the crossing |
| Polygons.AreaTriangle | src/bin/p02.rs:144-149 | the triangle area is half the orientation determinant, i.e. the signed area |
| Polygons.AreaTriangleDegenerateAndSwap | src/bin/p02.rs:144-149 | a triangle with a repeated vertex has area 0, and swapping two vertices negates the area |
| Polygons.AreaFromOrigin | src/bin/p02.rs:137-139 | a triangle with apex at the origin has area half the cross product of the other two vertices |
| Polygons.CalculateAreaPolygon | src/bin/p02.rs:135-142 | the loop returns the fan sum of the triangles from the origin over consecutive vertices |
| Polygons.FanAreaFront | src/bin/p02.rs:135-142 | the fan sum splits into its first triangle and the fan of the rest |
| Polygons.FanAreaApex | src/bin/p02.rs:137-139 | moving the apex from the origin to q changes the fan sum only by a term in the first and last vertices |
| Polygons.ClosedPolygonAreaIndependentOfApex | src/bin/p02.rs:135-142 | for a closed vertex list (last equals first), the area does not depend on the apex |
| Polygons.ClosedTriangleArea | src/bin/p02.rs:135-149 | the area of the closed list p, q, r, p is the area of triangle p q r |
| Polygons.FanAreaReverse | src/bin/p02.rs:135-142 | reversing the orientation of the polygon negates its area |
| BruteForce.VisitStep | src/bin/p01.rs:128-134 | one inner step adds the pair (i, j) exactly when the two segments cross, and that pair was not yet visited |
| BruteForce.VisitStepCount | src/bin/p01.rs:131-134 | one inner step raises the count by one exactly when the two segments cross |
| BruteForce.VisitRow | src/bin/p01.rs:127-128 | finishing row i is starting row i + 1 |
| BruteForce.VisitAll | src/bin/p01.rs:127-134 | after the last row, the visited crossing pairs are all crossing pairs i < j, and before the first, none |
| BruteForce.NumberOfCrosses | src/bin/p01.rs:124-134 | the count equals the number of index pairs i < j whose segments cross |
| LinesWithOrd.YAtOnLine | src/lib/line_with_ord.rs:16-23 | for a vertical segment the key is p1.y; otherwise (sweep x, key) lies on the segment's line and equals the endpoint y at either endpoint x |
| LinesWithOrd.OnSegmentLine | src/lib/line_with_ord.rs:22 | the interpolated point is collinear with the endpoints and meets p2 at p2.x |
| LinesWithOrd.Cmp | src/lib/line_with_ord.rs:28-44 | entries are ordered by their key alone: Less, Equal or Greater exactly as the keys compare |
| LinesWithOrd.CmpTotalPreorder | src/lib/line_with_ord.rs:28-44 | the order is reflexive, antisymmetric in the Flip sense and transitive, and equality is transitive |
| LinesWithOrd.EqIgnoresLine | src/lib/line_with_ord.rs:26-32 | for example, the different segments (0,0)-(1,1) and (0,0)-(1,-1), both at sweep position 0, compare equal |
| Events.EventCmp | src/lib/event.rs:24-33 | events are ordered by reversed x: Greater exactly when the first has smaller x, so the max-heap pops the least x |
| Events.EventCmpIgnoresPayload | src/lib/event.rs:24-33 | the segment and the event type take no part in comparison or equality |
| Events.PopIndex | src/lib/event.rs:24-33 | the popped position holds an event of least x, and every earlier event has a larger x |
| Events.IntersectionsIn | src/bin/p03.rs:185-186 | at most one per event, and all events are counted exactly when all are Intersection events |
| SweepStatus.RangeFrom | src/bin/p03.rs:24 | `range(k..)` holds exactly the entries with key at least k |
| SweepStatus.RangeTo | src/bin/p03.rs:25 | `range(..k)` holds exactly the entries with key below k |
| SweepStatus.LowerBound | src/bin/p03.rs:24-25 | the first position whose key is at least k: all keys before it are below k, and in a sorted status all from it on are at least k |
| SweepStatus.RangeToIsPrefix | src/bin/p03.rs:25 | in a sorted status, `range(..k)` is the prefix up to the lower bound |
| SweepStatus.RangeFromIsSuffix | src/bin/p03.rs:24 | in a sorted status, `range(k..)` is the suffix from the lower bound |
| SweepStatus.RangeToEmpty | src/bin/p03.rs:25 | with every key at least k, `range(..k)` is empty |
| SweepStatus.RangeFromAll | src/bin/p03.rs:24 | with every key at least k, `range(k..)` is the whole status |
| SweepStatus.Above | src/bin/p03.rs:24 | the entry found "above" is in the status and has a key strictly greater than k |
| SweepStatus.AboveIsSecondOfRange | src/bin/p03.rs:24 | "above" is exactly `range(k..).nth(1)`: the second entry with key at least k, if there is one |
| SweepStatus.Below | src/bin/p03.rs:25 | the entry found "below" is in the status and has a key strictly smaller than k |
| SweepStatus.BelowIsLastOfRange | src/bin/p03.rs:25 | "below" is exactly `range(..k).next_back()`: the greatest key below k, and none exactly when no key is below k |
| SweepStatus.Insert | src/bin/p03.rs:22 | `insert` keeps the status sorted, leaves it unchanged if the key is present, otherwise adds exactly the new entry, and the key is present afterwards |
| SweepStatus.InsertAt | src/bin/p03.rs:22 | inserting at the lower bound of an absent key keeps the status sorted and adds exactly the new entry |
| SweepStatus.InsertAtContents | src/bin/p03.rs:22 | splicing an entry in adds exactly that entry and its key |
| SweepStatus.InsertAtKeys | src/bin/p03.rs:22 | keys before the lower bound are smaller and keys from it on are greater than an absent key |
| SweepStatus.InsertAtSorted | src/bin/p03.rs:22 | an entry placed between smaller and greater keys keeps the status sorted |
| SweepStatus.InsertKeepsKeys | src/bin/p03.rs:111-112 | a key present before an insert is still present after it |
| SweepStatus.Remove | src/bin/p03.rs:66 | `remove` keeps the status sorted, changes nothing if the key is absent, otherwise drops exactly the entry with that key |
| SweepStatus.RemoveLine | src/bin/p03.rs:66 | corrected right-endpoint removal: the status stays sorted and keeps exactly the entries that do not hold the segment |
| SweepStatus.DeleteAt | src/bin/p03.rs:66 | deleting a position keeps the status sorted and drops exactly that entry, the only one with its key |
| SweepStatus.DeleteAtContents | src/bin/p03.rs:66 | deleting a position drops exactly one copy of its entry, and no other position has the same key |
| SweepStatus.DeleteAtPositions | src/bin/p03.rs:66 | entries before the position stay in place, entries after move down by one, and the status stays sorted |
| SweepStatus.DeleteAtMembers | src/bin/p03.rs:66 | after deleting a position, the entries are exactly those whose key differs from the deleted key |
| PlaneSweep.CrossingEvent | src/bin/p03.rs:28-36 | an event is pushed exactly when the segments cross and their crossing point lies right of the sweep; it sits at that point's x and carries the given segment and line pair |
| PlaneSweep.LeftEndpointEvents | src/bin/p03.rs:24-51 | at most two events, each an Intersection of the new segment, right of the sweep, with a neighbour above or below that it crosses; and for each neighbour that it crosses with the crossing point right of the sweep, exactly that event is pushed |
| PlaneSweep.RightEndpointEvents | src/bin/p03.rs:63-84 | an event is pushed exactly when entries were found above and below, they cross, and their crossing point lies right of the sweep; it is then the single event at that point, carried by the entry above |
| PlaneSweep.IntersectionStatus | src/bin/p03.rs:96-112 | the status stays sorted, and with no entry above only the event segment's entry is removed |
| PlaneSweep.IntersectionStatusStoresPair | src/bin/p03.rs:104-112 | with an entry above, entries under both segments' keys just past the current x are present; an entry already under such a key stays there instead of the segment |
| PlaneSweep.IntersectionEvents | src/bin/p03.rs:114-140 | at most two Intersection events right of the sweep, each justified by a crossing neighbour; and if the new neighbour above the upper segment, or below the lower one, crosses it ahead of the sweep, that event is pushed |
| PlaneSweep.HandledStatus | src/bin/p03.rs:182-189 | the status after handling an event stays sorted; after a Start the segment's key at the current x is present, after an End it is absent |
| PlaneSweep.HandledEvents | src/bin/p03.rs:182-189 | every event a handler pushes is an Intersection event right of the current x |
| PlaneSweep.Kept | src/bin/p03.rs:165-169 | skipping segments never adds any |
| PlaneSweep.KeptMembers | src/bin/p03.rs:165-169 | the kept segments are exactly the input segments that are not vertical |
| PlaneSweep.SeedEventsPairs | src/bin/p03.rs:170-176 | two events per kept segment, in input order: Start at its smaller x, End at its larger x |
| PlaneSweep.EndKeepsSlopedSegment | src/bin/p03.rs:61-66 | a sloped segment stored at its left endpoint survives the `remove` at its right endpoint, because the lookup key differs from the stored one |
| PlaneSweep.RemoveLineAgreesWhenKeyCurrent | src/bin/p03.rs:61-66 | while the segment is stored under its key at the current x and held by no other entry, removal by key and removal by segment leave the same entries |
| PlaneSweep.QueueGrowsAhead | src/bin/p03.rs:180-190 | a queue that was only appended to, with events beyond x0, keeps every old event, and its new events lie beyond x0 |
| PlaneSweep.SeedStep | src/bin/p03.rs:165-177 | one more input segment is skipped exactly when its x-extent is below EPSILON; otherwise it adds its Start and End |
| PlaneSweep.AppendTwice | src/bin/p03.rs:27-51 | two successive optional pushes append the two parts in order |
| PlaneSweep.SweepState.Pop | src/bin/p03.rs:180 | `pop` removes exactly one event of least x, the one at the pop position, and leaves the status alone |
| PlaneSweep.SweepState.PushCrossing | src/bin/p03.rs:28-36 | the queue gains exactly the crossing event of the pair, if any |
| PlaneSweep.SweepState.TreatLeftEndpoint | src/bin/p03.rs:13-52 | the segment is inserted under its key at the current x, and the queue gains exactly the events for its new neighbours above and below |
| PlaneSweep.SweepState.TreatRightEndpoint | src/bin/p03.rs:54-85 | the entry under the segment's key at the current x is removed, and the queue gains the event for the former neighbours above and below, if they cross ahead |
| PlaneSweep.SweepState.TreatIntersection | src/bin/p03.rs:87-142 | the status becomes the remove-and-reinsert result; with no entry above the queue is unchanged, otherwise it gains the events for the reinserted pair's new neighbours |
| PlaneSweep.SweepState.ReinsertPair | src/bin/p03.rs:111-140 | the upper segment and then the lower are inserted, and their neighbour events are appended |
| PlaneSweep.SweepState.HandleEvent | src/bin/p03.rs:182-189 | the status becomes the handled status of the event's type and the queue gains exactly the handled events; so only Intersection events right of the current x are appended, and the status stays sorted |
| PlaneSweep.SweepState.Step | src/bin/p03.rs:180-189 | the event at the pop position is taken out and handled at its own x: the new status and queue are exactly that effect; no remaining event lies left of it, and no other event is lost |
| PlaneSweep.SweepState.Seed | src/bin/p03.rs:164-177 | seeding appends exactly the Start/End pairs of the kept segments and returns their number |
| PlaneSweep.PoppedStep | src/bin/p03.rs:180-190 | popping the least event keeps the popped sequence ordered by x, keeps every seeded event popped or queued, and counts one more exactly for an Intersection |
| PlaneSweep.SweepIntersections | src/bin/p03.rs:144-197 | the segment count is the number of non-vertical segments; the popped events are exactly those `Run` pops from the empty status and the seeded queue, so the intersection count is the number of Intersection events in that run; they come in order of x, there are `fuel` of them unless the queue ran empty, and when it ran empty every seeded event has been popped |
| PlaneSweep.Round | src/bin/p03.rs:180-189 | one round of the loop: the new status and queue are exactly the effect of handling the event at the pop position at its own x; that event is the first one `Run` pops, and the popped events followed by what `Run` still pops stay the whole run; the popped events stay in order of x, none lies right of what is still queued, no seeded event is lost, and the count grows exactly on an Intersection event |
| PlaneSweep.Run | src/bin/p03.rs:180-190 | the events the loop pops, in order: at most `fuel` of them, none exactly when the fuel is spent or the queue is empty, and the first is the event at the pop position |
| PlaneSweep.RunStep | src/bin/p03.rs:180-189 | a round with the effect of one iteration of the loop is the first step of `Run`: what `Run` pops before it is that event followed by what `Run` pops after it, and the status stays sorted |
| PlaneSweep.RunRound | src/bin/p03.rs:180-189 | after one more round, the events popped so far followed by what `Run` still pops are still the whole run |
| PlaneSweep.Drain | src/bin/p03.rs:180-190 | the loop: the popped events are exactly those `Run` pops from the queue it starts with, the count is the number of Intersection events among them, they come in order of x, there are `fuel` of them unless the queue ran empty, and when it ran empty every seeded event has been popped |
| Orientation.CcwOfDet | src/lib/ccw.rs:90-100 | the orientation read off a known determinant value: 1 at or beyond EPSILON, 0 inside the band, -1 below -EPSILON |
| CrossingCases.OneSideNoCross | src/lib/line.rs:34-37 | both endpoints of one segment strictly on the same side of the other's line: no crossing |
| CrossingCases.CollinearEndpointCrosses | src/lib/line.rs:44-50 | an endpoint collinear with the other segment and inside its box gives a crossing, unless the other segment lies strictly on one side |
| CrossingCases.OriginLeftOfUnitLine | src/lib/ccw.rs:90-100 | (0,0) is left of the upward segment (1,0)-(1,1) |
| CrossingCases.UpLeftOfUnitLine | src/lib/ccw.rs:90-100 | (0,1) is left of the upward segment (1,0)-(1,1) |
| CrossingCases.OriginOnXAxis | src/lib/ccw.rs:90-100 | (0,0) is collinear with (-1,0)-(1,0) |
| CrossingCases.LeftOfYAxis | src/lib/ccw.rs:90-100 | (-1,0) is left of (0,0)-(0,1) |
| CrossingCases.RightOfYAxis | src/lib/ccw.rs:90-100 | (1,0) is right of (0,0)-(0,1) |
| CrossingCases.OriginLeftOfRisingLine | src/lib/ccw.rs:90-100 | (0,0) is left of (0,-1)-(1,1) |
| CrossingCases.UpLeftOfRisingLine | src/lib/ccw.rs:90-100 | (0,1) is left of (0,-1)-(1,1) |
| CrossingCases.OriginAboveLowLine | src/lib/ccw.rs:90-100 | (0,0) is left of (above) (-1,-1)-(1,-1) |
| CrossingCases.UpAboveLowLine | src/lib/ccw.rs:90-100 | (0,1) is left of (above) (-1,-1)-(1,-1) |
| CrossingCases.UpRightRightOfYAxis | src/lib/ccw.rs:90-100 | (1,1) is right of (0,0)-(0,1) |
| CrossingCases.OriginRightOfSlantLine | src/lib/ccw.rs:90-100 | (0,0) is right of (-1,0)-(1,1) |
| CrossingCases.UpLeftOfSlantLine | src/lib/ccw.rs:90-100 | (0,1) is left of (-1,0)-(1,1) |
| CrossingCases.ParallelDisjoint | src/bin/p01.rs:159-165 | (0,0)-(0,1) and (1,0)-(1,1) do not cross, in either order |
| CrossingCases.BesideRisingSegment | src/bin/p01.rs:167-173 | (0,0)-(0,1) and (0,-1)-(1,1) do not cross, in either order |
| CrossingCases.AboveLowSegment | src/bin/p01.rs:175-181 | (0,0)-(0,1) and (-1,-1)-(1,-1) do not cross, in either order |
| CrossingCases.PointBesideSegment | src/bin/p01.rs:183-189 | (0,0)-(0,1) and the single point (1,1) do not cross, in either order |
| CrossingCases.SharedEndpoint | src/bin/p01.rs:191-197 | (0,0)-(0,1) and (0,0)-(1,1) cross, in either order |
| CrossingCases.PerpendicularTouching | src/bin/p01.rs:199-205 | (0,0)-(0,1) and (-1,0)-(1,0) cross, in either order |
| CrossingCases.ProperCrossing | src/bin/p01.rs:270-276 | (0,0)-(0,1) and (-1,0)-(1,1) cross, in either order |
| CrossingCases.CollinearCases | src/bin/p01.rs:349-356 | on the y-axis, (0,0)-(0,1) crosses (0,1)-(0,1.5), which touches it, and does not cross (0,1.5)-(0,2), in either order |

## Left out

- Floating point: coordinates are exact reals. NaN, infinities and rounding are not modelled. `NotNan::new(x).unwrap()` in `Event::new` cannot fail here.
- `src/lib/common.rs` is not part of this model. `EPSILON` is taken as `1e-12`, the value that `src/bin/p01.rs:7` and the other binaries declare.
- `crossing_point` is not part of this model. Its definition is not available, so the sweep takes it as a parameter of type `CrossingPoint`.
- `Point::normalize` (src/lib/point.rs:46-56) is left out, because it needs a square root.
- Reading segment files (`string_to_line`, `read_file_rows`, `src/lib/data.rs`), the SVG output, timing and printing are left out. The driver takes the segments as a parameter.
- `src/bin/p04.rs` and `src/bin/p05.rs` are outside the modelled core.
- PlaneSweep.SweepIntersections: the pop loop takes a `fuel` bound. The model does not show that the source's loop ends. `finished` says whether the queue ran empty within the bound.
- PlaneSweep.Run: the same `fuel` bound; a run that needs more rounds is cut off after `fuel` events.
- PlaneSweep.Drain: the same `fuel` bound as SweepIntersections, for the loop on its own.
- Events.PopIndex: among events of equal x, `BinaryHeap::pop` picks one in an unspecified order. The model takes the earliest pushed. SweepState.Pop, SweepState.Step (through StepEffect), Run, Round, Drain and SweepIntersections state this earliest-pushed choice. PoppedStep relies only on "an event of least x".
- `Event::new` and `LineWithOrd::new` are the datatype constructors `Event(...)` and `LineWithOrd(...)`.
- `BinaryHeap` and `BTreeSet` are sequences. The model does not capture their memory layout or their cost.
- The copied definitions are modelled once each: `ccw` in `src/bin/01.rs`, `p01.rs` and `p02.rs`; `Line::new` in `src/bin/01.rs`, `p01.rs` and `p02.rs`; `is_in_boundary` and `crosses` in `p01.rs` and `p02.rs`; `is_in_polygon` in `p02.rs`; `minimize` and `main` in `01_unique_cases.rs`.
- The single-point and collinear rows of case10 in `src/bin/p01.rs:278-362` are not stated one by one, except those of CrossingCases.CollinearCases. Lines.PointSegmentsCross, Lines.PointSegmentCrossesLine and Lines.CollinearCrossesIffOverlap state them in general form.
- BruteForce.NumberOfCrosses: the counter `number_of_crosses` (src/bin/p01.rs:124, 133) is an i32 in the source and a `nat` here, so overflow past 2^31 - 1 is not modelled.
- PlaneSweep.SweepIntersections: the i32 counters `intersection_count` and `number_of_segments` (src/bin/p03.rs:152, 164, 169, 186) are `nat` here, so overflow is not modelled.
- BruteForce.NumberOfCrosses: requires at least one segment. With none, `lines.len() - 1` (src/bin/p01.rs:127) underflows, which panics in a debug build (a release build wraps and only runs empty inner loops); the model does not cover that panic.
- Polygons.CalculateAreaPolygon: requires at least one point. With none, `points.len() - 1` (src/bin/p02.rs:138) underflows, which panics in a debug build (a release build wraps and only runs empty inner loops); the model does not cover that panic.
- Polygons.IsInPolygon: requires a vertex from index 1 on that is off the line through (-1,-1) and p. Without one, the `while` loop (src/lib/point.rs:26-28) indexes past the end and the source panics; the model does not cover that panic.
- Lattice.LatticeExcludesImpossible covers every integer coordinate, not only the grid `0..7` (`0..8` for one coordinate) that the test walks.

## Findings

| source | as written | input that shows it | evidently intended | confidence | as-written member | corrected member |
|---|---|---|---|---|---|---|
| src/lib/line.rs:12-13 (also src/bin/01.rs:33-34, src/bin/p01.rs:45-46, src/bin/p02.rs:66-67) | the normal is built as (p2.x - p2.y, p1.y - p1.x), which mixes coordinates of different endpoints | p1 = (0,0), p2 = (1,0): the offset is 0, so the stored vector is (-1,0), parallel to the segment | a normal perpendicular to the segment, e.g. (p1.y - p2.y, p2.x - p1.x), signed by the offset | not executed | Lines.NormalAsWrittenNotPerpendicular | Lines.LineNew |
| src/bin/p03.rs:61-66 | `treat_right_endpoint` removes by the segment's key at the current x, while the entry was stored under its key at its left endpoint (or at an intersection) | the segment (0,0)-(2,2): stored under key 0 at x = 0, looked up under key 2 at x = 2, so its entry stays in the status, and an entry of another segment stored under key 2 would be removed instead | remove the entry that holds the segment, whatever key it was stored under | not executed | PlaneSweep.EndKeepsSlopedSegment | SweepStatus.RemoveLine |
| src/bin/01.rs:52-57 | `crosses` answers "a != b && c != d", so it answers false whenever both endpoints of one segment get the same orientation against the other's line, in particular when both are collinear with it | (0,0)-(0,1) and (0,0.5)-(0,1.5): overlapping collinear segments are reported as not crossing | the three-stage test of src/lib/line.rs:25-51, under which overlapping collinear segments cross | not executed | NaiveCrossing.NaiveMissesOverlapExample | Lines.CollinearCrossesIffOverlap |
