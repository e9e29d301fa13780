# Orthogonal connector routing, modelled in Dafny

A connector in a diagram joins an anchor point on one rectangle to an anchor
point on another. Each anchor leaves its rectangle through a side: its exit
direction. The routing engine returns an orthogonal polyline between the two
anchors that stays clear of both rectangles where it can.

The repository holds three generations of that engine, and this project models
all three, plus a standalone segment-intersection helper:

- `sil/index4.ts` is the main engine. It picks one of three opening strategies:
  - the forced single-inflection link, when an anchor lies inside the other rectangle;
  - the route through the gap centre, when the exit directions are opposite;
  - the single-inflection link (SIL, an L-shaped route with one bend) otherwise.

  A route the opening strategy cannot find is looked for by the moving-point
  strategy. The result is simplified. A segment counts as hitting a rectangle
  when an end point lies strictly inside it or the segment crosses one of the
  rectangle's two centre cross lines. When the gap centre lies inside a
  rectangle, each anchor "moves twice" round a corner of its own rectangle
  before a link is drawn.
- `index4.ts` is the earlier version of the same engine. A segment hits a
  rectangle when it crosses one of the rectangle's boundary edges. A valid SIL is
  taken in list order. Nothing is simplified. The trapped-centre branch calls an
  unfinished `movingTwice` and throws.
- `index3.ts` is a skeleton router. A fixed decision tree reads off how the two
  rectangles are placed and which sides the anchors leave from. It writes a
  skeleton: known points interleaved with two corner markers. `processPath`
  turns the skeleton into a route by replacing each marker with the corner that
  joins its neighbours.
- `line-intersection.ts` finds the crossing point of two segments with the
  determinant formula.

Modules, one per concept:

| module | file | what it holds |
|---|---|---|
| `Outcomes` | outcomes.dfy | `Option` (the source's `null`) and `Result` (a thrown exception) |
| `Geometry` | geometry.dfy | points, rectangles, corners, cross lines, the strict-overlap tests, directions, JavaScript's `~~` and `>> 1` |
| `Sorting` | sorting.dfy | the numeric sort that the gap centre uses, with a four-input sorting network shown equal to it |
| `Cost` | cost.dfy | Manhattan cost and `minPaths`, which keeps the first cheapest candidate |
| `Simplify` | simplify.dfy | `isSamePoint` and `simplifyPath` |
| `Candidates` | candidates.dfy | SILs, the gap centre, the centre routes, moving points, the validity filter and the moving-point strategy |
| `Router` | router.dfy | `getShortestPathInDiagram` of `sil/index4.ts`, with `movingTwice` and the trapped-centre branch |
| `EarlyRouter` | early_router.dfy | `getShortestPathInDiagram` of `index4.ts` |
| `Skeleton` | skeleton.dfy | `processPath`, the layout, the direction groups and the decision tree of `index3.ts` |
| `LineIntersection` | line_intersection.dfy | `findIntersection`, `isPointBetween` and `findSegmentIntersection` |
| `Scenarios`, `SkeletonScenarios` | scenarios.dfy, skeleton_scenarios.dfy | the repository's test expectations and the inputs behind the findings, proved as concrete lemmas |

Coordinates are `real`, so the arithmetic is exact. The two segment-hit rules
are one parameter: `IntersectionRule` is `CrossLines` or `BoundaryEdges`.

Two facts about the code shape the model:
- `sil/index4.ts:51-52` has no forced-SIL fallback after the moving-point
  strategy. A null route reaches `simplifyPath`, whose `path.forEach`
  (`sil/index4.ts:316`) throws, so the model returns a `Failure` there.
- The main engine tests the centre cross lines (`sil/index4.ts:377-383`).
  The boundary-edge rule belongs to the earlier engine (`index4.ts:297-306`).

## Model

| member | source | states |
|---|---|---|
| Geometry.Trunc | sil/index4.ts:331-335 | `~~x` is the integer part, truncated toward zero on both sides of zero |
| Geometry.HalfOfNatural | sil/index4.ts:348 | for a whole number n, `n - (n >> 1)` is the rounded-up half (n + 1) / 2 |
| Geometry.HalfBounds | sil/index4.ts:348 | the "half" lies between w / 2 and w, and strictly below w once w is at least 2 |
| Geometry.IsNumberBetween | sil/index4.ts:407-409 | `(x - a)(x - b) < 0` holds exactly when x is strictly between min(a, b) and max(a, b) |
| Geometry.IsRegularSegmentIntersected | sil/index4.ts:400-402 | the four-way test is exactly strict overlap of the two intervals, and it is symmetric in the two intervals |
| Geometry.LineIntersectionSymmetric | sil/index4.ts:393-397 | whether two axis-aligned segments meet does not depend on their order or on a segment's orientation |
| Geometry.GetRectPoints | sil/index4.ts:337-344 | four corners from the top-left, joined by horizontal and vertical sides, none strictly inside the rectangle |
| Geometry.CornersClockwise | sil/index4.ts:337-344 | each consecutive corner triple turns the same way, by width times height: the corners go clockwise |
| Geometry.GetRectCrossLines | sil/index4.ts:350-362 | one vertical and one horizontal line spanning the rectangle, strictly inside it once a side is at least 2 |
| Geometry.GetDirectionByTwoPoints | sil/index4.ts:302-312 | moving from p1 in the returned direction by the distance reaches p2; a vertical pair gives Top or Bottom, a horizontal one Left or Right; a point paired with itself gives Bottom |
| Geometry.IsPointInRect | sil/index4.ts:385-390 | a point strictly inside a rectangle is off all four edge lines, and only a rectangle of positive width and height has one |
| Geometry.IsInverseDirection | sil/index4.ts:56-61 | true exactly when each direction is the other's opposite |
| Sorting.Sort | sil/index4.ts:280 | the numeric sort returns a sorted permutation of its input |
| Sorting.SortedUnique | sil/index4.ts:280 | two sorted sequences with the same elements are equal, so the sort's result is determined |
| Sorting.SortPermutationInvariant | sil/index4.ts:280 | sorting a permutation gives the same sequence |
| Sorting.SortFour | sil/index4.ts:280 | on four values, the five-comparator network equals the sort |
| Sorting.NetworkSorted | sil/index4.ts:280 | the network's output is sorted |
| Sorting.NetworkPermutes | sil/index4.ts:280 | the network's output is a permutation of its four inputs |
| Cost.PathCost | sil/index4.ts:288-293 | a route's cost is at least the Manhattan distance between its ends |
| Cost.MinPaths | sil/index4.ts:284-300 | none exactly for an empty list; otherwise a member no costlier than any candidate, the first of the cheapest |
| Cost.MinPathsOfPair | sil/index4.ts:294-297 | of two candidates the second wins only when it is strictly cheaper |
| Simplify.SamePointIsEquivalence | sil/index4.ts:331-335 | comparing truncated coordinates is reflexive, symmetric and transitive |
| Simplify.SameIntegralPoints | sil/index4.ts:331-335 | on whole-number points, "same" is equality |
| Simplify.Step | sil/index4.ts:316-327 | one step skips a repeat of the last kept point, pops when it returns to the one before, or appends |
| Simplify.SimplifyPath | sil/index4.ts:314-329 | never longer than the input; the first point is kept and the last is the same point; no near duplicates; only input points |
| Simplify.SimplifyIsSubsequence | sil/index4.ts:314-329 | the simplified route is a subsequence of the input: its points appear there in the same order |
| Simplify.SimplifyKeepsCleanPath | sil/index4.ts:314-329 | a route with no repeated or doubled-back points is returned unchanged |
| Simplify.SimplifyIdempotent | sil/index4.ts:314-329 | simplifying twice is simplifying once |
| Simplify.SimplifyKeepsOrthogonal | sil/index4.ts:314-329 | on whole-number points, simplifying keeps a route orthogonal and keeps its last point |
| Candidates.GetSingleInflectionLinkOfTwoPoints | sil/index4.ts:253-258 | two one-bend links, horizontal-first then vertical-first |
| Candidates.GetCenterPointOfSegment | sil/index4.ts:279-282 | the centre lies within the span of the four values |
| Candidates.CenterIsMidpointOfSortedMiddle | sil/index4.ts:279-282 | the centre is the midpoint of the second and third smallest values |
| Candidates.CenterPointPermutationInvariant | sil/index4.ts:279-282 | the centre does not depend on the order of the four values |
| Candidates.GapCenterSymmetric | sil/index4.ts:261-277 | the gap centre does not depend on which rectangle is named first |
| Candidates.CenterOfSeparatedIntervals | sil/index4.ts:279-282 | for two separated intervals the centre is the middle of the gap |
| Candidates.GetGapCenterOfTwoRects | sil/index4.ts:261-277 | the gap centre lies within the bounding box of the two rectangles |
| Candidates.GapCenterOfSeparatedRects | sil/index4.ts:261-277 | for rectangles separated sideways, the gap centre is mid-gap and inside neither |
| Candidates.GetMovingPoints | sil/index4.ts:207-218 | the two corners of the exit side; an anchor on that side lies between them, aligned with both |
| Candidates.IsRegularLineIntersectedWithRect | sil/index4.ts:377-383 | a segment with an end strictly inside the rectangle hits it; one lying wholly beside the rectangle, on one side of an edge line, does not |
| Candidates.IsRegularPathIntersectedWithRect | sil/index4.ts:365-372 | a route hits a rectangle exactly when one of its segments does |
| Candidates.GetValidPathsByRects | sil/index4.ts:245-250 | keeps exactly the candidates that hit neither rectangle |
| Candidates.ValidPathsKeepOrder | sil/index4.ts:245-250 | filtering commutes with concatenation, so the valid candidates keep their order |
| Candidates.FirstValidSilIsHeadOfFilter | sil/index4.ts:189-195 | `singlePath` is the first valid SIL, and empty exactly when neither SIL is valid |
| Candidates.CenterStrategyThroughGap | sil/index4.ts:97-130 | no route when neither centre route is valid; the only valid one; with two, horizontal-first exactly for a sideways exit |
| Candidates.HeadCandidateIsValidSil | sil/index4.ts:187-198 | a moved-source candidate is the anchor followed by a valid SIL from the corner to the target |
| Candidates.TailCandidateIsValidSil | sil/index4.ts:188-200 | a moved-target candidate is a valid SIL from the source to the corner, followed by the target |
| Candidates.ProperCornerCandidates | sil/index4.ts:196-201 | the length filter keeps four-point routes from anchor to anchor, and none exactly when all four combinations failed |
| Candidates.MovingPointCandidates | sil/index4.ts:185-201 | every candidate runs anchor to anchor in four points, and none exactly when no corner has a valid SIL |
| Candidates.MovingPointCandidatesAreSils | sil/index4.ts:185-201 | each candidate is a rectangle corner of the exit side joined to the other anchor by a valid SIL |
| Candidates.MovingPointCandidatesOrthogonal | sil/index4.ts:185-201 | with anchors on their exit sides, every candidate is orthogonal |
| Candidates.MovingPointStrategy | sil/index4.ts:176-204 | null exactly when there are no candidates; otherwise the first of the cheapest candidates, no costlier than any other |
| Candidates.MovingPointStrategyOrthogonal | sil/index4.ts:176-204 | with anchors on their exit sides, the moving-point route is orthogonal |
| Candidates.ForcedSil | sil/index4.ts:162-173 | the cheaper SIL, ignoring the rectangles, is the horizontal-first one |
| Router.DetourPairs | sil/index4.ts:220-235 | two detours, from the exit side's corners, each running the rectangle's depth away from the exit |
| Router.MovingTwice | sil/index4.ts:220-242 | fails exactly when both detours touch the other rectangle; otherwise the anchor and the first clear detour |
| Router.TrappedCandidatesPoints | sil/index4.ts:80-89 | the four trapped-centre candidates, point by point, with the target detour as written or reversed |
| Router.TrappedCandidatesOrthogonal | sil/index4.ts:80-89 | with orthogonal detours, every reversed-tail candidate is orthogonal |
| Router.TrappedStrategy | sil/index4.ts:77-94 | throws exactly when a detour fails; null exactly when no candidate is valid; otherwise the first of the cheapest valid candidates, a five-point route |
| Router.SilStrategy | sil/index4.ts:134-159 | null exactly when neither SIL is valid; the only valid one; with two, horizontal-first exactly when it heads the exit way, and for anchors one above the other exactly when the exit is Bottom |
| Router.CenterStrategy | sil/index4.ts:63-130 | throws exactly when the gap centre is trapped and a detour fails; a route is valid, five points long, and ends at the target when the detour is reversed |
| Router.ChooseStrategy | sil/index4.ts:43-50 | forced exactly when an anchor is inside the other rectangle; otherwise centre exactly for opposite exits |
| Router.FirstRoute | sil/index4.ts:43-50 | the forced SIL when an anchor is inside the other rectangle; throws only on a trapped centre; a route starts at the source and ends at the target unless it came from the trapped-centre branch as written |
| Router.RawRoute | sil/index4.ts:43-51 | the forced SIL when an anchor is inside; fails exactly when the opening fails; when the opening finds nothing, the moving-point route; null only when both find nothing |
| Router.GetShortestPathInDiagramAsWritten | sil/index4.ts:31-53 | fails exactly when the opening fails or no route is found; a route starts at the source and has no near duplicates; it ends at the target's place except after the trapped-centre branch |
| Router.ShortestPathWith | sil/index4.ts:31-53 | the same for either order of the target detour, ending at the target's place whenever the detour is reversed |
| Router.GetShortestPathInDiagram | sil/index4.ts:31-53 | corrected at sil/index4.ts:88 (see Findings): with the target detour reversed, every route starts at the source anchor, ends at the target anchor's place, and has no near duplicates |
| Router.FirstRouteSettles | sil/index4.ts:51-52 | a route found by the opening strategy is the simplified answer |
| Router.TrappedCenterOpens | sil/index4.ts:76-77 | opposite exits with the gap centre inside a rectangle open with the trapped-centre branch |
| Router.RouteOrthogonal | sil/index4.ts:31-53 | with anchors on their exit sides and whole-number points, the answer is orthogonal; it ends exactly at the target unless it came from the trapped-centre branch as written |
| EarlyRouter.SilStrategy | index4.ts:129-146 | the first valid SIL under the boundary-edge rule, horizontal-first before vertical-first, or null |
| EarlyRouter.CenterStrategy | index4.ts:62-126 | throws exactly when the gap centre is inside a rectangle; otherwise a valid centre route from anchor to anchor |
| EarlyRouter.FirstRoute | index4.ts:43-49 | the forced SIL when an anchor is inside; throws exactly on a trapped centre; any other route is valid under the boundary-edge rule and runs anchor to anchor |
| EarlyRouter.GetShortestPathInDiagram | index4.ts:31-51 | the forced SIL when an anchor is inside; throws exactly on a trapped centre; the moving-point route when the opening finds nothing; a route runs anchor to anchor |
| EarlyRouter.RouteOrthogonal | index4.ts:31-51 | with anchors on their exit sides, every route is orthogonal |
| EarlyRouter.EdgeHitIsCrossHit | index4.ts:297-306 | on rectangles at least 2 wide and high, an axis-aligned segment that hits the edges hits the cross lines |
| EarlyRouter.CrossValidIsEdgeValid | index4.ts:213-218 | an orthogonal route valid under the cross-line rule is valid under the edge rule |
| EarlyRouter.EdgeToEdgeSegment | index4.ts:297-306 | the converse fails: a segment spanning a square edge to edge crosses its cross lines and none of its edges |
| EarlyRouter.TrappedLayoutFails | index4.ts:76-80 | the first sil/test.ts layout, where the later engine detours, makes this router throw |
| Skeleton.ProcessFrom | index3.ts:363-378 | the left-to-right pass succeeds exactly when every marker has a point on each side, and gives each entry its corner |
| Skeleton.ProcessPath | index3.ts:363-378 | succeeds exactly on resolvable skeletons; keeps known points and turns each marker into the corner between its neighbours |
| Skeleton.ProcessPathOrthogonal | index3.ts:363-378 | when known points that meet directly are aligned, the processed route is orthogonal |
| Skeleton.CenterCrossInGaps | index3.ts:53-63 | the centre cross point lies midway between the facing edges, so it is strictly inside any gap |
| Skeleton.LayoutSymmetric | index3.ts:46 | with different left edges, swapping the rectangles does not change the layout |
| Skeleton.GroupsPartitionSides | index3.ts:22-31 | corrected, the groups split the sides in two both ways; as written, bottom-right overlaps top-left and misses Bottom |
| Skeleton.Midline | index3.ts:114-166 | through the centre when the crossing gap is open, round two corners when only the other is, else the cheapest candidate |
| Skeleton.Decide | index3.ts:76-341 | every skeleton runs anchor to anchor; single skeletons are corners only; only the first vertical block leaves one unprocessed |
| Skeleton.ResolveAll | index3.ts:122-340 | each candidate skeleton processed, every route running anchor to anchor |
| Skeleton.ResolvedAnchored | index3.ts:363-378 | a processed anchored skeleton runs anchor to anchor, and one of corners only is orthogonal |
| Skeleton.GetShortestPathAsWritten | index3.ts:37-343 | routes run anchor to anchor; the unprocessed result is the centre skeleton; no route exactly when no branch applies; a cheapest-candidate route is the first of the cheapest |
| Skeleton.GetShortestPath | index3.ts:37-343 | corrected at index3.ts:25 and :233 (see Findings): routes run anchor to anchor; single-skeleton routes are orthogonal; a cheapest-candidate route is the first of the cheapest and costs no more than any other |
| Skeleton.TopRightBend | index3.ts:80-85 | top-down rectangles with both anchors leaving up or right give one bend, on the source's row when it is on the left, both as written and corrected |
| Skeleton.CorrectionKeepsSideExits | index3.ts:25 | for sideways exits the corrected router returns what the source does, with the raw skeleton processed |
| LineIntersection.FindIntersection | line-intersection.ts:6-16 | no point exactly when the determinant is zero, that is, for parallel lines |
| LineIntersection.IntersectionOnBothLines | line-intersection.ts:6-16 | the point found lies on both lines |
| LineIntersection.IntersectionUnique | line-intersection.ts:6-16 | any point on both lines is the one found |
| LineIntersection.IsPointBetween | line-intersection.ts:18-21 | the point is in the closed box spanned by the two corners |
| LineIntersection.FindSegmentIntersection | line-intersection.ts:23-27 | a result lies on both segments; null exactly for parallel lines or a crossing outside a segment's box |
| LineIntersection.SegmentIntersectionComplete | line-intersection.ts:23-27 | every common point of two non-parallel segments is found |
| LineIntersection.SegmentIntersectionSymmetric | line-intersection.ts:23-27 | naming the second segment first gives the same answer |
| LineIntersection.ParallelSegments | test/line-intersection.test.ts:5-8 | two parallel horizontal segments give null |
| LineIntersection.CrossingSegments | test/line-intersection.test.ts:10-13 | a vertical and a horizontal segment meet at (50, 20) |
| Scenarios.TwiceRightToLeft | sil/test.ts:7-22 | the trapped-centre layout routes round the source square's far corner, both as written and corrected |
| Scenarios.TwiceRightToLeftFiltered | sil/index4.ts:84-92 | of the four detour candidates there, exactly the middle two are valid, whichever way the target detour is attached |
| Scenarios.TwiceRightToLeftCheapest | sil/index4.ts:84-92 | the detour round the source square is cheaper: 30 against 44 as written, or 42 with the target detour reversed |
| Scenarios.GapSilTopToLeft | sil/test.ts:82-99 | with both SILs clear and the source leaving upwards, the vertical-first SIL is taken, both as written and corrected |
| Scenarios.VerticallyInside | sil/test.ts:141-156 | the route through the clear gap centre loses its overshoot and runs straight across, both as written and corrected |
| Scenarios.HorizontallyInside | sil/test.ts:158-173 | the same layout turned a quarter, leaving downwards, both as written and corrected |
| Scenarios.SimplifySpike | sil/index4.ts:322-325 | a route that returns to its previous point loses the spike |
| Scenarios.SimplifyOvershoot | sil/index4.ts:322-325 | a route that runs past a corner and back loses the overshoot |
| Scenarios.DetourTailAsWritten | sil/index4.ts:88 | the trapped layout of the first test, with source and target swapped, ends at (0, 0) instead of the target (10, 2) |
| Scenarios.DetourTailReversed | sil/index4.ts:88 | with the target detour reversed, the route ends at the target |
| SkeletonScenarios.BottomExitsAsWritten | index3.ts:25 | two anchors leaving downwards, the left rectangle lower, get no route |
| SkeletonScenarios.BottomExitsCorrected | index3.ts:101-106 | with the bottom-right group corrected they get the single bend |
| SkeletonScenarios.RawCenterAsWritten | index3.ts:227-234 | the first vertical-midline block returns the skeleton with its markers still in it |
| SkeletonScenarios.RawCenterCorrected | index3.ts:227-234 | processed, the same skeleton is the orthogonal route through the centre cross point |
| SkeletonScenarios.DemoCall | index3.ts:391-407 | the module's own call returns the detour round the target square |

## Left out

- `index.ts` (the grid-graph Dijkstra router) and `get-rotation-by-points.ts` are not part of this model. Neither is called by the routers modelled here.
- The other sil/test.ts cases are not modelled. Only the first, the fifth and the two rectangle-inside tests are.
- Floating point. Coordinates are exact reals, so rounding in the gap centre, in `/ 2` and in the intersection formula is not modelled.
- Geometry.Trunc: does not model the 32-bit wrap-around of `~~`; coordinates are taken to be far below 2^31. The same holds for `>> 1` in `half`.
- `console.assert` in `movingTwice` and `console.log` in index3.ts are output only and are left out.
- Router.MovingTwice: does not require exactly one clear detour, as the source's assertion expects. With none it fails, because spreading `undefined` throws. With two it takes the first, as `paths[0]` does.
- EarlyRouter.CenterStrategy: the trapped-centre branch of index4.ts is a `Failure`. The stub `movingTwice` returns an empty list and the next line reads a coordinate of its missing element. The stub `simplifyPath` of index4.ts (270-273) is not applied, since the router never calls it.
- LineIntersection.FindIntersection: for parallel lines the source divides by zero and gets infinite or NaN coordinates. Every comparison with those fails, so `findSegmentIntersection` returns null; the model returns no point directly.
- Skeleton.ProcessFrom: when two markers are side by side the source writes an `undefined` coordinate and goes on. The model reports a `Failure` instead, and no branch of the decision tree builds such a skeleton.
- `isTopBottom` and `TOP_BOTTOM` (index3.ts:26, 32) are declared, but no branch of `getShortestPath` uses them.
- The comparator `(a, b) => a - b` of the gap-centre sort is modelled as exact numeric order. The model does not cover NaN inputs.
- Router.GetShortestPathInDiagram: this is the router with the sil/index4.ts:88 correction applied (see Findings); Router.GetShortestPathInDiagramAsWritten is the source as written and does not promise the end point after the trapped-centre branch. Both state that a route ends at the target's truncated place, not at the target itself, because simplification may end a route on a point with the same truncated coordinates. Router.RouteOrthogonal gives the exact end for whole-number routes.

## Findings

| source | as written | input that shows it | evidently intended | confidence | as-written member | corrected member |
|---|---|---|---|---|---|---|
| sil/index4.ts:88 | the target-side trapped candidates append `toMovingPoints.slice(1)` in forward order, so they end at the far detour corner | source (8, 10) leaving Left from (8, 8, 10, 10), target (10, 2) leaving Right from (0, 0, 10, 10): the answer ends at (0, 0) | append the target detour reversed, ending at the target anchor | not executed | Scenarios.DetourTailAsWritten, Router.GetShortestPathInDiagramAsWritten | Scenarios.DetourTailReversed, Router.GetShortestPathInDiagram |
| index3.ts:25 | `BOTTOM_RIGHT` lists Top and Right | left rectangle (0, 10, 10, 10), anchor (5, 20) leaving Bottom; right rectangle (20, 0, 10, 10), anchor (25, 10) leaving Bottom: no branch applies and no route is returned | the group lists Bottom and Right | not executed | SkeletonScenarios.BottomExitsAsWritten, Skeleton.GetShortestPathAsWritten | SkeletonScenarios.BottomExitsCorrected, Skeleton.GetShortestPath |
| index3.ts:233 | the first vertical-midline block returns its skeleton without `processPath`, so the markers reach the caller | (0, 0, 10, 10) with (10, 5) leaving Right to (20, 20, 10, 10) with (20, 25) leaving Left: the result still holds both markers | process the skeleton as every other branch does | not executed | SkeletonScenarios.RawCenterAsWritten, Skeleton.GetShortestPathAsWritten | SkeletonScenarios.RawCenterCorrected, Skeleton.GetShortestPath |
