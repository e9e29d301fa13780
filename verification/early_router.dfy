/** The earlier router of index4.ts. It opens with the same three strategies
    as the later one, but a segment is rejected when it crosses a rectangle's
    boundary edges rather than its centre cross lines, a valid single-inflection
    link is taken in list order, the forced route is returned as is, nothing is
    simplified, and the branch for a gap centre inside a rectangle is an
    unfinished stub. */
module EarlyRouter {
  import opened Geometry
  import opened Outcomes
  import opened Candidates
  import Router

  /** `getPathBySingleInflectionStrategy`: the first SIL that misses both
      rectangles' edges, horizontal-first before vertical-first, or null. */
  function SilStrategy(fromRect: Rect, fromPoint: Point, toRect: Rect, toPoint: Point): (r: Option<Path>)
    ensures var sils := GetSingleInflectionLinkOfTwoPoints(fromPoint, toPoint);
      var hOk := IsValidPath(sils[0], fromRect, toRect, BoundaryEdges);
      var vOk := IsValidPath(sils[1], fromRect, toRect, BoundaryEdges);
      && (r.None? <==> !hOk && !vOk)
      && (hOk ==> r == Some(sils[0]))
      && (!hOk && vOk ==> r == Some(sils[1]))
    ensures r.Some? ==> IsSil(r.value, fromPoint, toPoint) && IsValidPath(r.value, fromRect, toRect, BoundaryEdges)
  {
    var sils := GetSingleInflectionLinkOfTwoPoints(fromPoint, toPoint);
    var paths := GetValidPathsByRects(sils, fromRect, toRect, BoundaryEdges);
    ValidPathsOfPair(sils[0], sils[1], fromRect, toRect, BoundaryEdges);
    assert sils == [sils[0], sils[1]];
    if |paths| == 0 then None else Some(paths[0])
  }

  /** `getPathByCenterStrategy`. With the gap centre inside a rectangle the
      source asks the stub `movingTwice` for a detour, gets an empty list, and
      reads a coordinate of its missing second point, which throws. Otherwise
      the route through the gap centre is chosen as in the later router, under
      the boundary-edge test. */
  function CenterStrategy(fromRect: Rect, fromPoint: Point, fromDirection: Direction,
                          toRect: Rect, toPoint: Point): (r: Result<Option<Path>>)
    ensures r.Failure? <==> CenterTrapped(fromRect, toRect)
    ensures r.Success? && r.value.Some? ==>
      var c := GetGapCenterOfTwoRects(fromRect, toRect);
      && IsValidPath(r.value.value, fromRect, toRect, BoundaryEdges)
      && (r.value.value == HorizontalCenterPath(fromPoint, toPoint, c) || r.value.value == VerticalCenterPath(fromPoint, toPoint, c))
      && |r.value.value| == 5 && r.value.value[0] == fromPoint && r.value.value[4] == toPoint
  {
    if CenterTrapped(fromRect, toRect) then
      Failure("TypeError: movingTwice returned no detour point")
    else
      Success(CenterStrategyThroughGap(fromRect, fromPoint, fromDirection, toRect, toPoint, BoundaryEdges))
  }

  /** The opening strategy's route, before the moving-point fallback. */
  function FirstRoute(fromRect: Rect, fromPoint: Point, fromDirection: Direction,
                      toRect: Rect, toPoint: Point, toDirection: Direction): (r: Result<Option<Path>>)
    ensures var s := Router.ChooseStrategy(fromRect, fromPoint, fromDirection, toRect, toPoint, toDirection);
      && (s == Router.Forced ==> r == Success(Some(ForcedSil(fromPoint, toPoint))))
      && (r.Failure? <==> s == Router.Center && CenterTrapped(fromRect, toRect))
      && (r.Success? && r.value.Some? && s != Router.Forced ==> IsValidPath(r.value.value, fromRect, toRect, BoundaryEdges))
    ensures r.Success? && r.value.Some? ==>
      3 <= |r.value.value| && r.value.value[0] == fromPoint && r.value.value[|r.value.value| - 1] == toPoint
  {
    match Router.ChooseStrategy(fromRect, fromPoint, fromDirection, toRect, toPoint, toDirection)
    case Forced => Success(Some(ForcedSil(fromPoint, toPoint)))
    case Center => CenterStrategy(fromRect, fromPoint, fromDirection, toRect, toPoint)
    case SingleInflection => Success(SilStrategy(fromRect, fromPoint, toRect, toPoint))
  }

  /** `getShortestPathInDiagram` of index4.ts: the opening route if there is
      one, else the moving-point route, which may be null. Every route runs
      from the source anchor to the target anchor; a route that is not forced
      and does not come from the moving-point fallback misses both rectangles'
      edges. */
  function GetShortestPathInDiagram(fromRect: Rect, fromPoint: Point, fromDirection: Direction,
                                    toRect: Rect, toPoint: Point, toDirection: Direction): (r: Result<Option<Path>>)
    ensures var s := Router.ChooseStrategy(fromRect, fromPoint, fromDirection, toRect, toPoint, toDirection);
      && (s == Router.Forced ==> r == Success(Some(ForcedSil(fromPoint, toPoint))))
      && (r.Failure? <==> s == Router.Center && CenterTrapped(fromRect, toRect))
    ensures FirstRoute(fromRect, fromPoint, fromDirection, toRect, toPoint, toDirection) == Success(None) ==>
      r == Success(MovingPointStrategy(fromRect, fromPoint, fromDirection, toRect, toPoint, toDirection, BoundaryEdges))
    ensures r == Success(None) ==>
      && FirstRoute(fromRect, fromPoint, fromDirection, toRect, toPoint, toDirection) == Success(None)
      && MovingPointStrategy(fromRect, fromPoint, fromDirection, toRect, toPoint, toDirection, BoundaryEdges).None?
    ensures r.Success? && r.value.Some? ==>
      && 3 <= |r.value.value| && r.value.value[0] == fromPoint && r.value.value[|r.value.value| - 1] == toPoint
      && (|| Router.ChooseStrategy(fromRect, fromPoint, fromDirection, toRect, toPoint, toDirection) == Router.Forced
          || IsValidPath(r.value.value, fromRect, toRect, BoundaryEdges)
          || r.value == MovingPointStrategy(fromRect, fromPoint, fromDirection, toRect, toPoint, toDirection, BoundaryEdges))
  {
    var first := FirstRoute(fromRect, fromPoint, fromDirection, toRect, toPoint, toDirection);
    if first.Failure? || first.value.Some? then first
    else Success(MovingPointStrategy(fromRect, fromPoint, fromDirection, toRect, toPoint, toDirection, BoundaryEdges))
  }

  /** With both anchors on their exit sides every route is orthogonal. */
  lemma RouteOrthogonal(fromRect: Rect, fromPoint: Point, fromDirection: Direction,
                        toRect: Rect, toPoint: Point, toDirection: Direction)
    requires OnSide(fromPoint, fromRect, fromDirection) && OnSide(toPoint, toRect, toDirection)
    ensures var r := GetShortestPathInDiagram(fromRect, fromPoint, fromDirection, toRect, toPoint, toDirection);
      r.Success? && r.value.Some? ==> IsOrthogonal(r.value.value)
  {
    FirstRouteOrthogonal(fromRect, fromPoint, fromDirection, toRect, toPoint, toDirection);
    MovingPointStrategyOrthogonal(fromRect, fromPoint, fromDirection, toRect, toPoint, toDirection, BoundaryEdges);
  }

  /** Every opening strategy yields an orthogonal route: the link routes bend
      once, the centre routes pass the gap centre on axis-aligned legs. */
  lemma FirstRouteOrthogonal(fromRect: Rect, fromPoint: Point, fromDirection: Direction,
                             toRect: Rect, toPoint: Point, toDirection: Direction)
    ensures var r := FirstRoute(fromRect, fromPoint, fromDirection, toRect, toPoint, toDirection);
      r.Success? && r.value.Some? ==> IsOrthogonal(r.value.value)
  {
    var c := GetGapCenterOfTwoRects(fromRect, toRect);
    var h := HorizontalCenterPath(fromPoint, toPoint, c);
    var v := VerticalCenterPath(fromPoint, toPoint, c);
  }

  /** For a horizontal or vertical segment and a rectangle at least 2 wide and
      high, hitting the boundary edges implies hitting the cross lines: a
      segment that crosses an edge without ending inside must run on across
      the middle. */
  lemma EdgeHitIsCrossHit(l: Line, r: Rect)
    requires AxisAligned(l.from, l.to)
    requires 2.0 <= r.width && 2.0 <= r.height
    ensures IsRegularLineIntersectedWithRect(l, r, BoundaryEdges) ==> IsRegularLineIntersectedWithRect(l, r, CrossLines)
  {
    var lines := GetRectCrossLines(r);
  }

  /** So on orthogonal routes the later router's test is at least as strict:
      a route it accepts, this router accepts too. */
  lemma CrossValidIsEdgeValid(path: Path, r1: Rect, r2: Rect)
    requires IsOrthogonal(path)
    requires 2.0 <= r1.width && 2.0 <= r1.height && 2.0 <= r2.width && 2.0 <= r2.height
    ensures IsValidPath(path, r1, r2, CrossLines) ==> IsValidPath(path, r1, r2, BoundaryEdges)
  {
    forall i | 0 < i < |path|
      ensures SegmentHits(path, i, r1, BoundaryEdges) ==> SegmentHits(path, i, r1, CrossLines)
      ensures SegmentHits(path, i, r2, BoundaryEdges) ==> SegmentHits(path, i, r2, CrossLines)
    {
      EdgeHitIsCrossHit(Line(path[i - 1], path[i]), r1);
      EdgeHitIsCrossHit(Line(path[i - 1], path[i]), r2);
    }
  }

  /** The converse fails: a segment running edge to edge across the middle of
      a square crosses both its cross lines yet meets none of its edges. */
  lemma EdgeToEdgeSegment()
    ensures IsRegularLineIntersectedWithRect(Line(Point(0.0, 5.0), Point(10.0, 5.0)), Rect(0.0, 0.0, 10.0, 10.0), CrossLines)
    ensures !IsRegularLineIntersectedWithRect(Line(Point(0.0, 5.0), Point(10.0, 5.0)), Rect(0.0, 0.0, 10.0, 10.0), BoundaryEdges)
  {
    var lines := GetRectCrossLines(Rect(0.0, 0.0, 10.0, 10.0));
    HalfOfNatural(10);
  }

  /** On the layout of the first test of sil/test.ts the gap centre (9, 9) is
      inside both squares, so this router throws where the later one detours. */
  lemma TrappedLayoutFails()
    ensures GetShortestPathInDiagram(Rect(0.0, 0.0, 10.0, 10.0), Point(10.0, 2.0), Right,
                                     Rect(8.0, 8.0, 10.0, 10.0), Point(8.0, 10.0), Left).Failure?
  {
    TrappedLayoutCenter();
    TrappedLayoutOpensCenter();
    TrappedCenterFails(Rect(0.0, 0.0, 10.0, 10.0), Point(10.0, 2.0), Right,
                       Rect(8.0, 8.0, 10.0, 10.0), Point(8.0, 10.0), Left);
  }

  lemma TrappedLayoutOpensCenter()
    ensures Router.ChooseStrategy(Rect(0.0, 0.0, 10.0, 10.0), Point(10.0, 2.0), Right,
                                  Rect(8.0, 8.0, 10.0, 10.0), Point(8.0, 10.0), Left) == Router.Center
  {
  }

  /** Anchors facing away from each other with the gap centre inside a
      rectangle make this router throw. */
  lemma TrappedCenterFails(fromRect: Rect, fromPoint: Point, fromDirection: Direction,
                           toRect: Rect, toPoint: Point, toDirection: Direction)
    requires Router.ChooseStrategy(fromRect, fromPoint, fromDirection, toRect, toPoint, toDirection) == Router.Center
    requires CenterTrapped(fromRect, toRect)
    ensures GetShortestPathInDiagram(fromRect, fromPoint, fromDirection, toRect, toPoint, toDirection).Failure?
  {
  }

  lemma TrappedLayoutCenter()
    ensures CenterTrapped(Rect(0.0, 0.0, 10.0, 10.0), Rect(8.0, 8.0, 10.0, 10.0))
  {
    assert GetGapCenterOfTwoRects(Rect(0.0, 0.0, 10.0, 10.0), Rect(8.0, 8.0, 10.0, 10.0)) == Point(9.0, 9.0);
  }
}
