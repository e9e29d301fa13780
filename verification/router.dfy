/** The connector router of sil/index4.ts: picks a strategy from where the two
    anchors sit and which ways they face, falls back to sliding an anchor to a
    corner of its exit side, and cleans the result with `simplifyPath`.

    A null route reaching `simplifyPath`, or a detour `movingTwice` cannot find,
    makes the source throw; both are `Failure` here. */
module Router {
  import opened Geometry
  import opened Outcomes
  import opened Cost
  import opened Candidates
  import opened Simplify

  /** How far a detour runs across a rectangle: its extent at right angles to
      the exit side. */
  function Depth(rect: Rect, dir: Direction): real
  {
    if dir == Top || dir == Bottom then rect.height else rect.width
  }

  /** The two detours `movingTwice` tries, in the source's order: from an end of
      the exit side straight across the rectangle to the corner behind it. */
  function DetourPairs(rect: Rect, dir: Direction): (pairs: seq<(Point, Point)>)
    ensures |pairs| == 2
    ensures var q := GetRectPoints(rect);
      var s := SideIndex(dir);
      {pairs[0].0, pairs[1].0} == {q[s], q[(s + 1) % 4]}
    ensures forall k :: 0 <= k < 2 ==> pairs[k].1 == Move(pairs[k].0, Opposite(dir), Depth(rect, dir))
  {
    var q := GetRectPoints(rect);
    var a, b, c, d := q[0], q[1], q[2], q[3];
    match dir
    case Top => [(a, d), (b, c)]
    case Right => [(b, a), (c, d)]
    case Bottom => [(c, b), (d, a)]
    case Left => [(a, b), (d, c)]
  }

  /** Neither corner of the detour lies inside the other rectangle. */
  predicate IsClearOf(pair: (Point, Point), other: Rect)
  {
    !IsPointInRect(pair.0, other) && !IsPointInRect(pair.1, other)
  }

  /** `movingTwice`: the anchor, then the first detour clear of the other
      rectangle. With no such detour the source spreads `undefined` and throws. */
  function MovingTwice(point: Point, rect: Rect, dir: Direction, other: Rect): (r: Result<Path>)
    ensures var pairs := DetourPairs(rect, dir);
      && (r.Failure? <==> !IsClearOf(pairs[0], other) && !IsClearOf(pairs[1], other))
      && (r.Success? ==> |r.value| == 3 && r.value[0] == point
                         && (r.value[1], r.value[2]) in pairs && IsClearOf((r.value[1], r.value[2]), other))
      && (IsClearOf(pairs[0], other) ==> r.Success? && r.value[1] == pairs[0].0)
    ensures r.Success? && OnSide(point, rect, dir) ==> IsOrthogonal(r.value)
  {
    var pairs := DetourPairs(rect, dir);
    var clear := if IsClearOf(pairs[0], other) then [pairs[0]] else [];
    var clear := clear + if IsClearOf(pairs[1], other) then [pairs[1]] else [];
    if |clear| == 0 then Failure("movingTwice: no detour clear of the other rectangle")
    else
      var p := [point, clear[0].0, clear[0].1];
      assert OnSide(point, rect, dir) ==> AxisAligned(point, p[1]) by {
        var q := GetRectPoints(rect);
        assert p[1] == q[SideIndex(dir)] || p[1] == q[(SideIndex(dir) + 1) % 4];
      }
      Success(p)
  }

  /** How the target's detour is attached behind a SIL that ends at the far
      corner of the detour: in the detour's own order, as the source writes it,
      or walked back to the target anchor. */
  datatype Tail = AsWritten | Reversed

  /** The four candidates of the trapped-centre branch: the source's detour
      followed by a SIL to the target, twice, then a SIL to the far corner of the
      target's detour followed by that detour, twice. */
  function TrappedCandidates(fromPoint: Point, fromDetour: (Point, Point),
                             toPoint: Point, toDetour: (Point, Point), tail: Tail): (cands: seq<Path>)
    ensures |cands| == 4
    ensures forall p :: p in cands ==> |p| == 5 && p[0] == fromPoint
    ensures tail == Reversed ==> forall p :: p in cands ==> p[4] == toPoint
    ensures tail == AsWritten ==> cands[2][4] == toDetour.1 && cands[3][4] == toDetour.1
  {
    var fm := [fromPoint, fromDetour.0, fromDetour.1];
    var fromSils := GetSingleInflectionLinkOfTwoPoints(fromDetour.1, toPoint);
    var toSils := GetSingleInflectionLinkOfTwoPoints(fromPoint, toDetour.1);
    var back := match tail
      case AsWritten => [toDetour.0, toDetour.1]
      case Reversed => [toDetour.0, toPoint];
    [fm + fromSils[0][1..], fm + fromSils[1][1..], toSils[0] + back, toSils[1] + back]
  }

  /** The trapped candidates point by point: each SIL turns at the corner it
      shares an axis with. */
  lemma TrappedCandidatesPoints(fromPoint: Point, fromDetour: (Point, Point),
                                toPoint: Point, toDetour: (Point, Point), tail: Tail)
    ensures var (f1, f2, t1, t2) := (fromDetour.0, fromDetour.1, toDetour.0, toDetour.1);
      var last := if tail == Reversed then toPoint else t2;
      TrappedCandidates(fromPoint, fromDetour, toPoint, toDetour, tail)
      == [[fromPoint, f1, f2, Point(toPoint.x, f2.y), toPoint],
          [fromPoint, f1, f2, Point(f2.x, toPoint.y), toPoint],
          [fromPoint, Point(t2.x, fromPoint.y), t2, t1, last],
          [fromPoint, Point(fromPoint.x, t2.y), t2, t1, last]]
  {
    var fm := [fromPoint, fromDetour.0, fromDetour.1];
    var fromSils := GetSingleInflectionLinkOfTwoPoints(fromDetour.1, toPoint);
    var toSils := GetSingleInflectionLinkOfTwoPoints(fromPoint, toDetour.1);
    assert fromSils[0] == [fromDetour.1, Point(toPoint.x, fromDetour.1.y), toPoint];
    assert fromSils[1] == [fromDetour.1, Point(fromDetour.1.x, toPoint.y), toPoint];
    assert toSils[0] == [fromPoint, Point(toDetour.1.x, fromPoint.y), toDetour.1];
    assert toSils[1] == [fromPoint, Point(fromPoint.x, toDetour.1.y), toDetour.1];
    var back := if tail == Reversed then [toDetour.0, toPoint] else [toDetour.0, toDetour.1];
    var c := TrappedCandidates(fromPoint, fromDetour, toPoint, toDetour, tail);
    assert c == [fm + fromSils[0][1..], fm + fromSils[1][1..], toSils[0] + back, toSils[1] + back];
    assert fm + fromSils[0][1..] == [fromPoint, fromDetour.0, fromDetour.1, Point(toPoint.x, fromDetour.1.y), toPoint];
    assert fm + fromSils[1][1..] == [fromPoint, fromDetour.0, fromDetour.1, Point(fromDetour.1.x, toPoint.y), toPoint];
    assert toSils[0] + back == [fromPoint, Point(toDetour.1.x, fromPoint.y), toDetour.1, toDetour.0, back[1]];
    assert toSils[1] + back == [fromPoint, Point(fromPoint.x, toDetour.1.y), toDetour.1, toDetour.0, back[1]];
  }

  /** With both detours running along and across their rectangles, every
      trapped candidate is orthogonal, whichever way the target's detour is
      attached: detour, SIL; or SIL, detour. */
  lemma TrappedCandidatesOrthogonal(fromPoint: Point, fromDetour: (Point, Point),
                                    toPoint: Point, toDetour: (Point, Point), tail: Tail, p: Path)
    requires IsOrthogonal([fromPoint, fromDetour.0, fromDetour.1])
    requires IsOrthogonal([toPoint, toDetour.0, toDetour.1])
    requires p in TrappedCandidates(fromPoint, fromDetour, toPoint, toDetour, tail)
    ensures IsOrthogonal(p)
  {
    var fm := [fromPoint, fromDetour.0, fromDetour.1];
    var tm := [toPoint, toDetour.0, toDetour.1];
    assert AxisAligned(fm[0], fm[1]) && AxisAligned(fm[1], fm[2]);
    assert AxisAligned(tm[0], tm[1]) && AxisAligned(tm[1], tm[2]);
  }

  /** The trapped-centre branch: detour both anchors, then take the cheapest of
      the candidates that cross neither rectangle's centre lines, the first of
      them on a tie; null when none is valid. */
  function TrappedStrategy(fromRect: Rect, fromPoint: Point, fromDirection: Direction,
                           toRect: Rect, toPoint: Point, toDirection: Direction, tail: Tail): (r: Result<Option<Path>>)
    ensures r.Failure? <==>
      MovingTwice(fromPoint, fromRect, fromDirection, toRect).Failure? ||
      MovingTwice(toPoint, toRect, toDirection, fromRect).Failure?
    ensures r.Success? ==>
      var fm := MovingTwice(fromPoint, fromRect, fromDirection, toRect).value;
      var tm := MovingTwice(toPoint, toRect, toDirection, fromRect).value;
      var valid := GetValidPathsByRects(TrappedCandidates(fromPoint, (fm[1], fm[2]), toPoint, (tm[1], tm[2]), tail),
                                        fromRect, toRect, CrossLines);
      && (r.value.None? <==> |valid| == 0)
      && (r.value.Some? ==> exists k :: IsFirstCheapest(valid, k) && r.value.value == valid[k])
    ensures r.Success? && r.value.Some? ==>
      && IsValidPath(r.value.value, fromRect, toRect, CrossLines)
      && |r.value.value| == 5 && r.value.value[0] == fromPoint
      && (tail == Reversed ==> r.value.value[4] == toPoint)
  {
    var fm := MovingTwice(fromPoint, fromRect, fromDirection, toRect);
    if fm.Failure? then Failure(fm.error)
    else
      var tm := MovingTwice(toPoint, toRect, toDirection, fromRect);
      if tm.Failure? then Failure(tm.error)
      else
        var cands := TrappedCandidates(fromPoint, (fm.value[1], fm.value[2]), toPoint, (tm.value[1], tm.value[2]), tail);
        var valid := GetValidPathsByRects(cands, fromRect, toRect, CrossLines);
        Success(MinPaths(valid))
  }

  /** A trapped-centre route is orthogonal when both anchors sit on their exit
      sides, whichever way the target's detour is attached. */
  lemma TrappedStrategyOrthogonal(fromRect: Rect, fromPoint: Point, fromDirection: Direction,
                                  toRect: Rect, toPoint: Point, toDirection: Direction, tail: Tail)
    requires OnSide(fromPoint, fromRect, fromDirection) && OnSide(toPoint, toRect, toDirection)
    ensures var r := TrappedStrategy(fromRect, fromPoint, fromDirection, toRect, toPoint, toDirection, tail);
      r.Success? && r.value.Some? ==> IsOrthogonal(r.value.value)
  {
    var r := TrappedStrategy(fromRect, fromPoint, fromDirection, toRect, toPoint, toDirection, tail);
    if r.Success? && r.value.Some? {
      var fm := MovingTwice(fromPoint, fromRect, fromDirection, toRect).value;
      var tm := MovingTwice(toPoint, toRect, toDirection, fromRect).value;
      assert fm == [fromPoint, fm[1], fm[2]] && tm == [toPoint, tm[1], tm[2]];
      var cands := TrappedCandidates(fromPoint, (fm[1], fm[2]), toPoint, (tm[1], tm[2]), tail);
      assert r.value.value in cands;
      TrappedCandidatesOrthogonal(fromPoint, (fm[1], fm[2]), toPoint, (tm[1], tm[2]), tail, r.value.value);
    }
  }

  /** `getPathByCenterStrategy`: through the gap centre when it is clear of both
      rectangles, otherwise the trapped-centre branch. Only that branch can
      throw, and it does exactly when an anchor has no clear detour. */
  function CenterStrategy(fromRect: Rect, fromPoint: Point, fromDirection: Direction,
                          toRect: Rect, toPoint: Point, toDirection: Direction, tail: Tail): (r: Result<Option<Path>>)
    ensures r.Failure? <==>
      && CenterTrapped(fromRect, toRect)
      && (|| MovingTwice(fromPoint, fromRect, fromDirection, toRect).Failure?
          || MovingTwice(toPoint, toRect, toDirection, fromRect).Failure?)
    ensures r.Success? && r.value.Some? ==>
      && IsValidPath(r.value.value, fromRect, toRect, CrossLines)
      && |r.value.value| == 5 && r.value.value[0] == fromPoint
      && (tail == Reversed ==> r.value.value[4] == toPoint)
  {
    if CenterTrapped(fromRect, toRect) then
      TrappedStrategy(fromRect, fromPoint, fromDirection, toRect, toPoint, toDirection, tail)
    else
      Success(CenterStrategyThroughGap(fromRect, fromPoint, fromDirection, toRect, toPoint, CrossLines))
  }

  /** `getPathBySingleInflectionStrategy`: a valid SIL, or null when neither is
      valid. When both are, the one whose first segment heads the way the
      source anchor faces is taken, and otherwise the vertical-first one. */
  function SilStrategy(fromRect: Rect, fromPoint: Point, fromDirection: Direction,
                       toRect: Rect, toPoint: Point): (r: Option<Path>)
    ensures var sils := GetSingleInflectionLinkOfTwoPoints(fromPoint, toPoint);
      var hOk := IsValidPath(sils[0], fromRect, toRect, CrossLines);
      var vOk := IsValidPath(sils[1], fromRect, toRect, CrossLines);
      && (r.None? <==> !hOk && !vOk)
      && (hOk && !vOk ==> r == Some(sils[0]))
      && (!hOk && vOk ==> r == Some(sils[1]))
      && (hOk && vOk && fromPoint.x != toPoint.x ==>
            (r == Some(sils[0]) <==>
               (fromDirection == Right && fromPoint.x < toPoint.x) || (fromDirection == Left && toPoint.x < fromPoint.x)))
      && (hOk && vOk && fromPoint.x == toPoint.x && fromPoint.y != toPoint.y ==>
            (r == Some(sils[0]) <==> fromDirection == Bottom))
    ensures r.Some? ==> IsSil(r.value, fromPoint, toPoint) && IsValidPath(r.value, fromRect, toRect, CrossLines)
  {
    var sils := GetSingleInflectionLinkOfTwoPoints(fromPoint, toPoint);
    var paths := GetValidPathsByRects(sils, fromRect, toRect, CrossLines);
    ValidPathsOfPair(sils[0], sils[1], fromRect, toRect, CrossLines);
    assert sils == [sils[0], sils[1]];
    if |paths| == 0 then None
    else if |paths| == 1 then Some(paths[0])
    else
      var direction := GetDirectionByTwoPoints(paths[0][0], paths[0][1]);
      Some(if direction == fromDirection then paths[0] else paths[1])
  }

  /** Which strategy the router opens with. */
  datatype Strategy = Forced | Center | SingleInflection

  /** An anchor inside the other rectangle forces a plain SIL; anchors facing
      exactly away from each other go through the gap centre; the rest try a
      SIL. */
  function ChooseStrategy(fromRect: Rect, fromPoint: Point, fromDirection: Direction,
                          toRect: Rect, toPoint: Point, toDirection: Direction): (s: Strategy)
    ensures s == Forced <==> IsPointInRect(fromPoint, toRect) || IsPointInRect(toPoint, fromRect)
    ensures s == Center <==> s != Forced && toDirection == Opposite(fromDirection)
  {
    if IsPointInRect(fromPoint, toRect) || IsPointInRect(toPoint, fromRect) then Forced
    else if IsInverseDirection(fromDirection, toDirection) then Center
    else SingleInflection
  }

  /** The route comes from the trapped-centre branch: the anchors face away
      from each other and the gap centre is inside a rectangle. Only there does
      the way the target's detour is attached matter. */
  predicate OpensTrapped(fromRect: Rect, fromPoint: Point, fromDirection: Direction,
                         toRect: Rect, toPoint: Point, toDirection: Direction)
  {
    ChooseStrategy(fromRect, fromPoint, fromDirection, toRect, toPoint, toDirection) == Center && CenterTrapped(fromRect, toRect)
  }

  /** The opening strategy's route, before the moving-point fallback: the
      forced SIL when an anchor is inside the other rectangle. A route starts at
      the source anchor, and ends at the target anchor unless it comes from the
      trapped-centre branch with the detour as written. */
  function FirstRoute(fromRect: Rect, fromPoint: Point, fromDirection: Direction,
                      toRect: Rect, toPoint: Point, toDirection: Direction, tail: Tail): (r: Result<Option<Path>>)
    ensures IsPointInRect(fromPoint, toRect) || IsPointInRect(toPoint, fromRect) ==>
      r == Success(Some(ForcedSil(fromPoint, toPoint)))
    ensures r.Failure? ==> OpensTrapped(fromRect, fromPoint, fromDirection, toRect, toPoint, toDirection)
    ensures r.Success? && r.value.Some? ==>
      && 3 <= |r.value.value| && r.value.value[0] == fromPoint
      && (tail == Reversed || !OpensTrapped(fromRect, fromPoint, fromDirection, toRect, toPoint, toDirection) ==>
            r.value.value[|r.value.value| - 1] == toPoint)
  {
    match ChooseStrategy(fromRect, fromPoint, fromDirection, toRect, toPoint, toDirection)
    case Forced => Success(Some(ForcedSil(fromPoint, toPoint)))
    case Center => CenterStrategy(fromRect, fromPoint, fromDirection, toRect, toPoint, toDirection, tail)
    case SingleInflection => Success(SilStrategy(fromRect, fromPoint, fromDirection, toRect, toPoint))
  }

  /** The route handed to `simplifyPath`: the opening strategy's, or, when that
      is null, the moving-point strategy's, which may be null too. */
  function RawRoute(fromRect: Rect, fromPoint: Point, fromDirection: Direction,
                    toRect: Rect, toPoint: Point, toDirection: Direction, tail: Tail): (r: Result<Option<Path>>)
    ensures IsPointInRect(fromPoint, toRect) || IsPointInRect(toPoint, fromRect) ==>
      r == Success(Some(ForcedSil(fromPoint, toPoint)))
    ensures r.Failure? <==> FirstRoute(fromRect, fromPoint, fromDirection, toRect, toPoint, toDirection, tail).Failure?
    ensures FirstRoute(fromRect, fromPoint, fromDirection, toRect, toPoint, toDirection, tail) == Success(None) ==>
      r == Success(MovingPointStrategy(fromRect, fromPoint, fromDirection, toRect, toPoint, toDirection, CrossLines))
    ensures r == Success(None) ==>
      && FirstRoute(fromRect, fromPoint, fromDirection, toRect, toPoint, toDirection, tail) == Success(None)
      && MovingPointStrategy(fromRect, fromPoint, fromDirection, toRect, toPoint, toDirection, CrossLines).None?
    ensures r.Success? && r.value.Some? ==>
      && 3 <= |r.value.value| && r.value.value[0] == fromPoint
      && (tail == Reversed || !OpensTrapped(fromRect, fromPoint, fromDirection, toRect, toPoint, toDirection) ==>
            r.value.value[|r.value.value| - 1] == toPoint)
  {
    var first := FirstRoute(fromRect, fromPoint, fromDirection, toRect, toPoint, toDirection, tail);
    if first.Failure? || first.value.Some? then first
    else Success(MovingPointStrategy(fromRect, fromPoint, fromDirection, toRect, toPoint, toDirection, CrossLines))
  }

  /** `getShortestPathInDiagram` with the target's detour attached as `tail`
      says. It throws when the opening strategy throws or no strategy finds a
      route. A route starts at the source anchor, has no near duplicates, and
      ends on the target anchor's place unless it comes from the trapped-centre
      branch with the detour as written. */
  function ShortestPathWith(fromRect: Rect, fromPoint: Point, fromDirection: Direction,
                            toRect: Rect, toPoint: Point, toDirection: Direction, tail: Tail): (r: Result<Path>)
    ensures var raw := RawRoute(fromRect, fromPoint, fromDirection, toRect, toPoint, toDirection, tail);
      r.Failure? <==> raw.Failure? || raw.value.None?
    ensures r.Success? ==> 1 <= |r.value| && r.value[0] == fromPoint && NoNearDuplicates(r.value)
    ensures r.Success? && (tail == Reversed || !OpensTrapped(fromRect, fromPoint, fromDirection, toRect, toPoint, toDirection)) ==>
      IsSamePoint(r.value[|r.value| - 1], toPoint)
  {
    match RawRoute(fromRect, fromPoint, fromDirection, toRect, toPoint, toDirection, tail)
    case Failure(e) => Failure(e)
    case Success(None) => Failure("simplifyPath: no route to simplify")
    case Success(Some(p)) => Success(SimplifyPath(p))
  }

  /** The router exactly as the source writes it. It throws exactly when the
      opening strategy throws or neither it nor the moving-point strategy finds
      a route. A route starts at the source anchor and has no near duplicates;
      it ends on the target anchor's place unless it comes from the
      trapped-centre branch. */
  function GetShortestPathInDiagramAsWritten(fromRect: Rect, fromPoint: Point, fromDirection: Direction,
                                             toRect: Rect, toPoint: Point, toDirection: Direction): (r: Result<Path>)
    ensures var raw := RawRoute(fromRect, fromPoint, fromDirection, toRect, toPoint, toDirection, AsWritten);
      r.Failure? <==> raw.Failure? || raw.value.None?
    ensures r.Success? ==> 1 <= |r.value| && r.value[0] == fromPoint && NoNearDuplicates(r.value)
    ensures r.Success? && !OpensTrapped(fromRect, fromPoint, fromDirection, toRect, toPoint, toDirection) ==>
      IsSamePoint(r.value[|r.value| - 1], toPoint)
  {
    ShortestPathWith(fromRect, fromPoint, fromDirection, toRect, toPoint, toDirection, AsWritten)
  }

  /** The router with the target's detour walked back to the target anchor, so
      that every route ends where it should. */
  function GetShortestPathInDiagram(fromRect: Rect, fromPoint: Point, fromDirection: Direction,
                                    toRect: Rect, toPoint: Point, toDirection: Direction): (r: Result<Path>)
    ensures var raw := RawRoute(fromRect, fromPoint, fromDirection, toRect, toPoint, toDirection, Reversed);
      r.Failure? <==> raw.Failure? || raw.value.None?
    ensures r.Success? ==>
      && 1 <= |r.value| && r.value[0] == fromPoint && IsSamePoint(r.value[|r.value| - 1], toPoint)
      && NoNearDuplicates(r.value)
  {
    ShortestPathWith(fromRect, fromPoint, fromDirection, toRect, toPoint, toDirection, Reversed)
  }

  /** A route from the opening strategy is final once simplified: the
      moving-point fallback is never consulted. */
  lemma FirstRouteSettles(fromRect: Rect, fromPoint: Point, fromDirection: Direction,
                          toRect: Rect, toPoint: Point, toDirection: Direction, tail: Tail, p: Path)
    requires FirstRoute(fromRect, fromPoint, fromDirection, toRect, toPoint, toDirection, tail) == Success(Some(p))
    ensures ShortestPathWith(fromRect, fromPoint, fromDirection, toRect, toPoint, toDirection, tail) == Success(SimplifyPath(p))
  {
  }

  /** Anchors facing away from each other with the gap centre inside a
      rectangle open with the trapped-centre branch. */
  lemma TrappedCenterOpens(fromRect: Rect, fromPoint: Point, fromDirection: Direction,
                           toRect: Rect, toPoint: Point, toDirection: Direction, tail: Tail)
    requires ChooseStrategy(fromRect, fromPoint, fromDirection, toRect, toPoint, toDirection) == Center
    requires CenterTrapped(fromRect, toRect)
    ensures FirstRoute(fromRect, fromPoint, fromDirection, toRect, toPoint, toDirection, tail)
         == TrappedStrategy(fromRect, fromPoint, fromDirection, toRect, toPoint, toDirection, tail)
  {
  }

  /** When both anchors sit on their exit sides, the opening strategy's route
      is orthogonal. */
  lemma FirstRouteOrthogonal(fromRect: Rect, fromPoint: Point, fromDirection: Direction,
                             toRect: Rect, toPoint: Point, toDirection: Direction, tail: Tail)
    requires OnSide(fromPoint, fromRect, fromDirection) && OnSide(toPoint, toRect, toDirection)
    ensures var r := FirstRoute(fromRect, fromPoint, fromDirection, toRect, toPoint, toDirection, tail);
      r.Success? && r.value.Some? ==> IsOrthogonal(r.value.value)
  {
    if OpensTrapped(fromRect, fromPoint, fromDirection, toRect, toPoint, toDirection) {
      TrappedStrategyOrthogonal(fromRect, fromPoint, fromDirection, toRect, toPoint, toDirection, tail);
    }
  }

  /** When both anchors sit on their exit sides, every route handed to
      `simplifyPath` is orthogonal, whichever strategy produced it. */
  lemma RawRouteOrthogonal(fromRect: Rect, fromPoint: Point, fromDirection: Direction,
                           toRect: Rect, toPoint: Point, toDirection: Direction, tail: Tail)
    requires OnSide(fromPoint, fromRect, fromDirection) && OnSide(toPoint, toRect, toDirection)
    ensures var r := RawRoute(fromRect, fromPoint, fromDirection, toRect, toPoint, toDirection, tail);
      r.Success? && r.value.Some? ==> IsOrthogonal(r.value.value)
  {
    FirstRouteOrthogonal(fromRect, fromPoint, fromDirection, toRect, toPoint, toDirection, tail);
    MovingPointStrategyOrthogonal(fromRect, fromPoint, fromDirection, toRect, toPoint, toDirection, CrossLines);
  }

  /** A non-null route handed to `simplifyPath` comes back simplified. */
  lemma RawRouteSettles(fromRect: Rect, fromPoint: Point, fromDirection: Direction,
                        toRect: Rect, toPoint: Point, toDirection: Direction, tail: Tail)
    ensures var raw := RawRoute(fromRect, fromPoint, fromDirection, toRect, toPoint, toDirection, tail);
      raw.Success? && raw.value.Some? ==>
        ShortestPathWith(fromRect, fromPoint, fromDirection, toRect, toPoint, toDirection, tail) == Success(SimplifyPath(raw.value.value))
  {
  }

  /** On whole-number coordinates, with both anchors on their exit sides, the
      answer is orthogonal, as written and corrected. It ends exactly on the
      target anchor unless, as written, it comes from the trapped-centre
      branch. */
  lemma RouteOrthogonal(fromRect: Rect, fromPoint: Point, fromDirection: Direction,
                        toRect: Rect, toPoint: Point, toDirection: Direction, tail: Tail)
    requires OnSide(fromPoint, fromRect, fromDirection) && OnSide(toPoint, toRect, toDirection)
    ensures var raw := RawRoute(fromRect, fromPoint, fromDirection, toRect, toPoint, toDirection, tail);
      var r := ShortestPathWith(fromRect, fromPoint, fromDirection, toRect, toPoint, toDirection, tail);
      raw.Success? && raw.value.Some? && AllIntegral(raw.value.value) ==>
        && r.Success? && IsOrthogonal(r.value)
        && (tail == Reversed || !OpensTrapped(fromRect, fromPoint, fromDirection, toRect, toPoint, toDirection) ==>
              r.value[|r.value| - 1] == toPoint)
  {
    var raw := RawRoute(fromRect, fromPoint, fromDirection, toRect, toPoint, toDirection, tail);
    if raw.Success? && raw.value.Some? && AllIntegral(raw.value.value) {
      var p := raw.value.value;
      RawRouteSettles(fromRect, fromPoint, fromDirection, toRect, toPoint, toDirection, tail);
      RawRouteOrthogonal(fromRect, fromPoint, fromDirection, toRect, toPoint, toDirection, tail);
      SimplifyKeepsOrthogonal(p);
    }
  }
}
