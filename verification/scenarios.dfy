/** Concrete routes from the sil/test.ts expectations, and the input that
    shows the as-written target detour ending away from the target. Each
    scenario is proved in small steps: strategy, detours, candidate
    validity, cheapest choice, simplification. */
module Scenarios {
  import opened Geometry
  import opened Outcomes
  import opened Cost
  import opened Candidates
  import opened Simplify
  import opened Router

  /** The centre lines of a rectangle with whole-number sides. */
  lemma CrossLinesOfWholeRect(r: Rect, w: nat, h: nat)
    requires r.width == w as real && r.height == h as real
    ensures GetRectCrossLines(r)
         == (Line(Point(r.left + ((w + 1) / 2) as real, r.top), Point(r.left + ((w + 1) / 2) as real, r.top + r.height)),
             Line(Point(r.left, r.top + ((h + 1) / 2) as real), Point(r.left + r.width, r.top + ((h + 1) / 2) as real)))
  {
    HalfOfNatural(w);
    HalfOfNatural(h);
  }

  // Test "no gap twice moving right -> left": the gap centre (9, 9) lies inside
  // both squares, so both anchors detour and the source-side detour wins.

  lemma TwiceRightToLeftDetours()
    ensures GetGapCenterOfTwoRects(Rect(0.0, 0.0, 10.0, 10.0), Rect(8.0, 8.0, 10.0, 10.0)) == Point(9.0, 9.0)
    ensures MovingTwice(Point(10.0, 2.0), Rect(0.0, 0.0, 10.0, 10.0), Right, Rect(8.0, 8.0, 10.0, 10.0))
         == Success([Point(10.0, 2.0), Point(10.0, 0.0), Point(0.0, 0.0)])
    ensures MovingTwice(Point(8.0, 10.0), Rect(8.0, 8.0, 10.0, 10.0), Left, Rect(0.0, 0.0, 10.0, 10.0))
         == Success([Point(8.0, 10.0), Point(8.0, 18.0), Point(18.0, 18.0)])
  {
  }

  /** A path is valid when none of its segments hits either rectangle. */
  lemma ValidBySegments(path: Path, r1: Rect, r2: Rect, rule: IntersectionRule)
    requires forall i :: 0 < i < |path| ==> !SegmentHits(path, i, r1, rule) && !SegmentHits(path, i, r2, rule)
    ensures IsValidPath(path, r1, r2, rule)
  {
  }

  lemma TwiceRightToLeftFirstInvalid()
    ensures !IsValidPath([Point(10.0, 2.0), Point(10.0, 0.0), Point(0.0, 0.0), Point(8.0, 0.0), Point(8.0, 10.0)],
                         Rect(0.0, 0.0, 10.0, 10.0), Rect(8.0, 8.0, 10.0, 10.0), CrossLines)
  {
    CrossLinesOfWholeRect(Rect(0.0, 0.0, 10.0, 10.0), 10, 10);
    var p := [Point(10.0, 2.0), Point(10.0, 0.0), Point(0.0, 0.0), Point(8.0, 0.0), Point(8.0, 10.0)];
    assert SegmentHits(p, 4, Rect(0.0, 0.0, 10.0, 10.0), CrossLines);
  }

  lemma TwiceRightToLeftSecondValid()
    ensures IsValidPath([Point(10.0, 2.0), Point(10.0, 0.0), Point(0.0, 0.0), Point(0.0, 10.0), Point(8.0, 10.0)],
                        Rect(0.0, 0.0, 10.0, 10.0), Rect(8.0, 8.0, 10.0, 10.0), CrossLines)
  {
    CrossLinesOfWholeRect(Rect(0.0, 0.0, 10.0, 10.0), 10, 10);
    CrossLinesOfWholeRect(Rect(8.0, 8.0, 10.0, 10.0), 10, 10);
    ValidBySegments([Point(10.0, 2.0), Point(10.0, 0.0), Point(0.0, 0.0), Point(0.0, 10.0), Point(8.0, 10.0)],
                    Rect(0.0, 0.0, 10.0, 10.0), Rect(8.0, 8.0, 10.0, 10.0), CrossLines);
  }

  lemma TwiceRightToLeftThirdValid(last: Point)
    requires last == Point(8.0, 10.0) || last == Point(18.0, 18.0)
    ensures IsValidPath([Point(10.0, 2.0), Point(18.0, 2.0), Point(18.0, 18.0), Point(8.0, 18.0), last],
                        Rect(0.0, 0.0, 10.0, 10.0), Rect(8.0, 8.0, 10.0, 10.0), CrossLines)
  {
    if last == Point(8.0, 10.0) {
      TwiceRightToLeftThirdValidHome();
    } else {
      TwiceRightToLeftThirdValidBack();
    }
  }

  lemma TwiceRightToLeftThirdValidHome()
    ensures IsValidPath([Point(10.0, 2.0), Point(18.0, 2.0), Point(18.0, 18.0), Point(8.0, 18.0), Point(8.0, 10.0)],
                        Rect(0.0, 0.0, 10.0, 10.0), Rect(8.0, 8.0, 10.0, 10.0), CrossLines)
  {
    CrossLinesOfWholeRect(Rect(0.0, 0.0, 10.0, 10.0), 10, 10);
    CrossLinesOfWholeRect(Rect(8.0, 8.0, 10.0, 10.0), 10, 10);
    ValidBySegments([Point(10.0, 2.0), Point(18.0, 2.0), Point(18.0, 18.0), Point(8.0, 18.0), Point(8.0, 10.0)],
                    Rect(0.0, 0.0, 10.0, 10.0), Rect(8.0, 8.0, 10.0, 10.0), CrossLines);
  }

  lemma TwiceRightToLeftThirdValidBack()
    ensures IsValidPath([Point(10.0, 2.0), Point(18.0, 2.0), Point(18.0, 18.0), Point(8.0, 18.0), Point(18.0, 18.0)],
                        Rect(0.0, 0.0, 10.0, 10.0), Rect(8.0, 8.0, 10.0, 10.0), CrossLines)
  {
    CrossLinesOfWholeRect(Rect(0.0, 0.0, 10.0, 10.0), 10, 10);
    CrossLinesOfWholeRect(Rect(8.0, 8.0, 10.0, 10.0), 10, 10);
    ValidBySegments([Point(10.0, 2.0), Point(18.0, 2.0), Point(18.0, 18.0), Point(8.0, 18.0), Point(18.0, 18.0)],
                    Rect(0.0, 0.0, 10.0, 10.0), Rect(8.0, 8.0, 10.0, 10.0), CrossLines);
  }

  lemma TwiceRightToLeftFourthInvalid(last: Point)
    ensures !IsValidPath([Point(10.0, 2.0), Point(10.0, 18.0), Point(18.0, 18.0), Point(8.0, 18.0), last],
                         Rect(0.0, 0.0, 10.0, 10.0), Rect(8.0, 8.0, 10.0, 10.0), CrossLines)
  {
    CrossLinesOfWholeRect(Rect(8.0, 8.0, 10.0, 10.0), 10, 10);
    var p := [Point(10.0, 2.0), Point(10.0, 18.0), Point(18.0, 18.0), Point(8.0, 18.0), last];
    assert SegmentHits(p, 1, Rect(8.0, 8.0, 10.0, 10.0), CrossLines);
  }

  /** The detour round the source square costs 30. The one round the target
      square costs 42 with its detour walked back to the target, and 44 with
      the detour as written, which ends back at the far corner (18, 18). */
  lemma TwiceRightToLeftCheapest(last: Point)
    requires last == Point(8.0, 10.0) || last == Point(18.0, 18.0)
    ensures var c2 := [Point(10.0, 2.0), Point(10.0, 0.0), Point(0.0, 0.0), Point(0.0, 10.0), Point(8.0, 10.0)];
      var c3 := [Point(10.0, 2.0), Point(18.0, 2.0), Point(18.0, 18.0), Point(8.0, 18.0), last];
      && PathCost(c2) == 30.0
      && PathCost(c3) == (if last == Point(8.0, 10.0) then 42.0 else 44.0)
      && MinPaths([c2, c3]) == Some(c2)
  {
    TwiceRightToLeftSourceCost();
    TwiceRightToLeftTargetCost(last);
    MinPathsOfPair([Point(10.0, 2.0), Point(10.0, 0.0), Point(0.0, 0.0), Point(0.0, 10.0), Point(8.0, 10.0)],
                   [Point(10.0, 2.0), Point(18.0, 2.0), Point(18.0, 18.0), Point(8.0, 18.0), last]);
  }

  lemma TwiceRightToLeftSourceCost()
    ensures PathCost([Point(10.0, 2.0), Point(10.0, 0.0), Point(0.0, 0.0), Point(0.0, 10.0), Point(8.0, 10.0)]) == 30.0
  {
    PathCostOfFive(Point(10.0, 2.0), Point(10.0, 0.0), Point(0.0, 0.0), Point(0.0, 10.0), Point(8.0, 10.0));
  }

  lemma TwiceRightToLeftTargetCost(last: Point)
    requires last == Point(8.0, 10.0) || last == Point(18.0, 18.0)
    ensures PathCost([Point(10.0, 2.0), Point(18.0, 2.0), Point(18.0, 18.0), Point(8.0, 18.0), last])
         == (if last == Point(8.0, 10.0) then 42.0 else 44.0)
  {
    PathCostOfFive(Point(10.0, 2.0), Point(18.0, 2.0), Point(18.0, 18.0), Point(8.0, 18.0), last);
    if last == Point(8.0, 10.0) {
      assert ManhattanDistance(Point(8.0, 18.0), last) == 8.0;
    } else {
      assert ManhattanDistance(Point(8.0, 18.0), last) == 10.0;
    }
  }

  lemma TwiceRightToLeftCandidates(tail: Tail)
    ensures var last := if tail == Reversed then Point(8.0, 10.0) else Point(18.0, 18.0);
      TrappedCandidates(Point(10.0, 2.0), (Point(10.0, 0.0), Point(0.0, 0.0)),
                        Point(8.0, 10.0), (Point(8.0, 18.0), Point(18.0, 18.0)), tail)
      == [[Point(10.0, 2.0), Point(10.0, 0.0), Point(0.0, 0.0), Point(8.0, 0.0), Point(8.0, 10.0)],
          [Point(10.0, 2.0), Point(10.0, 0.0), Point(0.0, 0.0), Point(0.0, 10.0), Point(8.0, 10.0)],
          [Point(10.0, 2.0), Point(18.0, 2.0), Point(18.0, 18.0), Point(8.0, 18.0), last],
          [Point(10.0, 2.0), Point(10.0, 18.0), Point(18.0, 18.0), Point(8.0, 18.0), last]]
  {
    TrappedCandidatesPoints(Point(10.0, 2.0), (Point(10.0, 0.0), Point(0.0, 0.0)),
                            Point(8.0, 10.0), (Point(8.0, 18.0), Point(18.0, 18.0)), tail);
  }

  /** Filtering four candidates of which only the middle two are valid. */
  lemma KeepMiddleTwo(a: Path, b: Path, c: Path, d: Path, r1: Rect, r2: Rect, rule: IntersectionRule)
    requires !IsValidPath(a, r1, r2, rule) && IsValidPath(b, r1, r2, rule)
    requires IsValidPath(c, r1, r2, rule) && !IsValidPath(d, r1, r2, rule)
    ensures GetValidPathsByRects([a, b, c, d], r1, r2, rule) == [b, c]
  {
    assert [a, b, c, d][1..] == [b, c, d];
    assert [b, c, d][1..] == [c, d];
    assert [c, d][1..] == [d];
    assert [d][1..] == [];
    assert GetValidPathsByRects([d], r1, r2, rule) == [];
    assert GetValidPathsByRects([c, d], r1, r2, rule) == [c];
    assert GetValidPathsByRects([b, c, d], r1, r2, rule) == [b, c];
  }

  /** Of the four detour candidates, for either tail, exactly the middle two
      are valid. */
  lemma TwiceRightToLeftFiltered(last: Point)
    requires last == Point(8.0, 10.0) || last == Point(18.0, 18.0)
    ensures var c1 := [Point(10.0, 2.0), Point(10.0, 0.0), Point(0.0, 0.0), Point(8.0, 0.0), Point(8.0, 10.0)];
      var c2 := [Point(10.0, 2.0), Point(10.0, 0.0), Point(0.0, 0.0), Point(0.0, 10.0), Point(8.0, 10.0)];
      var c3 := [Point(10.0, 2.0), Point(18.0, 2.0), Point(18.0, 18.0), Point(8.0, 18.0), last];
      var c4 := [Point(10.0, 2.0), Point(10.0, 18.0), Point(18.0, 18.0), Point(8.0, 18.0), last];
      GetValidPathsByRects([c1, c2, c3, c4], Rect(0.0, 0.0, 10.0, 10.0), Rect(8.0, 8.0, 10.0, 10.0), CrossLines) == [c2, c3]
  {
    var r1, r2 := Rect(0.0, 0.0, 10.0, 10.0), Rect(8.0, 8.0, 10.0, 10.0);
    var c1 := [Point(10.0, 2.0), Point(10.0, 0.0), Point(0.0, 0.0), Point(8.0, 0.0), Point(8.0, 10.0)];
    var c2 := [Point(10.0, 2.0), Point(10.0, 0.0), Point(0.0, 0.0), Point(0.0, 10.0), Point(8.0, 10.0)];
    var c3 := [Point(10.0, 2.0), Point(18.0, 2.0), Point(18.0, 18.0), Point(8.0, 18.0), last];
    var c4 := [Point(10.0, 2.0), Point(10.0, 18.0), Point(18.0, 18.0), Point(8.0, 18.0), last];
    TwiceRightToLeftFirstInvalid();
    TwiceRightToLeftSecondValid();
    TwiceRightToLeftThirdValid(last);
    TwiceRightToLeftFourthInvalid(last);
    KeepMiddleTwo(c1, c2, c3, c4, r1, r2, CrossLines);
  }

  lemma TwiceRightToLeftTrapped(tail: Tail)
    ensures TrappedStrategy(Rect(0.0, 0.0, 10.0, 10.0), Point(10.0, 2.0), Right,
                            Rect(8.0, 8.0, 10.0, 10.0), Point(8.0, 10.0), Left, tail)
         == Success(Some([Point(10.0, 2.0), Point(10.0, 0.0), Point(0.0, 0.0), Point(0.0, 10.0), Point(8.0, 10.0)]))
  {
    var last := if tail == Reversed then Point(8.0, 10.0) else Point(18.0, 18.0);
    TwiceRightToLeftDetours();
    TwiceRightToLeftCandidates(tail);
    TwiceRightToLeftFiltered(last);
    TwiceRightToLeftCheapest(last);
  }

  /** A route with no near duplicates is left as it is by `simplifyPath`. */
  lemma SimplifyFivePoints(a: Point, b: Point, c: Point, d: Point, e: Point)
    requires !IsSamePoint(a, b) && !IsSamePoint(b, c) && !IsSamePoint(c, d) && !IsSamePoint(d, e)
    requires !IsSamePoint(a, c) && !IsSamePoint(b, d) && !IsSamePoint(c, e)
    ensures SimplifyPath([a, b, c, d, e]) == [a, b, c, d, e]
  {
    SimplifyKeepsCleanPath([a, b, c, d, e]);
  }

  /** A three-point route with no near duplicates is left as it is. */
  lemma SimplifyThreePoints(a: Point, b: Point, c: Point)
    requires !IsSamePoint(a, b) && !IsSamePoint(b, c) && !IsSamePoint(a, c)
    ensures SimplifyPath([a, b, c]) == [a, b, c]
  {
    SimplifyKeepsCleanPath([a, b, c]);
  }

  /** sil/test.ts, "no gap twice moving right -> left": the source as written
      gives the expected route, and so does the corrected router. */
  lemma TwiceRightToLeft()
    ensures var expected := [Point(10.0, 2.0), Point(10.0, 0.0), Point(0.0, 0.0), Point(0.0, 10.0), Point(8.0, 10.0)];
      && GetShortestPathInDiagramAsWritten(Rect(0.0, 0.0, 10.0, 10.0), Point(10.0, 2.0), Right,
                                           Rect(8.0, 8.0, 10.0, 10.0), Point(8.0, 10.0), Left) == Success(expected)
      && GetShortestPathInDiagram(Rect(0.0, 0.0, 10.0, 10.0), Point(10.0, 2.0), Right,
                                  Rect(8.0, 8.0, 10.0, 10.0), Point(8.0, 10.0), Left) == Success(expected)
  {
    TwiceRightToLeftWith(AsWritten);
    TwiceRightToLeftWith(Reversed);
  }

  lemma TwiceRightToLeftWith(tail: Tail)
    ensures ShortestPathWith(Rect(0.0, 0.0, 10.0, 10.0), Point(10.0, 2.0), Right,
                             Rect(8.0, 8.0, 10.0, 10.0), Point(8.0, 10.0), Left, tail)
         == Success([Point(10.0, 2.0), Point(10.0, 0.0), Point(0.0, 0.0), Point(0.0, 10.0), Point(8.0, 10.0)])
  {
    var r1, r2 := Rect(0.0, 0.0, 10.0, 10.0), Rect(8.0, 8.0, 10.0, 10.0);
    TwiceRightToLeftFirstRoute(tail);
    FirstRouteSettles(r1, Point(10.0, 2.0), Right, r2, Point(8.0, 10.0), Left, tail,
                      [Point(10.0, 2.0), Point(10.0, 0.0), Point(0.0, 0.0), Point(0.0, 10.0), Point(8.0, 10.0)]);
    SimplifyFivePoints(Point(10.0, 2.0), Point(10.0, 0.0), Point(0.0, 0.0), Point(0.0, 10.0), Point(8.0, 10.0));
  }

  lemma TwiceRightToLeftFirstRoute(tail: Tail)
    ensures FirstRoute(Rect(0.0, 0.0, 10.0, 10.0), Point(10.0, 2.0), Right,
                       Rect(8.0, 8.0, 10.0, 10.0), Point(8.0, 10.0), Left, tail)
         == Success(Some([Point(10.0, 2.0), Point(10.0, 0.0), Point(0.0, 0.0), Point(0.0, 10.0), Point(8.0, 10.0)]))
  {
    TwiceRightToLeftCenterInside();
    TwiceRightToLeftOpensCenter();
    TwiceRightToLeftTrapped(tail);
    TrappedCenterOpens(Rect(0.0, 0.0, 10.0, 10.0), Point(10.0, 2.0), Right,
                       Rect(8.0, 8.0, 10.0, 10.0), Point(8.0, 10.0), Left, tail);
  }

  lemma TwiceRightToLeftCenterInside()
    ensures IsPointInRect(GetGapCenterOfTwoRects(Rect(0.0, 0.0, 10.0, 10.0), Rect(8.0, 8.0, 10.0, 10.0)),
                          Rect(0.0, 0.0, 10.0, 10.0))
  {
    TwiceRightToLeftDetours();
  }

  lemma TwiceRightToLeftOpensCenter()
    ensures ChooseStrategy(Rect(0.0, 0.0, 10.0, 10.0), Point(10.0, 2.0), Right,
                           Rect(8.0, 8.0, 10.0, 10.0), Point(8.0, 10.0), Left) == Center
  {
  }

  /** A SIL opening is final once simplified, whichever way the target
      detour is attached. */
  lemma SilOpens(fromRect: Rect, fromPoint: Point, fromDirection: Direction,
                 toRect: Rect, toPoint: Point, toDirection: Direction, tail: Tail, p: Path)
    requires ChooseStrategy(fromRect, fromPoint, fromDirection, toRect, toPoint, toDirection) == SingleInflection
    requires SilStrategy(fromRect, fromPoint, fromDirection, toRect, toPoint) == Some(p)
    ensures ShortestPathWith(fromRect, fromPoint, fromDirection, toRect, toPoint, toDirection, tail) == Success(SimplifyPath(p))
  {
    FirstRouteSettles(fromRect, fromPoint, fromDirection, toRect, toPoint, toDirection, tail, p);
  }

  // Test "gap sil left top down up, top -> left": both SILs are clear, and the
  // source anchor faces up, so the vertical-first one is taken.

  lemma GapSilTopToLeftValidity()
    ensures var r1, r2 := Rect(0.0, 12.0, 10.0, 10.0), Rect(12.0, 0.0, 10.0, 10.0);
      && IsValidPath([Point(2.0, 12.0), Point(12.0, 12.0), Point(12.0, 2.0)], r1, r2, CrossLines)
      && IsValidPath([Point(2.0, 12.0), Point(2.0, 2.0), Point(12.0, 2.0)], r1, r2, CrossLines)
  {
    CrossLinesOfWholeRect(Rect(0.0, 12.0, 10.0, 10.0), 10, 10);
    CrossLinesOfWholeRect(Rect(12.0, 0.0, 10.0, 10.0), 10, 10);
  }

  lemma GapSilTopToLeftSil()
    ensures SilStrategy(Rect(0.0, 12.0, 10.0, 10.0), Point(2.0, 12.0), Top, Rect(12.0, 0.0, 10.0, 10.0), Point(12.0, 2.0))
         == Some([Point(2.0, 12.0), Point(2.0, 2.0), Point(12.0, 2.0)])
  {
    GapSilTopToLeftValidity();
  }

  /** sil/test.ts, "gap sil left top down up, top -> left", on the source
      as written and on the corrected router. */
  lemma GapSilTopToLeft()
    ensures var expected := [Point(2.0, 12.0), Point(2.0, 2.0), Point(12.0, 2.0)];
      && GetShortestPathInDiagramAsWritten(Rect(0.0, 12.0, 10.0, 10.0), Point(2.0, 12.0), Top,
                                           Rect(12.0, 0.0, 10.0, 10.0), Point(12.0, 2.0), Left) == Success(expected)
      && GetShortestPathInDiagram(Rect(0.0, 12.0, 10.0, 10.0), Point(2.0, 12.0), Top,
                                  Rect(12.0, 0.0, 10.0, 10.0), Point(12.0, 2.0), Left) == Success(expected)
  {
    var r1, r2 := Rect(0.0, 12.0, 10.0, 10.0), Rect(12.0, 0.0, 10.0, 10.0);
    var v := [Point(2.0, 12.0), Point(2.0, 2.0), Point(12.0, 2.0)];
    GapSilTopToLeftSil();
    assert ChooseStrategy(r1, Point(2.0, 12.0), Top, r2, Point(12.0, 2.0), Left) == SingleInflection;
    SilOpens(r1, Point(2.0, 12.0), Top, r2, Point(12.0, 2.0), Left, AsWritten, v);
    SilOpens(r1, Point(2.0, 12.0), Top, r2, Point(12.0, 2.0), Left, Reversed, v);
    SimplifyThreePoints(v[0], v[1], v[2]);
  }

  /** A route that runs out to a corner and straight back loses the spike. */
  lemma SimplifySpike(a: Point, b: Point, c: Point, d: Point)
    requires !IsSamePoint(a, b) && !IsSamePoint(b, c) && !IsSamePoint(c, d)
    requires !IsSamePoint(a, c) && !IsSamePoint(b, d)
    ensures SimplifyPath([a, b, c, d, c]) == [a, b, c]
  {
    SimplifyKeepsCleanPath([a, b, c, d]);
    assert [a, b, c, d, c][..4] == [a, b, c, d];
    assert [a, b, c, d][..3] == [a, b, c];
    SamePointIsEquivalence(c, c, c);
  }

  /** Anchors facing away from each other with the gap centre clear open
      with the route through the gap. */
  lemma GapCenterOpens(fromRect: Rect, fromPoint: Point, fromDirection: Direction,
                       toRect: Rect, toPoint: Point, toDirection: Direction, tail: Tail, p: Path)
    requires !IsPointInRect(fromPoint, toRect) && !IsPointInRect(toPoint, fromRect)
    requires toDirection == Opposite(fromDirection)
    requires var c := GetGapCenterOfTwoRects(fromRect, toRect); !IsPointInRect(c, fromRect) && !IsPointInRect(c, toRect)
    requires CenterStrategyThroughGap(fromRect, fromPoint, fromDirection, toRect, toPoint, CrossLines) == Some(p)
    ensures FirstRoute(fromRect, fromPoint, fromDirection, toRect, toPoint, toDirection, tail) == Success(Some(p))
  {
    assert ChooseStrategy(fromRect, fromPoint, fromDirection, toRect, toPoint, toDirection) == Center;
  }

  /** An anchor leaving sideways takes the horizontal-first route through the
      gap whenever that one is valid; leaving up or down, the vertical-first. */
  lemma GapCenterByExitAxis(fromRect: Rect, fromPoint: Point, fromDirection: Direction,
                            toRect: Rect, toPoint: Point)
    ensures var c := GetGapCenterOfTwoRects(fromRect, toRect);
      var h := HorizontalCenterPath(fromPoint, toPoint, c);
      var v := VerticalCenterPath(fromPoint, toPoint, c);
      var r := CenterStrategyThroughGap(fromRect, fromPoint, fromDirection, toRect, toPoint, CrossLines);
      && ((fromDirection == Left || fromDirection == Right) && IsValidPath(h, fromRect, toRect, CrossLines) ==> r == Some(h))
      && ((fromDirection == Top || fromDirection == Bottom) && IsValidPath(v, fromRect, toRect, CrossLines) ==> r == Some(v))
  {
  }

  /** A route that runs on past a corner and straight back to it loses the
      overshoot. */
  lemma SimplifyOvershoot(a: Point, b: Point, c: Point, e: Point)
    requires !IsSamePoint(a, b) && !IsSamePoint(b, c) && !IsSamePoint(a, c)
    requires !IsSamePoint(b, e) && !IsSamePoint(a, e)
    ensures SimplifyPath([a, b, c, b, e]) == [a, b, e]
  {
    SimplifyKeepsCleanPath([a, b, c]);
    assert [a, b, c, b, e][..4] == [a, b, c, b];
    assert [a, b, c, b][..3] == [a, b, c];
    assert [a, b, c][..2] == [a, b];
    SamePointIsEquivalence(b, b, b);
  }

  // Test "rect vertically inside the other rect": the target square's rows lie
  // within the source's, the gap centre (13, 6) is clear, and the route
  // through it leaving sideways runs out to x = 13 and back, which is
  // simplified away.

  lemma VerticallyInsideCenter()
    ensures GetGapCenterOfTwoRects(Rect(0.0, 0.0, 10.0, 10.0), Rect(16.0, 2.0, 10.0, 8.0)) == Point(13.0, 6.0)
  {
  }

  lemma VerticallyInsideValid()
    ensures IsValidPath(HorizontalCenterPath(Point(10.0, 5.0), Point(16.0, 5.0), Point(13.0, 6.0)),
                        Rect(0.0, 0.0, 10.0, 10.0), Rect(16.0, 2.0, 10.0, 8.0), CrossLines)
  {
    CrossLinesOfWholeRect(Rect(0.0, 0.0, 10.0, 10.0), 10, 10);
    CrossLinesOfWholeRect(Rect(16.0, 2.0, 10.0, 8.0), 10, 8);
  }

  lemma VerticallyInsideFirstRoute(tail: Tail)
    ensures FirstRoute(Rect(0.0, 0.0, 10.0, 10.0), Point(10.0, 5.0), Right,
                       Rect(16.0, 2.0, 10.0, 8.0), Point(16.0, 5.0), Left, tail)
         == Success(Some([Point(10.0, 5.0), Point(13.0, 5.0), Point(13.0, 6.0), Point(13.0, 5.0), Point(16.0, 5.0)]))
  {
    var r1, r2 := Rect(0.0, 0.0, 10.0, 10.0), Rect(16.0, 2.0, 10.0, 8.0);
    VerticallyInsideCenter();
    VerticallyInsideValid();
    GapCenterByExitAxis(r1, Point(10.0, 5.0), Right, r2, Point(16.0, 5.0));
    assert HorizontalCenterPath(Point(10.0, 5.0), Point(16.0, 5.0), Point(13.0, 6.0)) == [Point(10.0, 5.0), Point(13.0, 5.0), Point(13.0, 6.0), Point(13.0, 5.0), Point(16.0, 5.0)];
    GapCenterOpens(r1, Point(10.0, 5.0), Right, r2, Point(16.0, 5.0), Left, tail, [Point(10.0, 5.0), Point(13.0, 5.0), Point(13.0, 6.0), Point(13.0, 5.0), Point(16.0, 5.0)]);
  }

  /** sil/test.ts, "rect vertically inside the other rect", on the source as
      written and on the corrected router. */
  lemma VerticallyInside()
    ensures var expected := [Point(10.0, 5.0), Point(13.0, 5.0), Point(16.0, 5.0)];
      && GetShortestPathInDiagramAsWritten(Rect(0.0, 0.0, 10.0, 10.0), Point(10.0, 5.0), Right,
                                           Rect(16.0, 2.0, 10.0, 8.0), Point(16.0, 5.0), Left) == Success(expected)
      && GetShortestPathInDiagram(Rect(0.0, 0.0, 10.0, 10.0), Point(10.0, 5.0), Right,
                                  Rect(16.0, 2.0, 10.0, 8.0), Point(16.0, 5.0), Left) == Success(expected)
  {
    VerticallyInsideWith(AsWritten);
    VerticallyInsideWith(Reversed);
  }

  lemma VerticallyInsideWith(tail: Tail)
    ensures ShortestPathWith(Rect(0.0, 0.0, 10.0, 10.0), Point(10.0, 5.0), Right,
                             Rect(16.0, 2.0, 10.0, 8.0), Point(16.0, 5.0), Left, tail)
         == Success([Point(10.0, 5.0), Point(13.0, 5.0), Point(16.0, 5.0)])
  {
    VerticallyInsideFirstRoute(tail);
    FirstRouteSettles(Rect(0.0, 0.0, 10.0, 10.0), Point(10.0, 5.0), Right,
                      Rect(16.0, 2.0, 10.0, 8.0), Point(16.0, 5.0), Left, tail,
                      [Point(10.0, 5.0), Point(13.0, 5.0), Point(13.0, 6.0), Point(13.0, 5.0), Point(16.0, 5.0)]);
    SimplifyOvershoot(Point(10.0, 5.0), Point(13.0, 5.0), Point(13.0, 6.0), Point(16.0, 5.0));
  }

  // Test "rect horizontally inside the other rect": the same layout turned a
  // quarter, with the gap centre at (6, 13) and the route leaving downwards.

  lemma HorizontallyInsideCenter()
    ensures GetGapCenterOfTwoRects(Rect(0.0, 0.0, 10.0, 10.0), Rect(2.0, 16.0, 10.0, 8.0)) == Point(6.0, 13.0)
  {
  }

  lemma HorizontallyInsideValid()
    ensures IsValidPath(VerticalCenterPath(Point(5.0, 10.0), Point(5.0, 16.0), Point(6.0, 13.0)),
                        Rect(0.0, 0.0, 10.0, 10.0), Rect(2.0, 16.0, 10.0, 8.0), CrossLines)
  {
    HorizontallyInsideMissesSource();
    HorizontallyInsideMissesTarget();
  }

  lemma HorizontallyInsideMissesSource()
    ensures !IsRegularPathIntersectedWithRect(VerticalCenterPath(Point(5.0, 10.0), Point(5.0, 16.0), Point(6.0, 13.0)),
                                              Rect(0.0, 0.0, 10.0, 10.0), CrossLines)
  {
    CrossLinesOfWholeRect(Rect(0.0, 0.0, 10.0, 10.0), 10, 10);
  }

  lemma HorizontallyInsideMissesTarget()
    ensures !IsRegularPathIntersectedWithRect(VerticalCenterPath(Point(5.0, 10.0), Point(5.0, 16.0), Point(6.0, 13.0)),
                                              Rect(2.0, 16.0, 10.0, 8.0), CrossLines)
  {
    CrossLinesOfWholeRect(Rect(2.0, 16.0, 10.0, 8.0), 10, 8);
  }

  lemma HorizontallyInsideFirstRoute(tail: Tail)
    ensures FirstRoute(Rect(0.0, 0.0, 10.0, 10.0), Point(5.0, 10.0), Bottom,
                       Rect(2.0, 16.0, 10.0, 8.0), Point(5.0, 16.0), Top, tail)
         == Success(Some([Point(5.0, 10.0), Point(5.0, 13.0), Point(6.0, 13.0), Point(5.0, 13.0), Point(5.0, 16.0)]))
  {
    var r1, r2 := Rect(0.0, 0.0, 10.0, 10.0), Rect(2.0, 16.0, 10.0, 8.0);
    HorizontallyInsideCenter();
    HorizontallyInsideValid();
    GapCenterByExitAxis(r1, Point(5.0, 10.0), Bottom, r2, Point(5.0, 16.0));
    assert VerticalCenterPath(Point(5.0, 10.0), Point(5.0, 16.0), Point(6.0, 13.0)) == [Point(5.0, 10.0), Point(5.0, 13.0), Point(6.0, 13.0), Point(5.0, 13.0), Point(5.0, 16.0)];
    GapCenterOpens(r1, Point(5.0, 10.0), Bottom, r2, Point(5.0, 16.0), Top, tail, [Point(5.0, 10.0), Point(5.0, 13.0), Point(6.0, 13.0), Point(5.0, 13.0), Point(5.0, 16.0)]);
  }

  /** sil/test.ts, "rect horizontally inside the other rect", on the source as
      written and on the corrected router. */
  lemma HorizontallyInside()
    ensures var expected := [Point(5.0, 10.0), Point(5.0, 13.0), Point(5.0, 16.0)];
      && GetShortestPathInDiagramAsWritten(Rect(0.0, 0.0, 10.0, 10.0), Point(5.0, 10.0), Bottom,
                                           Rect(2.0, 16.0, 10.0, 8.0), Point(5.0, 16.0), Top) == Success(expected)
      && GetShortestPathInDiagram(Rect(0.0, 0.0, 10.0, 10.0), Point(5.0, 10.0), Bottom,
                                  Rect(2.0, 16.0, 10.0, 8.0), Point(5.0, 16.0), Top) == Success(expected)
  {
    HorizontallyInsideWith(AsWritten);
    HorizontallyInsideWith(Reversed);
  }

  lemma HorizontallyInsideWith(tail: Tail)
    ensures ShortestPathWith(Rect(0.0, 0.0, 10.0, 10.0), Point(5.0, 10.0), Bottom,
                             Rect(2.0, 16.0, 10.0, 8.0), Point(5.0, 16.0), Top, tail)
         == Success([Point(5.0, 10.0), Point(5.0, 13.0), Point(5.0, 16.0)])
  {
    HorizontallyInsideFirstRoute(tail);
    FirstRouteSettles(Rect(0.0, 0.0, 10.0, 10.0), Point(5.0, 10.0), Bottom,
                      Rect(2.0, 16.0, 10.0, 8.0), Point(5.0, 16.0), Top, tail,
                      [Point(5.0, 10.0), Point(5.0, 13.0), Point(6.0, 13.0), Point(5.0, 13.0), Point(5.0, 16.0)]);
    SimplifyOvershoot(Point(5.0, 10.0), Point(5.0, 13.0), Point(6.0, 13.0), Point(5.0, 16.0));
  }

  // The target detour attached in its own order: source (8, 10) on the left
  // side of the square at (8, 8), target (10, 2) on the right side of the
  // square at the origin. This is the first test's layout with the roles
  // swapped. The gap centre (9, 9) is inside both squares.

  lemma DetourTailCenter()
    ensures GetGapCenterOfTwoRects(Rect(8.0, 8.0, 10.0, 10.0), Rect(0.0, 0.0, 10.0, 10.0)) == Point(9.0, 9.0)
  {
  }

  lemma DetourTailOpensCenter()
    ensures ChooseStrategy(Rect(8.0, 8.0, 10.0, 10.0), Point(8.0, 10.0), Left,
                           Rect(0.0, 0.0, 10.0, 10.0), Point(10.0, 2.0), Right) == Center
  {
  }

  lemma DetourTailSourceDetour()
    ensures MovingTwice(Point(8.0, 10.0), Rect(8.0, 8.0, 10.0, 10.0), Left, Rect(0.0, 0.0, 10.0, 10.0))
         == Success([Point(8.0, 10.0), Point(8.0, 18.0), Point(18.0, 18.0)])
  {
  }

  lemma DetourTailTargetDetour()
    ensures MovingTwice(Point(10.0, 2.0), Rect(0.0, 0.0, 10.0, 10.0), Right, Rect(8.0, 8.0, 10.0, 10.0))
         == Success([Point(10.0, 2.0), Point(10.0, 0.0), Point(0.0, 0.0)])
  {
  }

  lemma DetourTailFirstInvalid()
    ensures !IsValidPath([Point(8.0, 10.0), Point(8.0, 18.0), Point(18.0, 18.0), Point(10.0, 18.0), Point(10.0, 2.0)],
                         Rect(8.0, 8.0, 10.0, 10.0), Rect(0.0, 0.0, 10.0, 10.0), CrossLines)
  {
    CrossLinesOfWholeRect(Rect(8.0, 8.0, 10.0, 10.0), 10, 10);
    var p := [Point(8.0, 10.0), Point(8.0, 18.0), Point(18.0, 18.0), Point(10.0, 18.0), Point(10.0, 2.0)];
    assert SegmentHits(p, 4, Rect(8.0, 8.0, 10.0, 10.0), CrossLines);
  }

  lemma DetourTailSecondValid()
    ensures IsValidPath([Point(8.0, 10.0), Point(8.0, 18.0), Point(18.0, 18.0), Point(18.0, 2.0), Point(10.0, 2.0)],
                        Rect(8.0, 8.0, 10.0, 10.0), Rect(0.0, 0.0, 10.0, 10.0), CrossLines)
  {
    CrossLinesOfWholeRect(Rect(8.0, 8.0, 10.0, 10.0), 10, 10);
    CrossLinesOfWholeRect(Rect(0.0, 0.0, 10.0, 10.0), 10, 10);
    ValidBySegments([Point(8.0, 10.0), Point(8.0, 18.0), Point(18.0, 18.0), Point(18.0, 2.0), Point(10.0, 2.0)],
                    Rect(8.0, 8.0, 10.0, 10.0), Rect(0.0, 0.0, 10.0, 10.0), CrossLines);
  }

  lemma DetourTailThirdValid(last: Point)
    requires last == Point(0.0, 0.0) || last == Point(10.0, 2.0)
    ensures IsValidPath([Point(8.0, 10.0), Point(0.0, 10.0), Point(0.0, 0.0), Point(10.0, 0.0), last],
                        Rect(8.0, 8.0, 10.0, 10.0), Rect(0.0, 0.0, 10.0, 10.0), CrossLines)
  {
    if last == Point(0.0, 0.0) {
      DetourTailThirdValidBack();
    } else {
      DetourTailThirdValidHome();
    }
  }

  lemma DetourTailThirdValidBack()
    ensures IsValidPath([Point(8.0, 10.0), Point(0.0, 10.0), Point(0.0, 0.0), Point(10.0, 0.0), Point(0.0, 0.0)],
                        Rect(8.0, 8.0, 10.0, 10.0), Rect(0.0, 0.0, 10.0, 10.0), CrossLines)
  {
    CrossLinesOfWholeRect(Rect(8.0, 8.0, 10.0, 10.0), 10, 10);
    CrossLinesOfWholeRect(Rect(0.0, 0.0, 10.0, 10.0), 10, 10);
    ValidBySegments([Point(8.0, 10.0), Point(0.0, 10.0), Point(0.0, 0.0), Point(10.0, 0.0), Point(0.0, 0.0)],
                    Rect(8.0, 8.0, 10.0, 10.0), Rect(0.0, 0.0, 10.0, 10.0), CrossLines);
  }

  lemma DetourTailThirdValidHome()
    ensures IsValidPath([Point(8.0, 10.0), Point(0.0, 10.0), Point(0.0, 0.0), Point(10.0, 0.0), Point(10.0, 2.0)],
                        Rect(8.0, 8.0, 10.0, 10.0), Rect(0.0, 0.0, 10.0, 10.0), CrossLines)
  {
    CrossLinesOfWholeRect(Rect(8.0, 8.0, 10.0, 10.0), 10, 10);
    CrossLinesOfWholeRect(Rect(0.0, 0.0, 10.0, 10.0), 10, 10);
    ValidBySegments([Point(8.0, 10.0), Point(0.0, 10.0), Point(0.0, 0.0), Point(10.0, 0.0), Point(10.0, 2.0)],
                    Rect(8.0, 8.0, 10.0, 10.0), Rect(0.0, 0.0, 10.0, 10.0), CrossLines);
  }

  lemma DetourTailFourthInvalid(last: Point)
    ensures !IsValidPath([Point(8.0, 10.0), Point(8.0, 0.0), Point(0.0, 0.0), Point(10.0, 0.0), last],
                         Rect(8.0, 8.0, 10.0, 10.0), Rect(0.0, 0.0, 10.0, 10.0), CrossLines)
  {
    CrossLinesOfWholeRect(Rect(0.0, 0.0, 10.0, 10.0), 10, 10);
    var p := [Point(8.0, 10.0), Point(8.0, 0.0), Point(0.0, 0.0), Point(10.0, 0.0), last];
    assert SegmentHits(p, 1, Rect(0.0, 0.0, 10.0, 10.0), CrossLines);
  }

  lemma DetourTailFiltered(last: Point)
    requires last == Point(0.0, 0.0) || last == Point(10.0, 2.0)
    ensures var c1 := [Point(8.0, 10.0), Point(8.0, 18.0), Point(18.0, 18.0), Point(10.0, 18.0), Point(10.0, 2.0)];
      var c2 := [Point(8.0, 10.0), Point(8.0, 18.0), Point(18.0, 18.0), Point(18.0, 2.0), Point(10.0, 2.0)];
      var c3 := [Point(8.0, 10.0), Point(0.0, 10.0), Point(0.0, 0.0), Point(10.0, 0.0), last];
      var c4 := [Point(8.0, 10.0), Point(8.0, 0.0), Point(0.0, 0.0), Point(10.0, 0.0), last];
      GetValidPathsByRects([c1, c2, c3, c4], Rect(8.0, 8.0, 10.0, 10.0), Rect(0.0, 0.0, 10.0, 10.0), CrossLines) == [c2, c3]
  {
    var c1 := [Point(8.0, 10.0), Point(8.0, 18.0), Point(18.0, 18.0), Point(10.0, 18.0), Point(10.0, 2.0)];
    var c2 := [Point(8.0, 10.0), Point(8.0, 18.0), Point(18.0, 18.0), Point(18.0, 2.0), Point(10.0, 2.0)];
    var c3 := [Point(8.0, 10.0), Point(0.0, 10.0), Point(0.0, 0.0), Point(10.0, 0.0), last];
    var c4 := [Point(8.0, 10.0), Point(8.0, 0.0), Point(0.0, 0.0), Point(10.0, 0.0), last];
    DetourTailFirstInvalid();
    DetourTailSecondValid();
    DetourTailThirdValid(last);
    DetourTailFourthInvalid(last);
    KeepMiddleTwo(c1, c2, c3, c4, Rect(8.0, 8.0, 10.0, 10.0), Rect(0.0, 0.0, 10.0, 10.0), CrossLines);
  }

  lemma DetourTailCheapest(last: Point)
    requires last == Point(0.0, 0.0) || last == Point(10.0, 2.0)
    ensures var c2 := [Point(8.0, 10.0), Point(8.0, 18.0), Point(18.0, 18.0), Point(18.0, 2.0), Point(10.0, 2.0)];
      var c3 := [Point(8.0, 10.0), Point(0.0, 10.0), Point(0.0, 0.0), Point(10.0, 0.0), last];
      MinPaths([c2, c3]) == Some(c3)
  {
    var c2 := [Point(8.0, 10.0), Point(8.0, 18.0), Point(18.0, 18.0), Point(18.0, 2.0), Point(10.0, 2.0)];
    var c3 := [Point(8.0, 10.0), Point(0.0, 10.0), Point(0.0, 0.0), Point(10.0, 0.0), last];
    PathCostOfFive(c2[0], c2[1], c2[2], c2[3], c2[4]);
    PathCostOfFive(c3[0], c3[1], c3[2], c3[3], c3[4]);
    MinPathsOfPair(c2, c3);
  }

  /** The trapped-centre branch on this layout, for either tail: the
      candidate that runs round the target's square wins. */
  lemma DetourTailTrapped(tail: Tail)
    ensures var last := if tail == Reversed then Point(10.0, 2.0) else Point(0.0, 0.0);
      TrappedStrategy(Rect(8.0, 8.0, 10.0, 10.0), Point(8.0, 10.0), Left,
                      Rect(0.0, 0.0, 10.0, 10.0), Point(10.0, 2.0), Right, tail)
      == Success(Some([Point(8.0, 10.0), Point(0.0, 10.0), Point(0.0, 0.0), Point(10.0, 0.0), last]))
  {
    var last := if tail == Reversed then Point(10.0, 2.0) else Point(0.0, 0.0);
    DetourTailSourceDetour();
    DetourTailTargetDetour();
    TrappedCandidatesPoints(Point(8.0, 10.0), (Point(8.0, 18.0), Point(18.0, 18.0)),
                            Point(10.0, 2.0), (Point(10.0, 0.0), Point(0.0, 0.0)), tail);
    DetourTailFiltered(last);
    DetourTailCheapest(last);
  }

  /** As written, the to-side detour is appended in the order it was found,
      so the winning candidate ends at the far corner (0, 0) and walks back
      over it; simplification then cuts the spike and the route stops at
      (0, 0), short of the target anchor (10, 2). */
  lemma DetourTailAsWritten()
    ensures GetShortestPathInDiagramAsWritten(
              Rect(8.0, 8.0, 10.0, 10.0), Point(8.0, 10.0), Left,
              Rect(0.0, 0.0, 10.0, 10.0), Point(10.0, 2.0), Right)
         == Success([Point(8.0, 10.0), Point(0.0, 10.0), Point(0.0, 0.0)])
    ensures !IsSamePoint(Point(0.0, 0.0), Point(10.0, 2.0))
  {
    var r1, r2 := Rect(8.0, 8.0, 10.0, 10.0), Rect(0.0, 0.0, 10.0, 10.0);
    DetourTailCenter();
    DetourTailTrapped(AsWritten);
    DetourTailOpensCenter();
    TrappedCenterOpens(r1, Point(8.0, 10.0), Left, r2, Point(10.0, 2.0), Right, AsWritten);
    FirstRouteSettles(r1, Point(8.0, 10.0), Left, r2, Point(10.0, 2.0), Right, AsWritten,
                      [Point(8.0, 10.0), Point(0.0, 10.0), Point(0.0, 0.0), Point(10.0, 0.0), Point(0.0, 0.0)]);
    SimplifySpike(Point(8.0, 10.0), Point(0.0, 10.0), Point(0.0, 0.0), Point(10.0, 0.0));
  }

  /** With the detour reversed the same layout routes round the target's
      square and arrives at the target anchor. */
  lemma DetourTailReversed()
    ensures GetShortestPathInDiagram(
              Rect(8.0, 8.0, 10.0, 10.0), Point(8.0, 10.0), Left,
              Rect(0.0, 0.0, 10.0, 10.0), Point(10.0, 2.0), Right)
         == Success([Point(8.0, 10.0), Point(0.0, 10.0), Point(0.0, 0.0), Point(10.0, 0.0), Point(10.0, 2.0)])
  {
    var r1, r2 := Rect(8.0, 8.0, 10.0, 10.0), Rect(0.0, 0.0, 10.0, 10.0);
    DetourTailCenter();
    DetourTailTrapped(Reversed);
    DetourTailOpensCenter();
    TrappedCenterOpens(r1, Point(8.0, 10.0), Left, r2, Point(10.0, 2.0), Right, Reversed);
    FirstRouteSettles(r1, Point(8.0, 10.0), Left, r2, Point(10.0, 2.0), Right, Reversed,
                      [Point(8.0, 10.0), Point(0.0, 10.0), Point(0.0, 0.0), Point(10.0, 0.0), Point(10.0, 2.0)]);
    SimplifyFivePoints(Point(8.0, 10.0), Point(0.0, 10.0), Point(0.0, 0.0), Point(10.0, 0.0), Point(10.0, 2.0));
  }
}
