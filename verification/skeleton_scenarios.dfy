/** Concrete layouts for the skeleton router of index3.ts: the call the
    module makes when it is loaded, and the two places where the source
    departs from what its names and its other branches say. */
module SkeletonScenarios {
  import opened Geometry
  import opened Outcomes
  import opened Cost
  import opened Skeleton

  // Both anchors leave downwards from the bottom sides of two squares side
  // by side, the right one higher: source (5, 20) on the square at (0, 10),
  // target (25, 10) on the square at (20, 0).

  lemma BottomExitsLayout()
    ensures var l := GetLayout(Rect(0.0, 10.0, 10.0, 10.0), Rect(20.0, 0.0, 10.0, 10.0));
      !l.isTopDown && l.hasVerticalGap && !l.hasHorizontalGap
  {
  }

  /** As written, no branch takes two downward exits when the left square is
      lower, so the source returns nothing. */
  lemma BottomExitsAsWritten()
    ensures GetShortestPathAsWritten(Rect(0.0, 10.0, 10.0, 10.0), Point(5.0, 20.0), Bottom,
                                     Rect(20.0, 0.0, 10.0, 10.0), Point(25.0, 10.0), Bottom) == None
  {
    BottomExitsLayout();
    assert Bottom !in BottomRightAsWritten && Bottom !in TopLeft && Bottom !in TopRight;
  }

  /** With the bottom-right group listing the bottom side, the two exits are
      joined by one bend below the target. */
  lemma BottomExitsCorrected()
    ensures GetShortestPath(Rect(0.0, 10.0, 10.0, 10.0), Point(5.0, 20.0), Bottom,
                            Rect(20.0, 0.0, 10.0, 10.0), Point(25.0, 10.0), Bottom)
         == Some([Point(5.0, 20.0), Point(25.0, 20.0), Point(25.0, 10.0)])
  {
    BottomExitsLayout();
    assert Bottom in BottomRight;
    var s := [At(Point(5.0, 20.0)), NextXPrevY, At(Point(25.0, 10.0))];
    var p := Resolve(s);
    assert CornerJoins(s, p, 0) && CornerJoins(s, p, 1) && CornerJoins(s, p, 2);
    assert p == [Point(5.0, 20.0), Point(25.0, 20.0), Point(25.0, 10.0)];
  }

  // Source (10, 5) on the right side of the square at the origin, target
  // (20, 25) on the left side of the square at (20, 20): the first square is
  // higher and further left, with gaps both ways, and the centre cross point
  // is (15, 15).

  lemma RawCenterLayout()
    ensures var l := GetLayout(Rect(0.0, 0.0, 10.0, 10.0), Rect(20.0, 20.0, 10.0, 10.0));
      l.isTopDown && l.hasVerticalGap && l.hasHorizontalGap && l.centerCross == Point(15.0, 15.0)
  {
  }

  lemma RawCenterDecision()
    ensures forall g: set<Direction> ::
      Decide(Rect(0.0, 0.0, 10.0, 10.0), Point(10.0, 5.0), Right, Rect(20.0, 20.0, 10.0, 10.0), Point(20.0, 25.0), Left, g)
      == Single([At(Point(10.0, 5.0)), NextXPrevY, At(Point(15.0, 15.0)), PrevXNextY, At(Point(20.0, 25.0))], false)
  {
    RawCenterLayout();
  }

  /** As written, the branch through the centre returns its skeleton with the
      markers still in it. */
  lemma RawCenterAsWritten()
    ensures GetShortestPathAsWritten(Rect(0.0, 0.0, 10.0, 10.0), Point(10.0, 5.0), Right,
                                     Rect(20.0, 20.0, 10.0, 10.0), Point(20.0, 25.0), Left)
         == Some(Unresolved([At(Point(10.0, 5.0)), NextXPrevY, At(Point(15.0, 15.0)), PrevXNextY, At(Point(20.0, 25.0))]))
  {
    RawCenterDecision();
  }

  /** A five-entry skeleton with markers in the second and fourth places
      becomes its three points joined by the two corners. */
  lemma ResolveFive(a: Point, m1: Waypoint, c: Point, m2: Waypoint, e: Point)
    requires !m1.At? && !m2.At?
    ensures Resolve([At(a), m1, At(c), m2, At(e)]) == [a, Corner(m1, a, c), c, Corner(m2, c, e), e]
  {
    var s := [At(a), m1, At(c), m2, At(e)];
    var p := Resolve(s);
    assert CornerJoins(s, p, 0) && CornerJoins(s, p, 2) && CornerJoins(s, p, 4);
    assert CornerJoins(s, p, 1) && CornerJoins(s, p, 3);
  }

  /** Processed, it is the orthogonal route across the centre of both gaps. */
  lemma RawCenterCorrected()
    ensures GetShortestPath(Rect(0.0, 0.0, 10.0, 10.0), Point(10.0, 5.0), Right,
                            Rect(20.0, 20.0, 10.0, 10.0), Point(20.0, 25.0), Left)
         == Some([Point(10.0, 5.0), Point(15.0, 5.0), Point(15.0, 15.0), Point(15.0, 25.0), Point(20.0, 25.0)])
  {
    RawCenterDecision();
    ResolveFive(Point(10.0, 5.0), NextXPrevY, Point(15.0, 15.0), PrevXNextY, Point(20.0, 25.0));
  }

  // The call index3.ts makes when loaded: source (5, 10) leaving the square
  // at the origin downwards, target (17, 8) entering the square at (8, 8)
  // from the top. The squares overlap both ways, so the first horizontal-
  // midline block offers two candidates.

  lemma DemoLayout()
    ensures var l := GetLayout(Rect(0.0, 0.0, 10.0, 10.0), Rect(8.0, 8.0, 10.0, 10.0));
      && l.isTopDown && !l.hasVerticalGap && !l.hasHorizontalGap
      && l.a == Point(0.0, 0.0) && l.d == Point(0.0, 10.0) && l.g == Point(18.0, 18.0)
  {
  }

  lemma DemoDecision()
    ensures Decide(Rect(0.0, 0.0, 10.0, 10.0), Point(5.0, 10.0), Bottom,
                   Rect(8.0, 8.0, 10.0, 10.0), Point(17.0, 8.0), Top, BottomRightAsWritten)
         == Cheapest([[At(Point(5.0, 10.0)), At(Point(0.0, 10.0)), At(Point(0.0, 0.0)), NextXPrevY, At(Point(17.0, 8.0))],
                      [At(Point(5.0, 10.0)), PrevXNextY, At(Point(18.0, 18.0)), PrevXNextY, At(Point(17.0, 8.0))]])
  {
    var l := GetLayout(Rect(0.0, 0.0, 10.0, 10.0), Rect(8.0, 8.0, 10.0, 10.0));
    DemoLayout();
    DemoCandidates();
    DownwardsToTopDecision(Rect(0.0, 0.0, 10.0, 10.0), Point(5.0, 10.0), Rect(8.0, 8.0, 10.0, 10.0), Point(17.0, 8.0),
                           BottomRightAsWritten);
  }

  /** A top-down layout with overlap both ways, left to right, leaving
      downwards for a target entered from the top: the bend cases do not
      apply and the first horizontal-midline block offers its candidates. */
  lemma DownwardsToTopDecision(fromRect: Rect, fromPoint: Point, toRect: Rect, toPoint: Point,
                               bottomRight: set<Direction>)
    requires var l := GetLayout(fromRect, toRect); l.isTopDown && !l.hasVerticalGap && !l.hasHorizontalGap
    requires fromPoint.x < toPoint.x
    ensures Decide(fromRect, fromPoint, Bottom, toRect, toPoint, Top, bottomRight)
         == Cheapest(HorizontalCandidates(fromPoint, Bottom, toPoint, Top, GetLayout(fromRect, toRect)))
  {
    var l := GetLayout(fromRect, toRect);
    assert Decide(fromRect, fromPoint, Bottom, toRect, toPoint, Top, bottomRight)
        == DecideMidline(fromPoint, Bottom, toPoint, Top, l, bottomRight);
  }

  /** Leaving downwards for a target entered from the top, the first
      horizontal-midline block offers the route round the source square's
      left side and the one round the target square's far corner. */
  lemma DemoCandidates()
    ensures HorizontalCandidates(Point(5.0, 10.0), Bottom, Point(17.0, 8.0), Top,
                                 GetLayout(Rect(0.0, 0.0, 10.0, 10.0), Rect(8.0, 8.0, 10.0, 10.0)))
         == [[At(Point(5.0, 10.0)), At(Point(0.0, 10.0)), At(Point(0.0, 0.0)), NextXPrevY, At(Point(17.0, 8.0))],
             [At(Point(5.0, 10.0)), PrevXNextY, At(Point(18.0, 18.0)), PrevXNextY, At(Point(17.0, 8.0))]]
  {
    var l := GetLayout(Rect(0.0, 0.0, 10.0, 10.0), Rect(8.0, 8.0, 10.0, 10.0));
    DemoLayout();
    DownwardsToTopCandidates(Point(5.0, 10.0), Point(17.0, 8.0), l);
  }

  lemma DownwardsToTopCandidates(fromPoint: Point, toPoint: Point, l: Layout)
    ensures HorizontalCandidates(fromPoint, Bottom, toPoint, Top, l)
         == [[At(fromPoint), At(l.d), At(l.a), NextXPrevY, At(toPoint)],
             [At(fromPoint), PrevXNextY, At(l.g), PrevXNextY, At(toPoint)]]
  {
  }

  /** A five-entry skeleton with a single marker in the fourth place. */
  lemma ResolveLateCorner(a: Point, b: Point, c: Point, m: Waypoint, e: Point)
    requires !m.At?
    ensures Resolve([At(a), At(b), At(c), m, At(e)]) == [a, b, c, Corner(m, c, e), e]
  {
    var s := [At(a), At(b), At(c), m, At(e)];
    var p := Resolve(s);
    assert CornerJoins(s, p, 0) && CornerJoins(s, p, 1) && CornerJoins(s, p, 2);
    assert CornerJoins(s, p, 3) && CornerJoins(s, p, 4);
  }

  lemma DemoCostRoundSource()
    ensures PathCost([Point(5.0, 10.0), Point(0.0, 10.0), Point(0.0, 0.0), Point(17.0, 0.0), Point(17.0, 8.0)]) == 40.0
  {
    PathCostOfFive(Point(5.0, 10.0), Point(0.0, 10.0), Point(0.0, 0.0), Point(17.0, 0.0), Point(17.0, 8.0));
  }

  lemma DemoCostRoundTarget()
    ensures PathCost([Point(5.0, 10.0), Point(5.0, 18.0), Point(18.0, 18.0), Point(18.0, 8.0), Point(17.0, 8.0)]) == 32.0
  {
    PathCostOfFive(Point(5.0, 10.0), Point(5.0, 18.0), Point(18.0, 18.0), Point(18.0, 8.0), Point(17.0, 8.0));
  }

  /** The route round the target square (cost 32) beats the one round the
      source square (cost 40). */
  lemma DemoCheapest()
    ensures MinPaths([[Point(5.0, 10.0), Point(0.0, 10.0), Point(0.0, 0.0), Point(17.0, 0.0), Point(17.0, 8.0)],
                      [Point(5.0, 10.0), Point(5.0, 18.0), Point(18.0, 18.0), Point(18.0, 8.0), Point(17.0, 8.0)]])
         == Some([Point(5.0, 10.0), Point(5.0, 18.0), Point(18.0, 18.0), Point(18.0, 8.0), Point(17.0, 8.0)])
  {
    DemoCostRoundSource();
    DemoCostRoundTarget();
    MinPathsOfPair([Point(5.0, 10.0), Point(0.0, 10.0), Point(0.0, 0.0), Point(17.0, 0.0), Point(17.0, 8.0)],
                   [Point(5.0, 10.0), Point(5.0, 18.0), Point(18.0, 18.0), Point(18.0, 8.0), Point(17.0, 8.0)]);
  }

  lemma DemoResolved()
    ensures ResolveAll([[At(Point(5.0, 10.0)), At(Point(0.0, 10.0)), At(Point(0.0, 0.0)), NextXPrevY, At(Point(17.0, 8.0))],
                        [At(Point(5.0, 10.0)), PrevXNextY, At(Point(18.0, 18.0)), PrevXNextY, At(Point(17.0, 8.0))]],
                       Point(5.0, 10.0), Point(17.0, 8.0))
         == [[Point(5.0, 10.0), Point(0.0, 10.0), Point(0.0, 0.0), Point(17.0, 0.0), Point(17.0, 8.0)],
             [Point(5.0, 10.0), Point(5.0, 18.0), Point(18.0, 18.0), Point(18.0, 8.0), Point(17.0, 8.0)]]
  {
    var s1 := [At(Point(5.0, 10.0)), At(Point(0.0, 10.0)), At(Point(0.0, 0.0)), NextXPrevY, At(Point(17.0, 8.0))];
    var s2 := [At(Point(5.0, 10.0)), PrevXNextY, At(Point(18.0, 18.0)), PrevXNextY, At(Point(17.0, 8.0))];
    ResolveAllOfPair(s1, s2, Point(5.0, 10.0), Point(17.0, 8.0));
    DemoResolvedRoundSource();
    DemoResolvedRoundTarget();
  }

  lemma ResolveAllOfPair(s1: seq<Waypoint>, s2: seq<Waypoint>, fromPoint: Point, toPoint: Point)
    requires AllAnchored([s1, s2], fromPoint, toPoint)
    ensures Resolvable(s1) && Resolvable(s2)
    ensures ResolveAll([s1, s2], fromPoint, toPoint) == [Resolve(s1), Resolve(s2)]
  {
    var ps := ResolveAll([s1, s2], fromPoint, toPoint);
    assert [s1, s2][0] == s1 && [s1, s2][1] == s2;
    assert ps[0] == Resolve(s1) && ps[1] == Resolve(s2);
  }

  lemma DemoResolvedRoundSource()
    ensures Resolve([At(Point(5.0, 10.0)), At(Point(0.0, 10.0)), At(Point(0.0, 0.0)), NextXPrevY, At(Point(17.0, 8.0))])
         == [Point(5.0, 10.0), Point(0.0, 10.0), Point(0.0, 0.0), Point(17.0, 0.0), Point(17.0, 8.0)]
  {
    ResolveLateCorner(Point(5.0, 10.0), Point(0.0, 10.0), Point(0.0, 0.0), NextXPrevY, Point(17.0, 8.0));
  }

  lemma DemoResolvedRoundTarget()
    ensures Resolve([At(Point(5.0, 10.0)), PrevXNextY, At(Point(18.0, 18.0)), PrevXNextY, At(Point(17.0, 8.0))])
         == [Point(5.0, 10.0), Point(5.0, 18.0), Point(18.0, 18.0), Point(18.0, 8.0), Point(17.0, 8.0)]
  {
    ResolveFive(Point(5.0, 10.0), PrevXNextY, Point(18.0, 18.0), PrevXNextY, Point(17.0, 8.0));
  }

  /** The call returns the route round the target square. */
  lemma DemoCall()
    ensures GetShortestPathAsWritten(Rect(0.0, 0.0, 10.0, 10.0), Point(5.0, 10.0), Bottom,
                                     Rect(8.0, 8.0, 10.0, 10.0), Point(17.0, 8.0), Top)
         == Some(Resolved([Point(5.0, 10.0), Point(5.0, 18.0), Point(18.0, 18.0), Point(18.0, 8.0), Point(17.0, 8.0)]))
  {
    DemoDecision();
    DemoResolved();
    DemoCheapest();
  }
}
