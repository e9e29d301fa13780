/** Candidate polylines and the rectangle test that filters them, shared by the
    strategy router (sil/index4.ts) and its earlier variant (index4.ts). The two
    differ only in which lines of a rectangle a segment must not cross, so the
    test takes an `IntersectionRule`. */
module Candidates {
  import opened Geometry
  import opened Sorting
  import opened Cost
  import opened Outcomes

  /** An L-shaped route of one bend from p1 to p2, as short as any axis-aligned
      route between them. */
  ghost predicate IsSil(s: Path, p1: Point, p2: Point)
  {
    |s| == 3 && s[0] == p1 && s[2] == p2 && IsOrthogonal(s) && PathCost(s) == ManhattanDistance(p1, p2)
  }

  /** The two single-inflection links (SILs) between two points: horizontal
      first, then vertical first. */
  function GetSingleInflectionLinkOfTwoPoints(p1: Point, p2: Point): (sils: seq<Path>)
    ensures |sils| == 2 && IsSil(sils[0], p1, p2) && IsSil(sils[1], p1, p2)
    ensures sils[0][1] == Point(p2.x, p1.y) && sils[1][1] == Point(p1.x, p2.y)
  {
    var h := [p1, Point(p2.x, p1.y), p2];
    var v := [p1, Point(p1.x, p2.y), p2];
    assert PathCost(h) == ManhattanDistance(h[0], h[1]) + PathCost(h[1..]);
    assert PathCost(h[1..]) == ManhattanDistance(h[1], h[2]) + PathCost(h[2..]);
    assert PathCost(v) == ManhattanDistance(v[0], v[1]) + PathCost(v[1..]);
    assert PathCost(v[1..]) == ManhattanDistance(v[1], v[2]) + PathCost(v[2..]);
    [h, v]
  }

  /** The midpoint of the second and third smallest of four values: the centre of
      the gap (or of the overlap) between two intervals. The middle pair is read
      off the comparators of a sorting network; `CenterIsMidpointOfSortedMiddle` shows it
      is the middle pair of the ascending sort, as the source takes it. */
  function GetCenterPointOfSegment(x1: real, x2: real, x3: real, x4: real): (c: real)
    ensures Min(Min(x1, x2), Min(x3, x4)) <= c <= Max(Max(x1, x2), Max(x3, x4))
  {
    var m1 := Max(Min(x1, x2), Min(x3, x4));
    var m2 := Min(Max(x1, x2), Max(x3, x4));
    var second, third := Min(m1, m2), Max(m1, m2);
    second + (third - second) / 2.0
  }

  /** The centre is the midpoint of the second and third entries of the
      ascending sort of the four values. */
  lemma CenterIsMidpointOfSortedMiddle(x1: real, x2: real, x3: real, x4: real)
    ensures var s := Sort([x1, x2, x3, x4]);
      GetCenterPointOfSegment(x1, x2, x3, x4) == s[1] + (s[2] - s[1]) / 2.0
  {
    SortFour(x1, x2, x3, x4);
  }

  /** The centre depends only on the four values, not on their order. */
  lemma CenterPointPermutationInvariant(x1: real, x2: real, x3: real, x4: real, y1: real, y2: real, y3: real, y4: real)
    requires multiset([x1, x2, x3, x4]) == multiset([y1, y2, y3, y4])
    ensures GetCenterPointOfSegment(x1, x2, x3, x4) == GetCenterPointOfSegment(y1, y2, y3, y4)
  {
    CenterIsMidpointOfSortedMiddle(x1, x2, x3, x4);
    CenterIsMidpointOfSortedMiddle(y1, y2, y3, y4);
    SortPermutationInvariant([x1, x2, x3, x4], [y1, y2, y3, y4]);
  }

  /** `getGapCenterOfTwoRects`: the gap centre of two rectangles, axis by axis.
      It lies within the box spanned by both rectangles. */
  function GetGapCenterOfTwoRects(r1: Rect, r2: Rect): (c: Point)
    ensures Min(Min(r1.left, r1.left + r1.width), Min(r2.left, r2.left + r2.width)) <= c.x
    ensures c.x <= Max(Max(r1.left, r1.left + r1.width), Max(r2.left, r2.left + r2.width))
    ensures Min(Min(r1.top, r1.top + r1.height), Min(r2.top, r2.top + r2.height)) <= c.y
    ensures c.y <= Max(Max(r1.top, r1.top + r1.height), Max(r2.top, r2.top + r2.height))
  {
    Point(
      GetCenterPointOfSegment(r1.left, r1.left + r1.width, r2.left, r2.left + r2.width),
      GetCenterPointOfSegment(r1.top, r1.top + r1.height, r2.top, r2.top + r2.height))
  }

  /** Naming the second interval first does not move the centre. */
  lemma CenterSwapIntervals(a: real, b: real, c: real, d: real)
    ensures GetCenterPointOfSegment(a, b, c, d) == GetCenterPointOfSegment(c, d, a, b)
  {
    assert multiset([a, b, c, d]) == multiset([c, d, a, b]);
    CenterPointPermutationInvariant(a, b, c, d, c, d, a, b);
  }

  /** Swapping the rectangles does not move the gap centre. */
  lemma GapCenterSymmetric(r1: Rect, r2: Rect)
    ensures GetGapCenterOfTwoRects(r1, r2) == GetGapCenterOfTwoRects(r2, r1)
  {
    CenterSwapIntervals(r1.left, r1.left + r1.width, r2.left, r2.left + r2.width);
    CenterSwapIntervals(r1.top, r1.top + r1.height, r2.top, r2.top + r2.height);
  }

  /** When the first interval ends before the second begins, the centre is the
      midpoint of the gap between them. */
  lemma CenterOfSeparatedIntervals(a1: real, b1: real, a2: real, b2: real)
    requires a1 <= b1 <= a2 <= b2
    ensures GetCenterPointOfSegment(a1, b1, a2, b2) == (b1 + a2) / 2.0
  {
  }

  /** Two rectangles side by side (r1 ends where or before r2 starts) have their
      gap centre half-way between them, on the boundary or outside of both: the
      centre strategy then never needs its detour. */
  lemma GapCenterOfSeparatedRects(r1: Rect, r2: Rect)
    requires 0.0 <= r1.width && 0.0 <= r2.width
    requires r1.left + r1.width <= r2.left
    ensures GetGapCenterOfTwoRects(r1, r2).x == (r1.left + r1.width + r2.left) / 2.0
    ensures !IsPointInRect(GetGapCenterOfTwoRects(r1, r2), r1)
    ensures !IsPointInRect(GetGapCenterOfTwoRects(r1, r2), r2)
  {
    CenterOfSeparatedIntervals(r1.left, r1.left + r1.width, r2.left, r2.left + r2.width);
  }

  /** The gap centre lies strictly inside one of the two rectangles, so no
      route can pass through it. */
  predicate CenterTrapped(fromRect: Rect, toRect: Rect)
  {
    var c := GetGapCenterOfTwoRects(fromRect, toRect);
    IsPointInRect(c, fromRect) || IsPointInRect(c, toRect)
  }

  /** Position of a side among the corners listed clockwise from the top-left. */
  function SideIndex(d: Direction): nat
  {
    match d
    case Top => 0
    case Right => 1
    case Bottom => 2
    case Left => 3
  }

  /** `getMovingPoints`: the two ends of the exit side, in clockwise order. An
      anchor on that side lies on the segment between them, so it can slide to
      either along one axis-aligned segment. */
  function GetMovingPoints(point: Point, rect: Rect, dir: Direction): (m: (Point, Point))
    ensures var q := GetRectPoints(rect);
      m.0 == q[SideIndex(dir)] && m.1 == q[(SideIndex(dir) + 1) % 4]
    ensures OnSide(point, rect, dir) ==>
      && AxisAligned(point, m.0) && AxisAligned(point, m.1)
      && ManhattanDistance(m.0, point) + ManhattanDistance(point, m.1) == ManhattanDistance(m.0, m.1)
  {
    var q := GetRectPoints(rect);
    match dir
    case Top => (q[0], q[1])
    case Right => (q[1], q[2])
    case Bottom => (q[2], q[3])
    case Left => (q[3], q[0])
  }

  /** Which lines of a rectangle a segment may not cross: the two centre cross
      lines (sil/index4.ts) or the four boundary edges (index4.ts). */
  datatype IntersectionRule = CrossLines | BoundaryEdges

  /** Both ends of the segment lie on or beyond one edge of the rectangle. */
  predicate Beside(l: Line, r: Rect)
  {
    || (l.from.x <= r.left && l.to.x <= r.left)
    || (r.left + r.width <= l.from.x && r.left + r.width <= l.to.x)
    || (l.from.y <= r.top && l.to.y <= r.top)
    || (r.top + r.height <= l.from.y && r.top + r.height <= l.to.y)
  }

  /** `isRegularLineIntersectedWithRect`: a segment hits a rectangle when an
      end is strictly inside it, or when it crosses one of the rule's lines.
      Under either rule a segment running beside the rectangle, outside or
      along an edge, never hits it. */
  function IsRegularLineIntersectedWithRect(l: Line, r: Rect, rule: IntersectionRule): (hit: bool)
    ensures IsPointInRect(l.from, r) || IsPointInRect(l.to, r) ==> hit
    ensures 0.0 <= r.width && 0.0 <= r.height && Beside(l, r) ==> !hit
  {
    if IsPointInRect(l.from, r) || IsPointInRect(l.to, r) then true
    else
      match rule
      case CrossLines =>
        var lines := GetRectCrossLines(r);
        IsRegularLineIntersected(l, lines.0) || IsRegularLineIntersected(l, lines.1)
      case BoundaryEdges =>
        var q := GetRectPoints(r);
        || IsRegularLineIntersected(l, Line(q[0], q[1]))
        || IsRegularLineIntersected(l, Line(q[1], q[2]))
        || IsRegularLineIntersected(l, Line(q[2], q[3]))
        || IsRegularLineIntersected(l, Line(q[3], q[0]))
  }

  /** Segment i of the polyline (from point i - 1 to point i) hits the rectangle. */
  predicate SegmentHits(path: Path, i: int, r: Rect, rule: IntersectionRule)
    requires 0 < i < |path|
  {
    IsRegularLineIntersectedWithRect(Line(path[i - 1], path[i]), r, rule)
  }

  /** A polyline hits a rectangle when one of its segments does. */
  function IsRegularPathIntersectedWithRect(path: Path, r: Rect, rule: IntersectionRule): (hit: bool)
    ensures hit <==> exists i :: 0 < i < |path| && SegmentHits(path, i, r, rule)
    decreases |path|
  {
    if |path| < 2 then false
    else
      var rest := IsRegularPathIntersectedWithRect(path[1..], r, rule);
      assert rest <==> exists i :: 1 < i < |path| && SegmentHits(path, i, r, rule) by {
        if rest {
          var i :| 0 < i < |path[1..]| && SegmentHits(path[1..], i, r, rule);
          assert path[1..][i - 1] == path[i] && path[1..][i] == path[i + 1];
          assert SegmentHits(path, i + 1, r, rule);
        }
        if exists i :: 1 < i < |path| && SegmentHits(path, i, r, rule) {
          var i :| 1 < i < |path| && SegmentHits(path, i, r, rule);
          assert path[1..][i - 2] == path[i - 1] && path[1..][i - 1] == path[i];
          assert SegmentHits(path[1..], i - 1, r, rule);
        }
      }
      assert SegmentHits(path, 1, r, rule) == IsRegularLineIntersectedWithRect(Line(path[0], path[1]), r, rule);
      IsRegularLineIntersectedWithRect(Line(path[0], path[1]), r, rule) || rest
  }

  /** A candidate is valid when it hits neither rectangle. */
  predicate IsValidPath(path: Path, r1: Rect, r2: Rect, rule: IntersectionRule)
  {
    !IsRegularPathIntersectedWithRect(path, r1, rule) && !IsRegularPathIntersectedWithRect(path, r2, rule)
  }

  /** `getValidPathsByRects`: the valid candidates, in their original order. */
  function GetValidPathsByRects(paths: seq<Path>, r1: Rect, r2: Rect, rule: IntersectionRule): (valid: seq<Path>)
    ensures |valid| <= |paths|
    ensures forall p :: p in valid <==> p in paths && IsValidPath(p, r1, r2, rule)
    decreases |paths|
  {
    if |paths| == 0 then []
    else
      assert paths == [paths[0]] + paths[1..];
      (if IsValidPath(paths[0], r1, r2, rule) then [paths[0]] else []) + GetValidPathsByRects(paths[1..], r1, r2, rule)
  }

  /** Filtering a concatenation filters each part and keeps them in order, so no
      candidate overtakes one listed before it. */
  lemma {:induction false} ValidPathsKeepOrder(a: seq<Path>, b: seq<Path>, r1: Rect, r2: Rect, rule: IntersectionRule)
    ensures GetValidPathsByRects(a + b, r1, r2, rule)
         == GetValidPathsByRects(a, r1, r2, rule) + GetValidPathsByRects(b, r1, r2, rule)
    decreases |a|
  {
    if |a| == 0 {
      assert a + b == b;
    } else {
      assert (a + b)[0] == a[0];
      assert (a + b)[1..] == a[1..] + b;
      ValidPathsKeepOrder(a[1..], b, r1, r2, rule);
    }
  }

  /** Filtering a pair of candidates keeps each valid one, in order. */
  lemma ValidPathsOfPair(p: Path, q: Path, r1: Rect, r2: Rect, rule: IntersectionRule)
    ensures GetValidPathsByRects([p, q], r1, r2, rule)
         == (if IsValidPath(p, r1, r2, rule) then [p] else []) + (if IsValidPath(q, r1, r2, rule) then [q] else [])
  {
    assert [p, q][1..] == [q];
    assert [q][1..] == [];
  }

  /** Filtering a candidate in front of others decides that one candidate and
      filters the rest. */
  lemma ValidPathsCons(p: Path, rest: seq<Path>, r1: Rect, r2: Rect, rule: IntersectionRule)
    ensures GetValidPathsByRects([p] + rest, r1, r2, rule)
         == (if IsValidPath(p, r1, r2, rule) then [p] else []) + GetValidPathsByRects(rest, r1, r2, rule)
  {
    assert ([p] + rest)[0] == p && ([p] + rest)[1..] == rest;
  }

  /** `singlePath`: the first of the two SILs from `from` to `to` that misses both
      rectangles, or the empty path when neither does. */
  function FirstValidSil(from: Point, to: Point, r1: Rect, r2: Rect, rule: IntersectionRule): (p: Path)
    ensures p == [] || IsSil(p, from, to)
  {
    var sils := GetSingleInflectionLinkOfTwoPoints(from, to);
    if IsValidPath(sils[0], r1, r2, rule) then sils[0]
    else if IsValidPath(sils[1], r1, r2, rule) then sils[1]
    else []
  }

  /** The source writes `singlePath` as `getValidPathsByRects(sils)[0] || []`:
      the head of the filtered pair, which is the first valid SIL; the result is
      empty exactly when neither SIL is valid. */
  lemma FirstValidSilIsHeadOfFilter(from: Point, to: Point, r1: Rect, r2: Rect, rule: IntersectionRule)
    ensures var valid := GetValidPathsByRects(GetSingleInflectionLinkOfTwoPoints(from, to), r1, r2, rule);
      FirstValidSil(from, to, r1, r2, rule) == (if |valid| == 0 then [] else valid[0])
    ensures var sils := GetSingleInflectionLinkOfTwoPoints(from, to);
      && (FirstValidSil(from, to, r1, r2, rule) == [] <==>
            !IsValidPath(sils[0], r1, r2, rule) && !IsValidPath(sils[1], r1, r2, rule))
      && (FirstValidSil(from, to, r1, r2, rule) != [] ==> IsValidPath(FirstValidSil(from, to, r1, r2, rule), r1, r2, rule))
  {
    var sils := GetSingleInflectionLinkOfTwoPoints(from, to);
    ValidPathsOfPair(sils[0], sils[1], r1, r2, rule);
    assert sils == [sils[0], sils[1]];
  }

  /** The route through the gap centre that leaves and arrives horizontally. */
  function HorizontalCenterPath(from: Point, to: Point, center: Point): (p: Path)
    ensures |p| == 5 && p[0] == from && p[2] == center && p[4] == to && IsOrthogonal(p)
    ensures p[0].y == p[1].y && p[3].y == p[4].y
  {
    [from, Point(center.x, from.y), center, Point(center.x, to.y), to]
  }

  /** The route through the gap centre that leaves and arrives vertically. */
  function VerticalCenterPath(from: Point, to: Point, center: Point): (p: Path)
    ensures |p| == 5 && p[0] == from && p[2] == center && p[4] == to && IsOrthogonal(p)
    ensures p[0].x == p[1].x && p[3].x == p[4].x
  {
    [from, Point(from.x, center.y), center, Point(to.x, center.y), to]
  }

  /** The centre strategy once the gap centre is clear of both rectangles: no
      valid route gives null, a single valid one is taken, and when both are
      valid the one leaving along the exit axis wins. */
  function CenterStrategyThroughGap(fromRect: Rect, fromPoint: Point, fromDirection: Direction,
                                    toRect: Rect, toPoint: Point, rule: IntersectionRule): (r: Option<Path>)
    ensures var c := GetGapCenterOfTwoRects(fromRect, toRect);
      var h := HorizontalCenterPath(fromPoint, toPoint, c);
      var v := VerticalCenterPath(fromPoint, toPoint, c);
      var hOk := IsValidPath(h, fromRect, toRect, rule);
      var vOk := IsValidPath(v, fromRect, toRect, rule);
      && (r.None? <==> !hOk && !vOk)
      && (hOk && !vOk ==> r == Some(h))
      && (!hOk && vOk ==> r == Some(v))
      && (hOk && vOk ==> r == Some(if fromDirection == Left || fromDirection == Right then h else v))
    ensures r.Some? ==> IsValidPath(r.value, fromRect, toRect, rule)
    ensures r.Some? ==> |r.value| == 5 && r.value[0] == fromPoint && r.value[4] == toPoint && IsOrthogonal(r.value)
  {
    var c := GetGapCenterOfTwoRects(fromRect, toRect);
    var h := HorizontalCenterPath(fromPoint, toPoint, c);
    var v := VerticalCenterPath(fromPoint, toPoint, c);
    var validPaths := GetValidPathsByRects([h, v], fromRect, toRect, rule);
    ValidPathsOfPair(h, v, fromRect, toRect, rule);
    if |validPaths| == 0 then None
    else if |validPaths| == 1 then Some(validPaths[0])
    else if fromDirection == Left || fromDirection == Right then Some(validPaths[0])
    else Some(validPaths[1])
  }

  /** Drops the candidates that are a single point or empty (`length > 1`). */
  function KeepProperPaths(paths: seq<Path>): (kept: seq<Path>)
    ensures forall p :: p in kept <==> p in paths && |p| > 1
    decreases |paths|
  {
    if |paths| == 0 then []
    else
      assert paths == [paths[0]] + paths[1..];
      (if |paths[0]| > 1 then [paths[0]] else []) + KeepProperPaths(paths[1..])
  }

  /** A corner-projected candidate before the `length > 1` filter: a lone anchor,
      or four points from the source anchor to the target anchor. */
  ghost predicate IsCornerCandidate(p: Path, from: Point, to: Point)
  {
    |p| == 1 || (|p| == 4 && p[0] == from && p[3] == to)
  }

  /** `headFrom(singlePath(corner, to))`: the anchor, then the first valid SIL from
      a corner of its exit side to the target; just the anchor when there is none. */
  function HeadCandidate(from: Point, corner: Point, to: Point, r1: Rect, r2: Rect, rule: IntersectionRule): (p: Path)
    ensures |p| == 1 <==> FirstValidSil(corner, to, r1, r2, rule) == []
    ensures IsCornerCandidate(p, from, to) && p[0] == from
  {
    var sil := FirstValidSil(corner, to, r1, r2, rule);
    var p := [from] + sil;
    assert p[1..] == sil;
    p
  }

  /** `tailTo(singlePath(from, corner))`: the first valid SIL from the source anchor
      to a corner of the target's exit side, then the target; just the target
      when there is none. */
  function TailCandidate(from: Point, corner: Point, to: Point, r1: Rect, r2: Rect, rule: IntersectionRule): (p: Path)
    ensures |p| == 1 <==> FirstValidSil(from, corner, r1, r2, rule) == []
    ensures IsCornerCandidate(p, from, to) && p[|p| - 1] == to
  {
    var sil := FirstValidSil(from, corner, r1, r2, rule);
    var p := sil + [to];
    assert p[..|sil|] == sil;
    p
  }

  /** A four-point head candidate is the anchor followed by a valid SIL from the
      corner; it is orthogonal when the anchor is aligned with the corner. */
  lemma HeadCandidateIsValidSil(from: Point, corner: Point, to: Point, r1: Rect, r2: Rect, rule: IntersectionRule)
    ensures var p := HeadCandidate(from, corner, to, r1, r2, rule);
      |p| == 4 ==>
        && p[1] == corner && IsSil(p[1..], corner, to) && IsValidPath(p[1..], r1, r2, rule)
        && (AxisAligned(from, corner) ==> IsOrthogonal(p))
  {
    var p := HeadCandidate(from, corner, to, r1, r2, rule);
    FirstValidSilIsHeadOfFilter(corner, to, r1, r2, rule);
    if |p| == 4 {
      assert p[1..] == FirstValidSil(corner, to, r1, r2, rule);
    }
  }

  /** A four-point tail candidate is a valid SIL to the corner followed by the
      target; it is orthogonal when the corner is aligned with the target. */
  lemma TailCandidateIsValidSil(from: Point, corner: Point, to: Point, r1: Rect, r2: Rect, rule: IntersectionRule)
    ensures var p := TailCandidate(from, corner, to, r1, r2, rule);
      |p| == 4 ==>
        && p[2] == corner && IsSil(p[..3], from, corner) && IsValidPath(p[..3], r1, r2, rule)
        && (AxisAligned(corner, to) ==> IsOrthogonal(p))
  {
    var p := TailCandidate(from, corner, to, r1, r2, rule);
    FirstValidSilIsHeadOfFilter(from, corner, r1, r2, rule);
    if |p| == 4 {
      assert p[..3] == FirstValidSil(from, corner, r1, r2, rule);
    }
  }

  /** The four corner projections, in the source's order: the SILs from the two
      ends of the source's exit side, then the SILs to the two ends of the
      target's exit side. */
  function CornerCandidates(fromRect: Rect, fromPoint: Point, toRect: Rect, toPoint: Point,
                            f: (Point, Point), t: (Point, Point), rule: IntersectionRule): (raw: seq<Path>)
    ensures |raw| == 4
    ensures forall p :: p in raw ==> IsCornerCandidate(p, fromPoint, toPoint)
    ensures && (|raw[0]| == 1 <==> FirstValidSil(f.0, toPoint, fromRect, toRect, rule) == [])
            && (|raw[1]| == 1 <==> FirstValidSil(f.1, toPoint, fromRect, toRect, rule) == [])
            && (|raw[2]| == 1 <==> FirstValidSil(fromPoint, t.0, fromRect, toRect, rule) == [])
            && (|raw[3]| == 1 <==> FirstValidSil(fromPoint, t.1, fromRect, toRect, rule) == [])
  {
    [HeadCandidate(fromPoint, f.0, toPoint, fromRect, toRect, rule),
     HeadCandidate(fromPoint, f.1, toPoint, fromRect, toRect, rule),
     TailCandidate(fromPoint, t.0, toPoint, fromRect, toRect, rule),
     TailCandidate(fromPoint, t.1, toPoint, fromRect, toRect, rule)]
  }

  /** Filtering four corner projections leaves only four-point candidates, and
      leaves none exactly when every projection is a lone anchor. */
  lemma ProperCornerCandidates(raw: seq<Path>, from: Point, to: Point)
    requires |raw| == 4 && forall p :: p in raw ==> IsCornerCandidate(p, from, to)
    ensures forall p :: p in KeepProperPaths(raw) ==> |p| == 4 && p[0] == from && p[3] == to
    ensures |KeepProperPaths(raw)| == 0 <==> (|raw[0]| == 1 && |raw[1]| == 1 && |raw[2]| == 1 && |raw[3]| == 1)
  {
    var cands := KeepProperPaths(raw);
    forall p | p in cands
      ensures |p| == 4 && p[0] == from && p[3] == to
    {
      assert p in raw && |p| > 1;
      assert IsCornerCandidate(p, from, to);
    }
    if |cands| != 0 {
      assert cands[0] in cands;
      assert IsCornerCandidate(cands[0], from, to);
    }
    if |raw[0]| != 1 { assert raw[0] in raw; }
    if |raw[1]| != 1 { assert raw[1] in raw; }
    if |raw[2]| != 1 { assert raw[2] in raw; }
    if |raw[3]| != 1 { assert raw[3] in raw; }
  }

  /** The corner-projected candidates that survive the `length > 1` filter, from
      the corners `getMovingPoints` gives. There are none exactly when no end of
      either exit side has a valid SIL. */
  function MovingPointCandidates(fromRect: Rect, fromPoint: Point, fromDirection: Direction,
                                 toRect: Rect, toPoint: Point, toDirection: Direction,
                                 rule: IntersectionRule): (cands: seq<Path>)
    ensures forall p :: p in cands ==> |p| == 4 && p[0] == fromPoint && p[3] == toPoint
    ensures var f := GetMovingPoints(fromPoint, fromRect, fromDirection);
      var t := GetMovingPoints(toPoint, toRect, toDirection);
      |cands| == 0 <==>
        && FirstValidSil(f.0, toPoint, fromRect, toRect, rule) == []
        && FirstValidSil(f.1, toPoint, fromRect, toRect, rule) == []
        && FirstValidSil(fromPoint, t.0, fromRect, toRect, rule) == []
        && FirstValidSil(fromPoint, t.1, fromRect, toRect, rule) == []
  {
    var f := GetMovingPoints(fromPoint, fromRect, fromDirection);
    var t := GetMovingPoints(toPoint, toRect, toDirection);
    var raw := CornerCandidates(fromRect, fromPoint, toRect, toPoint, f, t, rule);
    ProperCornerCandidates(raw, fromPoint, toPoint);
    KeepProperPaths(raw)
  }

  /** A surviving candidate is one of the four corner projections. */
  lemma MovingPointCandidateIsCornerCandidate(fromRect: Rect, fromPoint: Point, fromDirection: Direction,
                                              toRect: Rect, toPoint: Point, toDirection: Direction,
                                              rule: IntersectionRule, p: Path)
    requires p in MovingPointCandidates(fromRect, fromPoint, fromDirection, toRect, toPoint, toDirection, rule)
    ensures |p| == 4
    ensures p in CornerCandidates(fromRect, fromPoint, toRect, toPoint,
                                  GetMovingPoints(fromPoint, fromRect, fromDirection),
                                  GetMovingPoints(toPoint, toRect, toDirection), rule)
  {
  }

  /** Each four-point corner projection is a valid SIL from one of the source
      corners with the anchor in front, or a valid SIL to one of the target
      corners with the anchor behind. */
  lemma CornerCandidatesAreSils(fromRect: Rect, fromPoint: Point, toRect: Rect, toPoint: Point,
                                f: (Point, Point), t: (Point, Point), rule: IntersectionRule, p: Path)
    requires p in CornerCandidates(fromRect, fromPoint, toRect, toPoint, f, t, rule) && |p| == 4
    ensures || ((p[1] == f.0 || p[1] == f.1) && IsSil(p[1..], p[1], toPoint) && IsValidPath(p[1..], fromRect, toRect, rule))
            || ((p[2] == t.0 || p[2] == t.1) && IsSil(p[..3], fromPoint, p[2]) && IsValidPath(p[..3], fromRect, toRect, rule))
  {
    HeadCandidateIsValidSil(fromPoint, f.0, toPoint, fromRect, toRect, rule);
    HeadCandidateIsValidSil(fromPoint, f.1, toPoint, fromRect, toRect, rule);
    TailCandidateIsValidSil(fromPoint, t.0, toPoint, fromRect, toRect, rule);
    TailCandidateIsValidSil(fromPoint, t.1, toPoint, fromRect, toRect, rule);
  }

  /** Corner projections from corners aligned with their anchors are orthogonal. */
  lemma CornerCandidatesOrthogonal(fromRect: Rect, fromPoint: Point, toRect: Rect, toPoint: Point,
                                   f: (Point, Point), t: (Point, Point), rule: IntersectionRule, p: Path)
    requires AxisAligned(fromPoint, f.0) && AxisAligned(fromPoint, f.1)
    requires AxisAligned(t.0, toPoint) && AxisAligned(t.1, toPoint)
    requires p in CornerCandidates(fromRect, fromPoint, toRect, toPoint, f, t, rule) && |p| == 4
    ensures IsOrthogonal(p)
  {
    HeadCandidateIsValidSil(fromPoint, f.0, toPoint, fromRect, toRect, rule);
    HeadCandidateIsValidSil(fromPoint, f.1, toPoint, fromRect, toRect, rule);
    TailCandidateIsValidSil(fromPoint, t.0, toPoint, fromRect, toRect, rule);
    TailCandidateIsValidSil(fromPoint, t.1, toPoint, fromRect, toRect, rule);
  }

  /** Every candidate of the moving-point strategy is a valid SIL from an end of
      the source's exit side with the anchor in front, or a valid SIL to an end
      of the target's exit side with the anchor behind. */
  lemma MovingPointCandidatesAreSils(fromRect: Rect, fromPoint: Point, fromDirection: Direction,
                                     toRect: Rect, toPoint: Point, toDirection: Direction,
                                     rule: IntersectionRule, p: Path)
    requires p in MovingPointCandidates(fromRect, fromPoint, fromDirection, toRect, toPoint, toDirection, rule)
    ensures var f := GetMovingPoints(fromPoint, fromRect, fromDirection);
      var t := GetMovingPoints(toPoint, toRect, toDirection);
      || ((p[1] == f.0 || p[1] == f.1) && IsSil(p[1..], p[1], toPoint) && IsValidPath(p[1..], fromRect, toRect, rule))
      || ((p[2] == t.0 || p[2] == t.1) && IsSil(p[..3], fromPoint, p[2]) && IsValidPath(p[..3], fromRect, toRect, rule))
  {
    MovingPointCandidateIsCornerCandidate(fromRect, fromPoint, fromDirection, toRect, toPoint, toDirection, rule, p);
    CornerCandidatesAreSils(fromRect, fromPoint, toRect, toPoint,
                            GetMovingPoints(fromPoint, fromRect, fromDirection),
                            GetMovingPoints(toPoint, toRect, toDirection), rule, p);
  }

  /** When both anchors sit on their exit sides, every candidate of the
      moving-point strategy is orthogonal: the slide to a corner runs along the
      exit side. */
  lemma MovingPointCandidatesOrthogonal(fromRect: Rect, fromPoint: Point, fromDirection: Direction,
                                        toRect: Rect, toPoint: Point, toDirection: Direction,
                                        rule: IntersectionRule, p: Path)
    requires OnSide(fromPoint, fromRect, fromDirection) && OnSide(toPoint, toRect, toDirection)
    requires p in MovingPointCandidates(fromRect, fromPoint, fromDirection, toRect, toPoint, toDirection, rule)
    ensures IsOrthogonal(p)
  {
    var f := GetMovingPoints(fromPoint, fromRect, fromDirection);
    var t := GetMovingPoints(toPoint, toRect, toDirection);
    assert AxisAligned(fromPoint, f.0) && AxisAligned(fromPoint, f.1);
    assert AxisAligned(t.0, toPoint) && AxisAligned(t.1, toPoint);
    MovingPointCandidateIsCornerCandidate(fromRect, fromPoint, fromDirection, toRect, toPoint, toDirection, rule, p);
    CornerCandidatesOrthogonal(fromRect, fromPoint, toRect, toPoint, f, t, rule, p);
  }

  /** The moving-point strategy: null when no corner projection gives a valid
      SIL, otherwise the cheapest corner-projected candidate. */
  function MovingPointStrategy(fromRect: Rect, fromPoint: Point, fromDirection: Direction,
                               toRect: Rect, toPoint: Point, toDirection: Direction,
                               rule: IntersectionRule): (r: Option<Path>)
    ensures var cands := MovingPointCandidates(fromRect, fromPoint, fromDirection, toRect, toPoint, toDirection, rule);
      && (r.None? <==> |cands| == 0)
      && (r.Some? ==> r.value in cands && forall p :: p in cands ==> PathCost(r.value) <= PathCost(p))
      && (r.Some? ==> exists k :: IsFirstCheapest(cands, k) && r.value == cands[k])
    ensures r.Some? ==> |r.value| == 4 && r.value[0] == fromPoint && r.value[3] == toPoint
  {
    var paths := MovingPointCandidates(fromRect, fromPoint, fromDirection, toRect, toPoint, toDirection, rule);
    if |paths| == 0 then None else MinPaths(paths)
  }

  /** With both anchors on their exit sides, the moving-point route is orthogonal. */
  lemma MovingPointStrategyOrthogonal(fromRect: Rect, fromPoint: Point, fromDirection: Direction,
                                      toRect: Rect, toPoint: Point, toDirection: Direction, rule: IntersectionRule)
    requires OnSide(fromPoint, fromRect, fromDirection) && OnSide(toPoint, toRect, toDirection)
    ensures var r := MovingPointStrategy(fromRect, fromPoint, fromDirection, toRect, toPoint, toDirection, rule);
      r.Some? ==> IsOrthogonal(r.value)
  {
    var r := MovingPointStrategy(fromRect, fromPoint, fromDirection, toRect, toPoint, toDirection, rule);
    if r.Some? {
      MovingPointCandidatesOrthogonal(fromRect, fromPoint, fromDirection, toRect, toPoint, toDirection, rule, r.value);
    }
  }

  /** Ignores both rectangles: the cheaper of the two SILs. The two always cost
      the same, so this is the horizontal-first one. */
  function ForcedSil(fromPoint: Point, toPoint: Point): (p: Path)
    ensures p == GetSingleInflectionLinkOfTwoPoints(fromPoint, toPoint)[0]
    ensures p == [fromPoint, Point(toPoint.x, fromPoint.y), toPoint] && IsOrthogonal(p)
  {
    var sils := GetSingleInflectionLinkOfTwoPoints(fromPoint, toPoint);
    var r := MinPaths(sils);
    assert sils[0] in sils && sils[1] in sils;
    assert r.value == sils[0] by {
      var k :| IsFirstCheapest(sils, k) && r.value == sils[k];
    }
    r.value
  }
}
