/** The skeleton router of index3.ts. A route is first written as a skeleton:
    known points interleaved with two markers, each standing for the corner
    that joins its neighbours with one vertical and one horizontal segment.
    `processPath` replaces the markers by those corners. The router picks a
    skeleton from a fixed decision tree over the relative placement of the
    two rectangles and the sides the anchors leave from. */
module Skeleton {
  import opened Geometry
  import opened Outcomes
  import opened Cost

  /** A skeleton entry: a known point, or a corner marker. `PrevXNextY` (the
      source's "PXNY") takes its x from the previous point and its y from the
      next one; `NextXPrevY` ("NXPY") the other way round. */
  datatype Waypoint = At(point: Point) | PrevXNextY | NextXPrevY

  /** Every marker has a point on each side: none at either end, and no two
      markers next to each other. */
  predicate Resolvable(s: seq<Waypoint>)
  {
    && (|s| > 0 ==> s[0].At? && s[|s| - 1].At?)
    && (forall i :: 0 < i < |s| ==> s[i - 1].At? || s[i].At?)
  }

  /** The corner a marker stands for, between `prev` and `next`. */
  function Corner(marker: Waypoint, prev: Point, next: Point): (q: Point)
    requires !marker.At?
    ensures marker.PrevXNextY? ==> q.x == prev.x && q.y == next.y
    ensures marker.NextXPrevY? ==> q.x == next.x && q.y == prev.y
  {
    if marker.PrevXNextY? then Point(prev.x, next.y) else Point(next.x, prev.y)
  }

  /** What entry i becomes, read off its raw neighbours. */
  ghost function RawCorner(s: seq<Waypoint>, i: int): Point
    requires 0 <= i < |s|
  {
    if s[i].At? then s[i].point
    else if 0 < i < |s| - 1 && s[i - 1].At? && s[i + 1].At? then Corner(s[i], s[i - 1].point, s[i + 1].point)
    else Point(0.0, 0.0)
  }

  /** Entry i of the skeleton is honoured by point i of the route: a known
      point is kept, and a marker becomes the corner between the route's
      neighbouring points, reached vertically then left horizontally
      (`PrevXNextY`) or reached horizontally then left vertically
      (`NextXPrevY`). */
  ghost predicate CornerJoins(s: seq<Waypoint>, out: Path, i: int)
    requires 0 <= i < |s| == |out|
  {
    match s[i]
    case At(q) => out[i] == q
    case PrevXNextY => 0 < i < |s| - 1 && out[i] == Point(out[i - 1].x, out[i + 1].y)
    case NextXPrevY => 0 < i < |s| - 1 && out[i] == Point(out[i + 1].x, out[i - 1].y)
  }

  ghost predicate ResolvesTo(s: seq<Waypoint>, out: Path)
  {
    |out| == |s| && forall i :: 0 <= i < |s| ==> CornerJoins(s, out, i)
  }

  /** `done` is what the pass has written for the first |done| entries, and
      every marker among them had a point on each side. */
  ghost predicate DonePrefix(s: seq<Waypoint>, done: Path)
  {
    && |done| <= |s|
    && (forall j :: 0 <= j < |done| ==> done[j] == RawCorner(s, j))
    && (|done| > 0 ==> s[0].At?)
    && (forall j :: 0 < j < |done| ==> s[j - 1].At? || s[j].At?)
    && (forall j :: 0 <= j < |done| && !s[j].At? ==> j + 1 < |s| && s[j + 1].At?)
  }

  /** Writing entry |done| keeps the prefix honest. */
  lemma DonePrefixGrows(s: seq<Waypoint>, done: Path)
    requires DonePrefix(s, done) && |done| < |s|
    requires !s[|done|].At? ==> 0 < |done| < |s| - 1 && s[|done| + 1].At?
    ensures DonePrefix(s, done + [RawCorner(s, |done|)])
  {
  }

  /** The source's `forEach` from entry |done| on: a marker reads the point
      already written before it and the raw entry after it. A marker at either
      end reads a missing neighbour and throws; a marker followed by another
      reads a coordinate of a string, which the model reports as an error. */
  function ProcessFrom(s: seq<Waypoint>, done: Path): (r: Result<Path>)
    requires DonePrefix(s, done)
    ensures r.Success? <==> Resolvable(s)
    ensures r.Success? ==> |r.value| == |s| && forall j :: 0 <= j < |s| ==> r.value[j] == RawCorner(s, j)
    decreases |s| - |done|
  {
    if |done| == |s| then
      Success(done)
    else
      var i := |done|;
      if s[i].At? then
        DonePrefixGrows(s, done);
        ProcessFrom(s, done + [s[i].point])
      else if i == 0 || i == |s| - 1 then Failure("TypeError: a corner marker at an end of the skeleton")
      else if !s[i + 1].At? then Failure("undefined coordinate: two corner markers side by side")
      else
        DonePrefixGrows(s, done);
        assert done[i - 1] == s[i - 1].point;
        ProcessFrom(s, done + [Corner(s[i], done[i - 1], s[i + 1].point)])
  }

  /** Read off raw neighbours or off the route, the corners agree once every
      marker has a point on each side. */
  lemma RawCornersJoin(s: seq<Waypoint>, out: Path)
    requires Resolvable(s)
    requires |out| == |s| && forall j :: 0 <= j < |s| ==> out[j] == RawCorner(s, j)
    ensures ResolvesTo(s, out)
  {
    forall i | 0 <= i < |s|
      ensures CornerJoins(s, out, i)
    {
      if !s[i].At? {
        assert 0 < i < |s| - 1;
        assert s[i - 1].At? && s[i + 1].At?;
        assert out[i - 1] == s[i - 1].point && out[i + 1] == s[i + 1].point;
      }
    }
  }

  /** `processPath`: succeeds exactly when every marker has a point on each
      side, and then replaces each marker by the corner joining its
      neighbours, keeping every known point in place. */
  function ProcessPath(s: seq<Waypoint>): (r: Result<Path>)
    ensures r.Success? <==> Resolvable(s)
    ensures r.Success? ==> ResolvesTo(s, r.value)
  {
    var r := ProcessFrom(s, []);
    if r.Success? then RawCornersJoin(s, r.value); r else r
  }

  /** Known points that follow each other are joined by a horizontal or
      vertical segment. */
  ghost predicate KnownNeighboursAligned(s: seq<Waypoint>)
  {
    forall i :: 0 < i < |s| && s[i - 1].At? && s[i].At? ==> AxisAligned(s[i - 1].point, s[i].point)
  }

  /** Markers only add horizontal and vertical segments: when the known
      points that meet directly are aligned, the processed route is
      orthogonal. */
  lemma ProcessPathOrthogonal(s: seq<Waypoint>)
    requires Resolvable(s) && KnownNeighboursAligned(s)
    ensures ProcessPath(s).Success? && IsOrthogonal(ProcessPath(s).value)
  {
    var out := ProcessPath(s).value;
    forall i | 0 < i < |out|
      ensures AxisAligned(out[i - 1], out[i])
    {
      assert CornerJoins(s, out, i - 1) && CornerJoins(s, out, i);
    }
  }

  // ---------------------------------------------------------------------------
  // The placement of the two rectangles

  /** What the decision tree reads off the two rectangles: the corners of the
      one further left (a, b, c, d clockwise from its top-left) and of the
      other (e, f, g, h), whether the left one sits higher, the point midway
      between their facing corners, and whether a gap separates them
      vertically or horizontally. */
  datatype Layout = Layout(a: Point, b: Point, c: Point, d: Point,
                           e: Point, f: Point, g: Point, h: Point,
                           isTopDown: bool, centerCross: Point,
                           hasHorizontalGap: bool, hasVerticalGap: bool)

  /** The rectangle taken as the left one: `fromRect` only when its left edge
      is strictly further left. */
  function LeftRect(fromRect: Rect, toRect: Rect): Rect
  {
    if fromRect.left < toRect.left then fromRect else toRect
  }

  function RightRect(fromRect: Rect, toRect: Rect): Rect
  {
    if fromRect.left < toRect.left then toRect else fromRect
  }

  function GetLayout(fromRect: Rect, toRect: Rect): (l: Layout)
    ensures var lr, rr := LeftRect(fromRect, toRect), RightRect(fromRect, toRect);
      && [l.a, l.b, l.c, l.d] == GetRectPoints(lr)
      && [l.e, l.f, l.g, l.h] == GetRectPoints(rr)
      && (l.isTopDown <==> lr.top < rr.top)
      && (l.hasVerticalGap <==> lr.left + lr.width < rr.left)
      && (l.hasHorizontalGap <==> if l.isTopDown then lr.top + lr.height < rr.top else rr.top + rr.height < lr.top)
  {
    var lr, rr := LeftRect(fromRect, toRect), RightRect(fromRect, toRect);
    var isTopDown := lr.top < rr.top;
    var q, t := GetRectPoints(lr), GetRectPoints(rr);
    var centerLeft := if isTopDown then q[2] else q[1];
    var centerRight := if isTopDown then t[0] else t[3];
    var centerTop := if isTopDown then centerRight else centerLeft;
    var centerBottom := if isTopDown then centerLeft else centerRight;
    var centerCross := Point(centerLeft.x + (centerRight.x - centerLeft.x) / 2.0,
                             centerTop.y + (centerBottom.y - centerTop.y) / 2.0);
    var hasHorizontalGap := if isTopDown then lr.top + lr.height < rr.top else rr.top + rr.height < lr.top;
    Layout(q[0], q[1], q[2], q[3], t[0], t[1], t[2], t[3], isTopDown, centerCross,
           hasHorizontalGap, lr.left + lr.width < rr.left)
  }

  /** The centre cross point is midway between the left rectangle's right edge
      and the right one's left edge, and midway between the facing horizontal
      edges; so it lies strictly inside whichever gap there is. */
  lemma CenterCrossInGaps(fromRect: Rect, toRect: Rect)
    ensures var l := GetLayout(fromRect, toRect);
      var lr, rr := LeftRect(fromRect, toRect), RightRect(fromRect, toRect);
      && l.centerCross.x == (lr.left + lr.width + rr.left) / 2.0
      && (l.hasVerticalGap ==> lr.left + lr.width < l.centerCross.x < rr.left)
      && (l.isTopDown ==> l.centerCross.y == (lr.top + lr.height + rr.top) / 2.0)
      && (!l.isTopDown ==> l.centerCross.y == (lr.top + rr.top + rr.height) / 2.0)
      && (l.hasHorizontalGap && l.isTopDown ==> lr.top + lr.height < l.centerCross.y < rr.top)
      && (l.hasHorizontalGap && !l.isTopDown ==> rr.top + rr.height < l.centerCross.y < lr.top)
  {
  }

  /** Which rectangle is passed first does not matter once their left edges
      differ. */
  lemma LayoutSymmetric(fromRect: Rect, toRect: Rect)
    requires fromRect.left != toRect.left
    ensures GetLayout(fromRect, toRect) == GetLayout(toRect, fromRect)
  {
  }

  // ---------------------------------------------------------------------------
  // The decision tree of `getShortestPath`

  /** The direction groups the tree tests. */
  const TopRight: set<Direction> := {Top, Right}
  const BottomLeft: set<Direction> := {Bottom, Left}
  const TopLeft: set<Direction> := {Top, Left}
  /** The group the source declares under the name of the bottom and right
      sides; it lists the top and right sides instead. */
  const BottomRightAsWritten: set<Direction> := {Top, Right}
  const BottomRight: set<Direction> := {Bottom, Right}

  /** Each side is in exactly one of two opposite groups. */
  ghost predicate Complementary(g1: set<Direction>, g2: set<Direction>)
  {
    forall d: Direction :: d in g1 <==> d !in g2
  }

  /** The corrected groups split the four sides in two both ways; the group
      as written overlaps the top-left group on the top side and leaves the
      bottom side in neither. */
  lemma GroupsPartitionSides()
    ensures Complementary(TopRight, BottomLeft) && Complementary(TopLeft, BottomRight)
    ensures Top in TopLeft && Top in BottomRightAsWritten
    ensures Bottom !in TopLeft && Bottom !in BottomRightAsWritten
    ensures !Complementary(TopLeft, BottomRightAsWritten)
  {
    forall d: Direction
      ensures (d in TopRight <==> d !in BottomLeft) && (d in TopLeft <==> d !in BottomRight)
    {
      match d
      case Top =>
      case Right =>
      case Bottom =>
      case Left =>
    }
    assert Top in TopLeft && Top in BottomRightAsWritten;
  }

  /** A skeleton from the source anchor to the target anchor whose markers
      all have a point on each side. */
  ghost predicate Anchored(s: seq<Waypoint>, fromPoint: Point, toPoint: Point)
  {
    |s| >= 2 && s[0] == At(fromPoint) && s[|s| - 1] == At(toPoint) && Resolvable(s)
  }

  /** Every known point is followed by a marker and every marker by a known
      point: the route is built of corners only. */
  ghost predicate Alternating(s: seq<Waypoint>)
  {
    forall i :: 0 < i < |s| ==> s[i - 1].At? != s[i].At?
  }

  /** One bend between the anchors. */
  function Bend(fromPoint: Point, marker: Waypoint, toPoint: Point): (s: seq<Waypoint>)
    requires !marker.At?
    ensures Anchored(s, fromPoint, toPoint) && Alternating(s) && |s| == 3
  {
    [At(fromPoint), marker, At(toPoint)]
  }

  /** Across the gap through the centre cross point. */
  function ViaCenter(fromPoint: Point, toPoint: Point, center: Point, first: Waypoint, second: Waypoint): (s: seq<Waypoint>)
    requires !first.At? && !second.At?
    ensures Anchored(s, fromPoint, toPoint) && Alternating(s) && |s| == 5 && s[2] == At(center)
  {
    [At(fromPoint), first, At(center), second, At(toPoint)]
  }

  /** Round a corner of each rectangle, crossing at the centre cross point. */
  function ViaCorners(fromPoint: Point, toPoint: Point, inf1: Point, center: Point, inf2: Point,
                      first: Waypoint, second: Waypoint): (s: seq<Waypoint>)
    requires !first.At? && !second.At?
    ensures Anchored(s, fromPoint, toPoint) && Alternating(s) && |s| == 9 && s[4] == At(center)
  {
    [At(fromPoint), first, At(inf1), second, At(center), first, At(inf2), second, At(toPoint)]
  }

  /** What a branch of the tree hands back: one skeleton (processed or, on
      one branch of the source, returned raw), a list of skeletons to choose
      the cheapest from, or nothing when no branch applies. */
  datatype Decision =
    | Single(skeleton: seq<Waypoint>, processed: bool)
    | Cheapest(skeletons: seq<seq<Waypoint>>)
    | NoCase

  ghost predicate AllAnchored(ss: seq<seq<Waypoint>>, fromPoint: Point, toPoint: Point)
  {
    forall s :: s in ss ==> Anchored(s, fromPoint, toPoint)
  }

  /** Candidate skeletons of four, five and six entries between the anchors;
      the callers never put two markers side by side. */
  function Skeleton4(fromPoint: Point, w1: Waypoint, w2: Waypoint, toPoint: Point): (s: seq<Waypoint>)
    requires w1.At? || w2.At?
    ensures Anchored(s, fromPoint, toPoint) && |s| == 4
  {
    [At(fromPoint), w1, w2, At(toPoint)]
  }

  function Skeleton5(fromPoint: Point, w1: Waypoint, w2: Waypoint, w3: Waypoint, toPoint: Point): (s: seq<Waypoint>)
    requires (w1.At? || w2.At?) && (w2.At? || w3.At?)
    ensures Anchored(s, fromPoint, toPoint) && |s| == 5
  {
    [At(fromPoint), w1, w2, w3, At(toPoint)]
  }

  function Skeleton6(fromPoint: Point, w1: Waypoint, w2: Waypoint, w3: Waypoint, w4: Waypoint,
                     toPoint: Point): (s: seq<Waypoint>)
    requires (w1.At? || w2.At?) && (w2.At? || w3.At?) && (w3.At? || w4.At?)
    ensures Anchored(s, fromPoint, toPoint) && |s| == 6
  {
    [At(fromPoint), w1, w2, w3, w4, At(toPoint)]
  }

  /** The two skeletons one `if` of a candidate block pushes. */
  function Push(cond: bool, s1: seq<Waypoint>, s2: seq<Waypoint>, fromPoint: Point, toPoint: Point): (ss: seq<seq<Waypoint>>)
    requires Anchored(s1, fromPoint, toPoint) && Anchored(s2, fromPoint, toPoint)
    ensures cond ==> ss == [s1, s2]
    ensures !cond ==> ss == []
    ensures AllAnchored(ss, fromPoint, toPoint)
  {
    if cond then [s1, s2] else []
  }

  /** Concatenating blocks of candidates keeps them anchored. */
  function Concat4(s1: seq<seq<Waypoint>>, s2: seq<seq<Waypoint>>, s3: seq<seq<Waypoint>>, s4: seq<seq<Waypoint>>,
                   fromPoint: Point, toPoint: Point): (ss: seq<seq<Waypoint>>)
    requires AllAnchored(s1, fromPoint, toPoint) && AllAnchored(s2, fromPoint, toPoint)
    requires AllAnchored(s3, fromPoint, toPoint) && AllAnchored(s4, fromPoint, toPoint)
    ensures AllAnchored(ss, fromPoint, toPoint)
    ensures |ss| == |s1| + |s2| + |s3| + |s4|
  {
    s1 + s2 + s3 + s4
  }

  /** Candidates of the first horizontal-midline block, when the rectangles
      overlap both ways. */
  function HorizontalCandidates(fromPoint: Point, fromDirection: Direction,
                                toPoint: Point, toDirection: Direction, l: Layout): (ss: seq<seq<Waypoint>>)
    ensures AllAnchored(ss, fromPoint, toPoint)
    ensures |ss| == 0 || |ss| == 2
  {
    Concat4(
      Push(fromDirection == Left && (toDirection == Top || toDirection == Right),
           Skeleton4(fromPoint, At(l.a), NextXPrevY, toPoint),
           Skeleton5(fromPoint, PrevXNextY, At(l.g), PrevXNextY, toPoint), fromPoint, toPoint),
      Push(fromDirection == Bottom && (toDirection == Top || toDirection == Right),
           Skeleton5(fromPoint, At(l.d), At(l.a), NextXPrevY, toPoint),
           Skeleton5(fromPoint, PrevXNextY, At(l.g), PrevXNextY, toPoint), fromPoint, toPoint),
      Push(fromDirection == Top && (toDirection == Left || toDirection == Bottom),
           Skeleton5(fromPoint, NextXPrevY, At(l.a), PrevXNextY, toPoint),
           Skeleton5(fromPoint, At(l.f), At(l.g), NextXPrevY, toPoint), fromPoint, toPoint),
      Push(fromDirection == Right && (toDirection == Left || toDirection == Bottom),
           Skeleton4(fromPoint, At(l.g), NextXPrevY, toPoint),
           Skeleton5(fromPoint, NextXPrevY, At(l.a), PrevXNextY, toPoint), fromPoint, toPoint),
      fromPoint, toPoint)
  }

  /** Candidates of the second horizontal-midline block. */
  function HorizontalCandidatesRaised(fromPoint: Point, fromDirection: Direction,
                                      toPoint: Point, toDirection: Direction, l: Layout): (ss: seq<seq<Waypoint>>)
    ensures AllAnchored(ss, fromPoint, toPoint)
    ensures |ss| == 0 || |ss| == 2
  {
    Concat4(
      Push(fromDirection == Top && (toDirection == Bottom || toDirection == Right),
           Skeleton5(fromPoint, PrevXNextY, At(l.f), PrevXNextY, toPoint),
           Skeleton5(fromPoint, NextXPrevY, At(l.d), NextXPrevY, toPoint), fromPoint, toPoint),
      Push(fromDirection == Left && (toDirection == Bottom || toDirection == Right),
           Skeleton5(fromPoint, PrevXNextY, At(l.f), PrevXNextY, toPoint),
           Skeleton4(fromPoint, At(l.d), NextXPrevY, toPoint), fromPoint, toPoint),
      Push(fromDirection == Bottom && (toDirection == Top || toDirection == Left),
           Skeleton5(fromPoint, At(l.g), At(l.f), NextXPrevY, toPoint),
           Skeleton5(fromPoint, PrevXNextY, At(l.d), PrevXNextY, toPoint), fromPoint, toPoint),
      Push(fromDirection == Right && (toDirection == Top || toDirection == Left),
           Skeleton5(fromPoint, PrevXNextY, At(l.e), NextXPrevY, toPoint),
           Skeleton5(fromPoint, PrevXNextY, At(l.d), PrevXNextY, toPoint), fromPoint, toPoint),
      fromPoint, toPoint)
  }

  /** Candidates of the first vertical-midline block. */
  function VerticalCandidates(fromPoint: Point, fromDirection: Direction,
                              toPoint: Point, toDirection: Direction, l: Layout): (ss: seq<seq<Waypoint>>)
    ensures AllAnchored(ss, fromPoint, toPoint)
    ensures |ss| == 0 || |ss| == 2
  {
    Concat4(
      Push(fromDirection == Top && (toDirection == Bottom || toDirection == Left),
           Skeleton5(fromPoint, NextXPrevY, At(l.g), NextXPrevY, toPoint),
           Skeleton5(fromPoint, NextXPrevY, At(l.d), PrevXNextY, toPoint), fromPoint, toPoint),
      Push(fromDirection == Right && (toDirection == Bottom || toDirection == Left),
           Skeleton5(fromPoint, NextXPrevY, At(l.g), NextXPrevY, toPoint),
           Skeleton6(fromPoint, At(l.b), NextXPrevY, At(l.d), PrevXNextY, toPoint), fromPoint, toPoint),
      Push(fromDirection == Bottom && (toDirection == Top || toDirection == Right),
           Skeleton5(fromPoint, NextXPrevY, At(l.f), PrevXNextY, toPoint),
           Skeleton5(fromPoint, NextXPrevY, At(l.a), NextXPrevY, toPoint), fromPoint, toPoint),
      Push(fromDirection == Left && (toDirection == Top || toDirection == Right),
           Skeleton5(fromPoint, NextXPrevY, At(l.a), NextXPrevY, toPoint),
           Skeleton5(fromPoint, PrevXNextY, At(l.g), PrevXNextY, toPoint), fromPoint, toPoint),
      fromPoint, toPoint)
  }

  /** Candidates of the second vertical-midline block. */
  function VerticalCandidatesRaised(fromPoint: Point, fromDirection: Direction,
                                    toPoint: Point, toDirection: Direction, l: Layout): (ss: seq<seq<Waypoint>>)
    ensures AllAnchored(ss, fromPoint, toPoint)
    ensures |ss| == 0 || |ss| == 2
  {
    Concat4(
      Push(fromDirection == Top && (toDirection == Bottom || toDirection == Right),
           Skeleton5(fromPoint, NextXPrevY, At(l.g), PrevXNextY, toPoint),
           Skeleton5(fromPoint, NextXPrevY, At(l.d), NextXPrevY, toPoint), fromPoint, toPoint),
      Push(fromDirection == Left && (toDirection == Bottom || toDirection == Right),
           Skeleton5(fromPoint, At(l.e), At(l.f), PrevXNextY, toPoint),
           Skeleton5(fromPoint, NextXPrevY, At(l.d), NextXPrevY, toPoint), fromPoint, toPoint),
      Push(fromDirection == Bottom && (toDirection == Top || toDirection == Left),
           Skeleton5(fromPoint, At(l.d), At(l.a), PrevXNextY, toPoint),
           Skeleton5(fromPoint, NextXPrevY, At(l.f), NextXPrevY, toPoint), fromPoint, toPoint),
      Push(fromDirection == Right && (toDirection == Top || toDirection == Left),
           Skeleton5(fromPoint, At(l.c), At(l.d), PrevXNextY, toPoint),
           Skeleton5(fromPoint, NextXPrevY, At(l.f), NextXPrevY, toPoint), fromPoint, toPoint),
      fromPoint, toPoint)
  }

  /** One midline block: through the centre when the gap across the midline
      is open, round a corner of each rectangle when only the other gap is,
      and otherwise the block's candidates. */
  function Midline(fromPoint: Point, toPoint: Point, center: Point, crossGap: bool, sideGap: bool,
                   first: Waypoint, second: Waypoint, inf1: Point, inf2: Point,
                   processed: bool, cands: seq<seq<Waypoint>>): (dec: Decision)
    requires !first.At? && !second.At?
    requires AllAnchored(cands, fromPoint, toPoint)
    ensures dec.Single? ==> Anchored(dec.skeleton, fromPoint, toPoint) && Alternating(dec.skeleton)
    ensures dec.Single? ==>
      || dec.skeleton == ViaCenter(fromPoint, toPoint, center, first, second)
      || dec.skeleton == ViaCorners(fromPoint, toPoint, inf1, center, inf2, first, second)
    ensures dec.Single? && !dec.processed ==> crossGap
    ensures dec.Cheapest? ==> !crossGap && !sideGap && dec.skeletons == cands
    ensures !dec.NoCase?
  {
    if crossGap then Single(ViaCenter(fromPoint, toPoint, center, first, second), processed)
    else if sideGap then Single(ViaCorners(fromPoint, toPoint, inf1, center, inf2, first, second), true)
    else Cheapest(cands)
  }

  /** `getShortestPath`'s branches, with the bottom-right group as a parameter.
      A condition written `isTopDown && A || B` reads `(isTopDown && A) || B`.
      Every skeleton runs from the source anchor to the target anchor, every
      single skeleton is built of corners only, and only the first
      vertical-midline block returns one unprocessed. */
  function Decide(fromRect: Rect, fromPoint: Point, fromDirection: Direction,
                  toRect: Rect, toPoint: Point, toDirection: Direction,
                  bottomRight: set<Direction>): (dec: Decision)
    ensures dec.Single? ==> Anchored(dec.skeleton, fromPoint, toPoint) && Alternating(dec.skeleton)
    ensures dec.Cheapest? ==> AllAnchored(dec.skeletons, fromPoint, toPoint)
    ensures dec.Single? && !dec.processed ==>
      var l := GetLayout(fromRect, toRect);
      l.hasVerticalGap && dec.skeleton == ViaCenter(fromPoint, toPoint, l.centerCross, NextXPrevY, PrevXNextY)
  {
    var l := GetLayout(fromRect, toRect);
    var onLeft := fromPoint.x < toPoint.x;
    if l.isTopDown && fromDirection in TopRight && toDirection in TopRight then
      Single(Bend(fromPoint, if onLeft then NextXPrevY else PrevXNextY, toPoint), true)
    else if l.isTopDown && fromDirection in BottomLeft && toDirection in BottomLeft then
      Single(Bend(fromPoint, if onLeft then PrevXNextY else NextXPrevY, toPoint), true)
    else if !l.isTopDown && fromDirection in TopLeft && toDirection in TopLeft then
      Single(Bend(fromPoint, if onLeft then PrevXNextY else NextXPrevY, toPoint), true)
    else if !l.isTopDown && fromDirection in bottomRight && toDirection in bottomRight then
      Single(Bend(fromPoint, if onLeft then NextXPrevY else PrevXNextY, toPoint), true)
    else
      DecideMidline(fromPoint, fromDirection, toPoint, toDirection, l, bottomRight)
  }

  /** The four midline blocks of `getShortestPath`, tried once the four
      single-bend cases have not applied. */
  function DecideMidline(fromPoint: Point, fromDirection: Direction, toPoint: Point, toDirection: Direction,
                         l: Layout, bottomRight: set<Direction>): (dec: Decision)
    ensures dec.Single? ==> Anchored(dec.skeleton, fromPoint, toPoint) && Alternating(dec.skeleton)
    ensures dec.Cheapest? ==> AllAnchored(dec.skeletons, fromPoint, toPoint)
    ensures dec.Single? && !dec.processed ==>
      l.hasVerticalGap && dec.skeleton == ViaCenter(fromPoint, toPoint, l.centerCross, NextXPrevY, PrevXNextY)
  {
    var onLeft := fromPoint.x < toPoint.x;
    var onTop := fromPoint.y < toPoint.y;
    var cc := l.centerCross;
    if (l.isTopDown && onLeft && fromDirection in BottomLeft && toDirection in TopRight)
         || (!onLeft && toDirection in BottomLeft && fromDirection in TopRight) then
      Midline(fromPoint, toPoint, cc, l.hasHorizontalGap, l.hasVerticalGap, PrevXNextY, NextXPrevY,
              if onLeft then l.c else l.e, if onLeft then l.e else l.c, true,
              HorizontalCandidates(fromPoint, fromDirection, toPoint, toDirection, l))
    else if (!l.isTopDown && onLeft && fromDirection in TopLeft && toDirection in bottomRight)
         || (!onLeft && toDirection in TopLeft && fromDirection in bottomRight) then
      Midline(fromPoint, toPoint, cc, l.hasHorizontalGap, l.hasVerticalGap, PrevXNextY, NextXPrevY,
              if onLeft then l.b else l.h, if onLeft then l.h else l.b, true,
              HorizontalCandidatesRaised(fromPoint, fromDirection, toPoint, toDirection, l))
    else if (l.isTopDown && onTop && fromDirection in TopRight && toDirection in BottomLeft)
         || (!onTop && toDirection in TopRight && fromDirection in BottomLeft) then
      Midline(fromPoint, toPoint, cc, l.hasVerticalGap, l.hasHorizontalGap, NextXPrevY, PrevXNextY,
              if onTop then l.c else l.e, if onTop then l.e else l.c, false,
              VerticalCandidates(fromPoint, fromDirection, toPoint, toDirection, l))
    else if (!l.isTopDown && onTop && fromDirection in TopLeft && toDirection in bottomRight)
         || (!onTop && toDirection in TopLeft && fromDirection in bottomRight) then
      Midline(fromPoint, toPoint, cc, l.hasVerticalGap, l.hasHorizontalGap, NextXPrevY, PrevXNextY,
              if onTop then l.h else l.b, if onTop then l.b else l.h, true,
              VerticalCandidatesRaised(fromPoint, fromDirection, toPoint, toDirection, l))
    else
      NoCase
  }

  // ---------------------------------------------------------------------------
  // The routes

  /** A processed skeleton: the same length, and the same ends. */
  function Resolve(s: seq<Waypoint>): (p: Path)
    requires Resolvable(s)
    ensures ResolvesTo(s, p)
    ensures |s| > 0 ==> s[0].At? && p[0] == s[0].point && s[|s| - 1].At? && p[|p| - 1] == s[|s| - 1].point
  {
    var p := ProcessPath(s).value;
    assert |s| > 0 ==> CornerJoins(s, p, 0) && CornerJoins(s, p, |p| - 1);
    p
  }

  /** Every skeleton of a list, processed. */
  function ResolveAll(ss: seq<seq<Waypoint>>, fromPoint: Point, toPoint: Point): (ps: seq<Path>)
    requires AllAnchored(ss, fromPoint, toPoint)
    ensures |ps| == |ss|
    ensures forall i :: 0 <= i < |ss| ==> Resolvable(ss[i]) && ps[i] == Resolve(ss[i])
    ensures forall p :: p in ps ==> 2 <= |p| && p[0] == fromPoint && p[|p| - 1] == toPoint
  {
    assert forall i :: 0 <= i < |ss| ==> ss[i] in ss;
    var ps := seq(|ss|, i requires 0 <= i < |ss| => Resolve(ss[i]));
    assert forall p :: p in ps ==> exists i :: 0 <= i < |ss| && p == Resolve(ss[i]);
    ps
  }

  /** A processed anchored skeleton runs from anchor to anchor, and one built
      of corners only is orthogonal. */
  lemma ResolvedAnchored(s: seq<Waypoint>, fromPoint: Point, toPoint: Point)
    requires Anchored(s, fromPoint, toPoint)
    ensures var p := Resolve(s); 2 <= |p| && p[0] == fromPoint && p[|p| - 1] == toPoint
    ensures Alternating(s) ==> IsOrthogonal(Resolve(s))
  {
    var p := Resolve(s);
    assert CornerJoins(s, p, 0) && CornerJoins(s, p, |p| - 1);
    if Alternating(s) {
      ProcessPathOrthogonal(s);
    }
  }

  /** What the source's `getShortestPath` returns: a route, or on one branch a
      skeleton still holding its markers. */
  datatype Route = Resolved(path: Path) | Unresolved(skeleton: seq<Waypoint>)

  /** `getShortestPath` as written: the bottom-right group lists the top and
      right sides, and the first vertical-midline block returns its skeleton
      through the centre unprocessed. No route (`undefined`) when no branch
      applies or the chosen block has no candidates. */
  function GetShortestPathAsWritten(fromRect: Rect, fromPoint: Point, fromDirection: Direction,
                                    toRect: Rect, toPoint: Point, toDirection: Direction): (r: Option<Route>)
    ensures r.Some? && r.value.Resolved? ==>
      var p := r.value.path; 2 <= |p| && p[0] == fromPoint && p[|p| - 1] == toPoint
    ensures r.Some? && r.value.Unresolved? ==>
      var l := GetLayout(fromRect, toRect);
      l.hasVerticalGap && r.value.skeleton == ViaCenter(fromPoint, toPoint, l.centerCross, NextXPrevY, PrevXNextY)
    ensures var dec := Decide(fromRect, fromPoint, fromDirection, toRect, toPoint, toDirection, BottomRightAsWritten);
      && (r.None? <==> dec.NoCase? || (dec.Cheapest? && |dec.skeletons| == 0))
      && (dec.Cheapest? && r.Some? ==>
            var ps := ResolveAll(dec.skeletons, fromPoint, toPoint);
            r.value.Resolved? && exists k :: IsFirstCheapest(ps, k) && r.value.path == ps[k])
  {
    match Decide(fromRect, fromPoint, fromDirection, toRect, toPoint, toDirection, BottomRightAsWritten)
    case Single(s, processed) =>
      ResolvedAnchored(s, fromPoint, toPoint);
      Some(if processed then Resolved(Resolve(s)) else Unresolved(s))
    case Cheapest(ss) =>
      var best := MinPaths(ResolveAll(ss, fromPoint, toPoint));
      if best.Some? then Some(Resolved(best.value)) else None
    case NoCase => None
  }

  /** `getShortestPath` with the bottom-right group listing the bottom and
      right sides and every skeleton processed: every route runs from the
      source anchor to the target anchor, and a route from a single skeleton
      is orthogonal. */
  function GetShortestPath(fromRect: Rect, fromPoint: Point, fromDirection: Direction,
                           toRect: Rect, toPoint: Point, toDirection: Direction): (r: Option<Path>)
    ensures r.Some? ==> 2 <= |r.value| && r.value[0] == fromPoint && r.value[|r.value| - 1] == toPoint
    ensures var dec := Decide(fromRect, fromPoint, fromDirection, toRect, toPoint, toDirection, BottomRight);
      && (r.None? <==> dec.NoCase? || (dec.Cheapest? && |dec.skeletons| == 0))
      && (dec.Single? ==> r.Some? && IsOrthogonal(r.value))
      && (dec.Cheapest? && r.Some? ==>
            var ps := ResolveAll(dec.skeletons, fromPoint, toPoint);
            && (exists k :: IsFirstCheapest(ps, k) && r.value == ps[k])
            && forall q :: q in ps ==> PathCost(r.value) <= PathCost(q))
  {
    match Decide(fromRect, fromPoint, fromDirection, toRect, toPoint, toDirection, BottomRight)
    case Single(s, _) =>
      ResolvedAnchored(s, fromPoint, toPoint);
      Some(Resolve(s))
    case Cheapest(ss) => MinPaths(ResolveAll(ss, fromPoint, toPoint))
    case NoCase => None
  }

  /** One rectangle above the other and both anchors leaving up or right:
      a single bend, along the source's side first when it is on the left,
      along its vertical first otherwise. The source as written and the
      corrected router agree here. */
  lemma TopRightBend(fromRect: Rect, fromPoint: Point, fromDirection: Direction,
                     toRect: Rect, toPoint: Point, toDirection: Direction)
    requires GetLayout(fromRect, toRect).isTopDown && fromDirection in TopRight && toDirection in TopRight
    ensures var bend := [fromPoint,
                         if fromPoint.x < toPoint.x then Point(toPoint.x, fromPoint.y) else Point(fromPoint.x, toPoint.y),
                         toPoint];
      && GetShortestPathAsWritten(fromRect, fromPoint, fromDirection, toRect, toPoint, toDirection) == Some(Resolved(bend))
      && GetShortestPath(fromRect, fromPoint, fromDirection, toRect, toPoint, toDirection) == Some(bend)
  {
    var s := Bend(fromPoint, if fromPoint.x < toPoint.x then NextXPrevY else PrevXNextY, toPoint);
    assert Decide(fromRect, fromPoint, fromDirection, toRect, toPoint, toDirection, BottomRight) == Single(s, true);
    assert Decide(fromRect, fromPoint, fromDirection, toRect, toPoint, toDirection, BottomRightAsWritten) == Single(s, true);
    var p := Resolve(s);
    assert CornerJoins(s, p, 0) && CornerJoins(s, p, 1) && CornerJoins(s, p, 2);
    assert p == [p[0], p[1], p[2]];
  }

  /** The two groups differ only on the top and bottom sides, so for anchors
      leaving sideways the corrected router returns what the source does, the
      raw skeleton processed. */
  lemma CorrectionKeepsSideExits(fromRect: Rect, fromPoint: Point, fromDirection: Direction,
                                 toRect: Rect, toPoint: Point, toDirection: Direction)
    requires (fromDirection == Left || fromDirection == Right) && (toDirection == Left || toDirection == Right)
    ensures var asWritten := GetShortestPathAsWritten(fromRect, fromPoint, fromDirection, toRect, toPoint, toDirection);
      var corrected := GetShortestPath(fromRect, fromPoint, fromDirection, toRect, toPoint, toDirection);
      && (asWritten.None? <==> corrected.None?)
      && (asWritten.Some? && asWritten.value.Resolved? ==> corrected == Some(asWritten.value.path))
      && (asWritten.Some? && asWritten.value.Unresolved? ==>
            Resolvable(asWritten.value.skeleton) && corrected == Some(Resolve(asWritten.value.skeleton)))
  {
    assert (fromDirection in BottomRightAsWritten <==> fromDirection in BottomRight);
    assert (toDirection in BottomRightAsWritten <==> toDirection in BottomRight);
    assert Decide(fromRect, fromPoint, fromDirection, toRect, toPoint, toDirection, BottomRightAsWritten)
        == Decide(fromRect, fromPoint, fromDirection, toRect, toPoint, toDirection, BottomRight);
  }
}
