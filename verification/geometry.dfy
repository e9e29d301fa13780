/** Plane geometry shared by every router variant: points, rectangles, exit
    directions, and the strict interval and rectangle tests the routers use to
    decide whether a candidate polyline is acceptable.

    The y axis points down (screen coordinates), so `Top` means decreasing y. */
module Geometry {

  datatype Point = Point(x: real, y: real)

  /** An axis-aligned box; its interior is the open set between its edges. */
  datatype Rect = Rect(left: real, top: real, width: real, height: real)

  /** The side of a rectangle a connector leaves from, or the heading of a segment. */
  datatype Direction = Top | Right | Bottom | Left

  datatype Line = Line(from: Point, to: Point)

  /** A polyline, from its first point to its last. */
  type Path = seq<Point>

  function Min(a: real, b: real): real { if a <= b then a else b }

  function Max(a: real, b: real): real { if a <= b then b else a }

  function Abs(a: real): real { if a < 0.0 then -a else a }

  /** JavaScript's `~~x`: the integer part, truncated toward zero. */
  function Trunc(r: real): (t: int)
    ensures 0.0 <= r ==> 0 <= t && t as real <= r < t as real + 1.0
    ensures r < 0.0 ==> t <= 0 && t as real - 1.0 < r <= t as real
  {
    if r >= 0.0 then r.Floor else -((-r).Floor)
  }

  /** `num - (num >> 1)`: the arithmetic shift halves the truncated value,
      rounding down, so on a whole number this is half of it rounded up. */
  function Half(w: real): real
  {
    w - (Trunc(w) / 2) as real
  }

  lemma HalfOfNatural(n: nat)
    ensures Half(n as real) == ((n + 1) / 2) as real
  {
    assert Trunc(n as real) == n;
  }

  /** On a non-negative size, `Half` stays between the exact half and the whole,
      and it is strictly less than the whole once the size reaches 2. */
  lemma HalfBounds(w: real)
    ensures 0.0 <= w ==> w / 2.0 <= Half(w) <= w
    ensures 2.0 <= w ==> Half(w) < w
  {
    if w < 0.0 { return; }
    var t := Trunc(w);
    var h := t / 2;
    assert 2 * h <= t <= 2 * h + 1;
    assert (2 * h) as real <= w;
    if 2.0 <= w {
      assert 2 <= t;
      assert 1 <= h;
    }
  }

  /** `(x - a) * (x - b) < 0`: x lies strictly between a and b, in either order. */
  function IsNumberBetween(x: real, a: real, b: real): (between: bool)
    ensures between <==> Min(a, b) < x < Max(a, b)
  {
    var u, v := x - a, x - b;
    if 0.0 < u && v < 0.0 then
      assert u * v < 0.0;
      u * v < 0.0
    else if u < 0.0 && 0.0 < v then
      assert u * v < 0.0;
      u * v < 0.0
    else if 0.0 <= u && 0.0 <= v then
      assert 0.0 <= u * v;
      u * v < 0.0
    else
      assert u <= 0.0 && v <= 0.0;
      assert 0.0 <= u * v;
      u * v < 0.0
  }

  /** Reference overlap of two 1-D intervals given by unordered ends: their open
      spans meet, and they are not one and the same interval. */
  ghost predicate StrictOverlap(a: real, b: real, c: real, d: real)
  {
    && Min(a, b) < Max(c, d)
    && Min(c, d) < Max(a, b)
    && !(Min(a, b) == Min(c, d) && Max(a, b) == Max(c, d))
  }

  /** The source's 1-D overlap test on the projections of two segments: one end of
      either interval lies strictly inside the other. A degenerate interval (a
      single value) meets another exactly when it lies strictly inside it. */
  function IsRegularSegmentIntersected(a: real, b: real, c: real, d: real): (hit: bool)
    ensures hit <==> StrictOverlap(a, b, c, d)
    ensures hit <==> StrictOverlap(c, d, a, b)
  {
    IsNumberBetween(a, c, d) || IsNumberBetween(b, c, d) || IsNumberBetween(c, a, b) || IsNumberBetween(d, a, b)
  }

  /** Two axis-aligned segments meet when both their x and y projections overlap. */
  predicate IsRegularLineIntersected(l1: Line, l2: Line)
  {
    && IsRegularSegmentIntersected(l1.from.x, l1.to.x, l2.from.x, l2.to.x)
    && IsRegularSegmentIntersected(l1.from.y, l1.to.y, l2.from.y, l2.to.y)
  }

  /** The crossing test does not depend on which segment is named first, nor on
      the orientation of either segment. */
  lemma LineIntersectionSymmetric(l1: Line, l2: Line)
    ensures IsRegularLineIntersected(l1, l2) == IsRegularLineIntersected(l2, l1)
    ensures IsRegularLineIntersected(l1, l2) == IsRegularLineIntersected(Line(l1.to, l1.from), l2)
  {
  }

  /** `isPointInRect`: strict interior, so a point on the boundary is not in the
      rectangle, and only a rectangle of positive width and height has inside
      points. */
  function IsPointInRect(p: Point, r: Rect): (inside: bool)
    ensures inside ==> 0.0 < r.width && 0.0 < r.height
    ensures inside ==> p.x != r.left && p.x != r.left + r.width && p.y != r.top && p.y != r.top + r.height
  {
    p.x > r.left && p.y > r.top && p.x < r.left + r.width && p.y < r.top + r.height
  }

  /** Consecutive points share a coordinate, so the segment between them is
      horizontal or vertical. */
  predicate AxisAligned(p: Point, q: Point)
  {
    p.x == q.x || p.y == q.y
  }

  /** Every segment of the polyline is horizontal or vertical. */
  predicate IsOrthogonal(path: Path)
  {
    forall i :: 0 < i < |path| ==> AxisAligned(path[i - 1], path[i])
  }

  /** The corners clockwise from the top-left one: they close an orthogonal loop
      from (left, top) to the opposite corner (left + width, top + height). */
  function GetRectPoints(r: Rect): (q: seq<Point>)
    ensures |q| == 4
    ensures q[0] == Point(r.left, r.top) && q[2] == Point(r.left + r.width, r.top + r.height)
    ensures q[0].y == q[1].y && q[1].x == q[2].x && q[2].y == q[3].y && q[3].x == q[0].x
    ensures forall i :: 0 <= i < 4 ==> !IsPointInRect(q[i], r)
  {
    var a := Point(r.left, r.top);
    var b := Point(r.left + r.width, r.top);
    var c := Point(r.left + r.width, r.top + r.height);
    var d := Point(r.left, r.top + r.height);
    [a, b, c, d]
  }

  /** z-component of the cross product of the edges p->q and q->s. */
  function Turn(p: Point, q: Point, s: Point): real
  {
    (q.x - p.x) * (s.y - q.y) - (q.y - p.y) * (s.x - q.x)
  }

  /** Walking the corners in order turns the same way at every corner, by the
      rectangle's area: clockwise on screen (y down) for a rectangle with a
      positive width and height. */
  lemma CornersClockwise(r: Rect)
    ensures var q := GetRectPoints(r);
      && Turn(q[0], q[1], q[2]) == r.width * r.height
      && Turn(q[1], q[2], q[3]) == r.width * r.height
      && Turn(q[2], q[3], q[0]) == r.width * r.height
      && Turn(q[3], q[0], q[1]) == r.width * r.height
  {
  }

  /** The vertical line at `left + Half(width)` and the horizontal line at
      `top + Half(height)`, each spanning the rectangle. For a rectangle whose
      sides are at least 2 long, both lines run through its interior. */
  function GetRectCrossLines(r: Rect): (lines: (Line, Line))
    ensures lines.0.from.x == lines.0.to.x && lines.0.from.y == r.top && lines.0.to.y == r.top + r.height
    ensures lines.1.from.y == lines.1.to.y && lines.1.from.x == r.left && lines.1.to.x == r.left + r.width
    ensures 0.0 <= r.width ==> r.left <= lines.0.from.x <= r.left + r.width
    ensures 0.0 <= r.height ==> r.top <= lines.1.from.y <= r.top + r.height
    ensures 2.0 <= r.width ==> r.left < lines.0.from.x < r.left + r.width
    ensures 2.0 <= r.height ==> r.top < lines.1.from.y < r.top + r.height
  {
    HalfBounds(r.width);
    HalfBounds(r.height);
    var mw := r.left + Half(r.width);
    var mh := r.top + Half(r.height);
    (Line(Point(mw, r.top), Point(mw, r.top + r.height)),
     Line(Point(r.left, mh), Point(r.left + r.width, mh)))
  }

  /** Length of the axis-aligned route between two points. */
  function ManhattanDistance(p: Point, q: Point): real
  {
    Abs(p.x - q.x) + Abs(p.y - q.y)
  }

  /** The point k units from p in direction d (y grows downwards). */
  function Move(p: Point, d: Direction, k: real): Point
  {
    match d
    case Top => Point(p.x, p.y - k)
    case Bottom => Point(p.x, p.y + k)
    case Left => Point(p.x - k, p.y)
    case Right => Point(p.x + k, p.y)
  }

  /** The heading of an axis-aligned segment: moving from p1 that way by the
      segment's length reaches p2. A segment that is not axis-aligned makes the
      source throw, which its callers never let happen. A zero-length segment
      reads as `Bottom`. */
  function GetDirectionByTwoPoints(p1: Point, p2: Point): (d: Direction)
    requires AxisAligned(p1, p2)
    ensures Move(p1, d, ManhattanDistance(p1, p2)) == p2
    ensures p1.x == p2.x ==> d == Top || d == Bottom
    ensures p1.x != p2.x ==> d == Left || d == Right
    ensures p1 == p2 ==> d == Bottom
  {
    if p1.x == p2.x then
      (if p2.y < p1.y then Top else Bottom)
    else
      (if p2.x < p1.x then Left else Right)
  }

  /** The side facing the other way. */
  function Opposite(d: Direction): (o: Direction)
    ensures o != d
  {
    match d
    case Top => Bottom
    case Bottom => Top
    case Left => Right
    case Right => Left
  }

  /** Two exit directions are inverse when they face exactly away from each other. */
  function IsInverseDirection(d1: Direction, d2: Direction): (inverse: bool)
    ensures inverse <==> d2 == Opposite(d1)
    ensures inverse <==> d1 == Opposite(d2)
  {
    (d1 == Left && d2 == Right) ||
    (d1 == Right && d2 == Left) ||
    (d1 == Top && d2 == Bottom) ||
    (d1 == Bottom && d2 == Top)
  }

  /** The anchor p sits on the side `d` of rectangle r. */
  predicate OnSide(p: Point, r: Rect, d: Direction)
  {
    match d
    case Top => p.y == r.top && r.left <= p.x <= r.left + r.width
    case Bottom => p.y == r.top + r.height && r.left <= p.x <= r.left + r.width
    case Left => p.x == r.left && r.top <= p.y <= r.top + r.height
    case Right => p.x == r.left + r.width && r.top <= p.y <= r.top + r.height
  }
}
