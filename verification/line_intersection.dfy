/** Intersection of two segments given by their end points (line-intersection.ts):
    the crossing point of the two carrier lines, by the determinant formula,
    kept only when it lies within both segments' bounding boxes. */
module LineIntersection {
  import opened Geometry
  import opened Outcomes

  /** z-component of the cross product of u and v. */
  function Cross(u: Point, v: Point): real
  {
    u.x * v.y - u.y * v.x
  }

  function Sub(p: Point, q: Point): Point
  {
    Point(p.x - q.x, p.y - q.y)
  }

  /** q is on the line through a and b. */
  ghost predicate OnLine(q: Point, a: Point, b: Point)
  {
    Cross(Sub(b, a), Sub(q, a)) == 0.0
  }

  /** The determinant of the two direction vectors: zero exactly when the
      lines are parallel (or a segment is a single point). */
  function Denominator(p1: Point, p2: Point, p3: Point, p4: Point): (den: real)
    ensures den == Cross(Sub(p1, p2), Sub(p3, p4))
  {
    (p1.x - p2.x) * (p3.y - p4.y) - (p1.y - p2.y) * (p3.x - p4.x)
  }

  /** `findIntersection`: the common point of the two lines. When they are
      parallel the source divides by zero and gets coordinates that are
      infinite or not a number; the model has no point then. */
  function FindIntersection(p1: Point, p2: Point, p3: Point, p4: Point): (r: Option<Point>)
    ensures r.None? <==> Denominator(p1, p2, p3, p4) == 0.0
  {
    var den := Denominator(p1, p2, p3, p4);
    if den == 0.0 then None
    else
      var c12 := p1.x * p2.y - p2.x * p1.y;
      var c34 := p3.x * p4.y - p3.y * p4.x;
      Some(Point((c12 * (p3.x - p4.x) - (p1.x - p2.x) * c34) / den,
                 (c12 * (p3.y - p4.y) - (p1.y - p2.y) * c34) / den))
  }

  /** The point found lies on both lines. */
  lemma IntersectionOnBothLines(p1: Point, p2: Point, p3: Point, p4: Point)
    requires FindIntersection(p1, p2, p3, p4).Some?
    ensures var q := FindIntersection(p1, p2, p3, p4).value;
      OnLine(q, p1, p2) && OnLine(q, p3, p4)
  {
    var den := Denominator(p1, p2, p3, p4);
    var c12 := p1.x * p2.y - p2.x * p1.y;
    var c34 := p3.x * p4.y - p3.y * p4.x;
    var nx := c12 * (p3.x - p4.x) - (p1.x - p2.x) * c34;
    var ny := c12 * (p3.y - p4.y) - (p1.y - p2.y) * c34;
    var q := FindIntersection(p1, p2, p3, p4).value;
    assert q.x * den == nx && q.y * den == ny;
    assert (p2.x - p1.x) * (ny - p1.y * den) - (p2.y - p1.y) * (nx - p1.x * den) == 0.0;
    assert (p4.x - p3.x) * (ny - p3.y * den) - (p4.y - p3.y) * (nx - p3.x * den) == 0.0;
    assert Cross(Sub(p2, p1), Sub(q, p1)) * den == 0.0;
    assert Cross(Sub(p4, p3), Sub(q, p3)) * den == 0.0;
  }

  /** Two non-parallel lines meet in one point only: any point on both is the
      one found. */
  lemma IntersectionUnique(p1: Point, p2: Point, p3: Point, p4: Point, q: Point)
    requires FindIntersection(p1, p2, p3, p4).Some?
    requires OnLine(q, p1, p2) && OnLine(q, p3, p4)
    ensures q == FindIntersection(p1, p2, p3, p4).value
  {
    var i := FindIntersection(p1, p2, p3, p4).value;
    IntersectionOnBothLines(p1, p2, p3, p4);
    var u, v := Sub(p2, p1), Sub(p4, p3);
    var d := Sub(q, i);
    assert Cross(u, d) == 0.0 by {
      assert Cross(u, Sub(q, p1)) == 0.0 && Cross(u, Sub(i, p1)) == 0.0;
    }
    assert Cross(v, d) == 0.0 by {
      assert Cross(v, Sub(q, p3)) == 0.0 && Cross(v, Sub(i, p3)) == 0.0;
    }
    var det := Cross(u, v);
    assert det == Denominator(p1, p2, p3, p4);
    assert u.x * Cross(v, d) - v.x * Cross(u, d) == d.x * det;
    assert u.y * Cross(v, d) - v.y * Cross(u, d) == d.y * det;
  }

  /** `isPointBetween`: p lies in the closed box spanned by a and b. */
  function IsPointBetween(p: Point, a: Point, b: Point): (between: bool)
    ensures between <==> Min(a.x, b.x) <= p.x <= Max(a.x, b.x) && Min(a.y, b.y) <= p.y <= Max(a.y, b.y)
  {
    ((a.x <= p.x && p.x <= b.x) || (a.x >= p.x && p.x >= b.x)) &&
    ((a.y <= p.y && p.y <= b.y) || (a.y >= p.y && p.y >= b.y))
  }

  /** The order of the two corners does not matter. */
  lemma PointBetweenSymmetric(p: Point, a: Point, b: Point)
    ensures IsPointBetween(p, a, b) == IsPointBetween(p, b, a)
  {
  }

  /** `findSegmentIntersection`: the lines' common point when it lies within
      both segments' boxes, and null otherwise, in particular for parallel
      segments. */
  function FindSegmentIntersection(p1: Point, p2: Point, p3: Point, p4: Point): (r: Option<Point>)
    ensures r.Some? ==> OnLine(r.value, p1, p2) && OnLine(r.value, p3, p4)
    ensures r.Some? ==> IsPointBetween(r.value, p1, p2) && IsPointBetween(r.value, p3, p4)
    ensures r.None? <==>
      || Denominator(p1, p2, p3, p4) == 0.0
      || !IsPointBetween(FindIntersection(p1, p2, p3, p4).value, p1, p2)
      || !IsPointBetween(FindIntersection(p1, p2, p3, p4).value, p3, p4)
  {
    var i := FindIntersection(p1, p2, p3, p4);
    if i.Some? && IsPointBetween(i.value, p1, p2) && IsPointBetween(i.value, p3, p4) then
      IntersectionOnBothLines(p1, p2, p3, p4);
      i
    else
      None
  }

  /** A point on both segments is what the function returns: it finds every
      crossing of two non-parallel segments. */
  lemma SegmentIntersectionComplete(p1: Point, p2: Point, p3: Point, p4: Point, q: Point)
    requires Denominator(p1, p2, p3, p4) != 0.0
    requires OnLine(q, p1, p2) && OnLine(q, p3, p4)
    requires IsPointBetween(q, p1, p2) && IsPointBetween(q, p3, p4)
    ensures FindSegmentIntersection(p1, p2, p3, p4) == Some(q)
  {
    IntersectionUnique(p1, p2, p3, p4, q);
  }

  /** The answer does not depend on which segment is named first. */
  lemma SegmentIntersectionSymmetric(p1: Point, p2: Point, p3: Point, p4: Point)
    ensures FindSegmentIntersection(p1, p2, p3, p4) == FindSegmentIntersection(p3, p4, p1, p2)
  {
    assert Denominator(p3, p4, p1, p2) == -Denominator(p1, p2, p3, p4);
    if Denominator(p1, p2, p3, p4) != 0.0 {
      var q := FindIntersection(p1, p2, p3, p4).value;
      IntersectionOnBothLines(p1, p2, p3, p4);
      IntersectionUnique(p3, p4, p1, p2, q);
    }
  }

  /** Parallel segments do not meet (first test of test/line-intersection.test.ts). */
  lemma ParallelSegments()
    ensures FindSegmentIntersection(Point(0.0, 0.0), Point(100.0, 0.0), Point(20.0, 20.0), Point(120.0, 20.0)) == None
  {
  }

  /** A vertical and a horizontal segment crossing at (50, 20) (second test). */
  lemma CrossingSegments()
    ensures FindSegmentIntersection(Point(50.0, 0.0), Point(50.0, 100.0), Point(0.0, 20.0), Point(120.0, 20.0))
         == Some(Point(50.0, 20.0))
  {
    var p1, p2, p3, p4 := Point(50.0, 0.0), Point(50.0, 100.0), Point(0.0, 20.0), Point(120.0, 20.0);
    assert Denominator(p1, p2, p3, p4) == -12000.0;
    assert FindIntersection(p1, p2, p3, p4) == Some(Point(-600000.0 / -12000.0, -240000.0 / -12000.0));
  }
}
