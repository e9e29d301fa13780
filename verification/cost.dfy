/** Manhattan cost of a polyline and the cheapest-candidate choice (`minPaths`),
    which every router variant uses with the same first-wins tie-break. */
module Cost {
  import opened Geometry
  import opened Outcomes

  /** Sum of |dx| + |dy| over the segments. It is never below the distance
      between the two ends, so no polyline beats the straight Manhattan route. */
  function PathCost(path: Path): (c: real)
    ensures 0.0 <= c
    ensures 2 <= |path| ==> ManhattanDistance(path[0], path[|path| - 1]) <= c
    decreases |path|
  {
    if |path| < 2 then 0.0 else ManhattanDistance(path[0], path[1]) + PathCost(path[1..])
  }

  /** Candidate k is no dearer than any of the first n candidates, and strictly
      cheaper than every one listed before it. */
  ghost predicate IsFirstCheapestAmong(cands: seq<Path>, n: int, k: int)
    requires n <= |cands|
  {
    && 0 <= k < n
    && (forall j :: 0 <= j < n ==> PathCost(cands[k]) <= PathCost(cands[j]))
    && (forall j :: 0 <= j < k ==> PathCost(cands[k]) < PathCost(cands[j]))
  }

  ghost predicate IsFirstCheapest(cands: seq<Path>, k: int)
  {
    IsFirstCheapestAmong(cands, |cands|, k)
  }

  /** The left-to-right scan of `minPaths`: `best` is the first cheapest of the
      candidates before `i`, and only a strictly cheaper one replaces it. */
  function ScanCheapest(cands: seq<Path>, i: nat, best: nat): (k: nat)
    requires best < i <= |cands|
    requires IsFirstCheapestAmong(cands, i, best)
    ensures IsFirstCheapest(cands, k)
    decreases |cands| - i
  {
    if i == |cands| then best
    else if PathCost(cands[i]) < PathCost(cands[best]) then ScanCheapest(cands, i + 1, i)
    else ScanCheapest(cands, i + 1, best)
  }

  /** `minPaths`: the earliest candidate of least cost. On an empty list the
      source indexes past the end and yields `undefined`. */
  function MinPaths(cands: seq<Path>): (r: Option<Path>)
    ensures r.None? <==> |cands| == 0
    ensures r.Some? ==> exists k :: IsFirstCheapest(cands, k) && r.value == cands[k]
    ensures r.Some? ==> r.value in cands && forall j :: 0 <= j < |cands| ==> PathCost(r.value) <= PathCost(cands[j])
  {
    if |cands| == 0 then None else Some(cands[ScanCheapest(cands, 1, 0)])
  }

  /** Between two candidates the second wins only when strictly cheaper. */
  lemma MinPathsOfPair(p: Path, q: Path)
    ensures MinPaths([p, q]) == Some(if PathCost(q) < PathCost(p) then q else p)
  {
    var cands := [p, q];
    assert IsFirstCheapestAmong(cands, 1, 0);
    if PathCost(q) < PathCost(p) {
      assert ScanCheapest(cands, 1, 0) == ScanCheapest(cands, 2, 1);
    } else {
      assert ScanCheapest(cands, 1, 0) == ScanCheapest(cands, 2, 0);
    }
  }

  /** The cost of a five-point route is the sum of its four legs. */
  lemma PathCostOfFive(a: Point, b: Point, c: Point, d: Point, e: Point)
    ensures PathCost([a, b, c, d, e])
         == ManhattanDistance(a, b) + ManhattanDistance(b, c) + ManhattanDistance(c, d) + ManhattanDistance(d, e)
  {
    assert PathCost([e]) == 0.0;
    assert [d, e][1..] == [e];
    assert PathCost([d, e]) == ManhattanDistance(d, e);
    assert [c, d, e][1..] == [d, e];
    assert PathCost([c, d, e]) == ManhattanDistance(c, d) + PathCost([d, e]);
    assert [b, c, d, e][1..] == [c, d, e];
    assert PathCost([b, c, d, e]) == ManhattanDistance(b, c) + PathCost([c, d, e]);
    assert [a, b, c, d, e][1..] == [b, c, d, e];
  }
}
