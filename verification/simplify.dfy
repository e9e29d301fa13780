/** `simplifyPath` of sil/index4.ts: a single left-to-right pass that drops a
    point landing on the previous one and cuts out a there-and-back spike (a
    point landing on the one before the previous). Points are compared after
    truncating their coordinates toward zero. */
module Simplify {
  import opened Geometry

  /** `isSamePoint`: both coordinates agree once truncated toward zero. */
  predicate IsSamePoint(p: Point, q: Point)
  {
    Trunc(p.x) == Trunc(q.x) && Trunc(p.y) == Trunc(q.y)
  }

  /** Truncated equality is an equivalence: the pass treats every point of one
      unit cell (per quadrant) as the same place. */
  lemma SamePointIsEquivalence(p: Point, q: Point, s: Point)
    ensures IsSamePoint(p, p)
    ensures IsSamePoint(p, q) ==> IsSamePoint(q, p)
    ensures IsSamePoint(p, q) && IsSamePoint(q, s) ==> IsSamePoint(p, s)
  {
  }

  /** A point with whole-number coordinates. */
  predicate IsIntegral(p: Point)
  {
    p.x == Trunc(p.x) as real && p.y == Trunc(p.y) as real
  }

  /** On whole-number coordinates the truncated comparison is plain equality. */
  lemma SameIntegralPoints(p: Point, q: Point)
    requires IsIntegral(p) && IsIntegral(q)
    ensures IsSamePoint(p, q) <==> p == q
  {
  }

  /** No point is the same as its neighbour or as the point two places on. */
  ghost predicate NoNearDuplicates(s: Path)
  {
    && (forall i :: 0 < i < |s| ==> !IsSamePoint(s[i - 1], s[i]))
    && (forall i :: 1 < i < |s| ==> !IsSamePoint(s[i - 2], s[i]))
  }

  /** `f` places each point of s at a position of t holding the same point,
      at strictly increasing positions. */
  ghost predicate Embeds(f: seq<int>, s: Path, t: Path)
  {
    && |f| == |s|
    && (forall i :: 0 <= i < |f| ==> 0 <= f[i] < |t| && s[i] == t[f[i]])
    && (forall i, j :: 0 <= i < j < |f| ==> f[i] < f[j])
  }

  /** s is t with some points left out and the rest in their order. */
  ghost predicate Subseq(s: Path, t: Path)
  {
    exists f :: Embeds(f, s, t)
  }

  /** A subsequence stays one when a point is appended to the longer path. */
  lemma SubseqExtend(s: Path, t: Path, q: Point)
    requires Subseq(s, t)
    ensures Subseq(s, t + [q])
  {
    var f :| Embeds(f, s, t);
    assert Embeds(f, s, t + [q]);
  }

  /** Appending the same point to both keeps a subsequence. */
  lemma SubseqAppendBoth(s: Path, t: Path, q: Point)
    requires Subseq(s, t)
    ensures Subseq(s + [q], t + [q])
  {
    var f :| Embeds(f, s, t);
    assert Embeds(f + [|t|], s + [q], t + [q]);
  }

  /** Dropping the last point of a subsequence leaves a subsequence. */
  lemma SubseqDropLast(s: Path, t: Path)
    requires |s| > 0 && Subseq(s, t)
    ensures Subseq(s[..|s| - 1], t)
  {
    var f :| Embeds(f, s, t);
    assert Embeds(f[..|f| - 1], s[..|s| - 1], t);
  }

  /** The empty path is a subsequence of any path. */
  lemma SubseqEmpty(t: Path)
    ensures Subseq([], t)
  {
    assert Embeds([], [], t);
  }

  /** One step of the pass over the points kept so far. */
  function Step(kept: Path, point: Point): (next: Path)
    ensures |next| >= 1 || |kept| == 0
    ensures |kept| >= 1 ==> next[0] == kept[0]
    ensures |next| >= 1 ==> IsSamePoint(next[|next| - 1], point)
    ensures next == kept || (|kept| >= 1 && next == kept[..|kept| - 1]) || next == kept + [point]
  {
    if |kept| >= 1 && IsSamePoint(kept[|kept| - 1], point) then kept
    else if |kept| >= 2 && IsSamePoint(kept[|kept| - 2], point) then kept[..|kept| - 1]
    else kept + [point]
  }

  /** A step keeps the kept points a subsequence of the points seen. */
  lemma StepSubseq(kept: Path, seen: Path, point: Point)
    requires Subseq(kept, seen)
    ensures Subseq(Step(kept, point), seen + [point])
  {
    if |kept| >= 1 && IsSamePoint(kept[|kept| - 1], point) {
      SubseqExtend(kept, seen, point);
    } else if |kept| >= 2 && IsSamePoint(kept[|kept| - 2], point) {
      SubseqDropLast(kept, seen);
      SubseqExtend(kept[..|kept| - 1], seen, point);
    } else {
      SubseqAppendBoth(kept, seen, point);
    }
  }

  /** `simplifyPath`: keeps the first point, never grows the path, leaves it
      without near duplicates, and ends at (the truncated place of) the last
      input point. Every kept point is an input point; `SimplifyIsSubsequence`
      adds that they keep their input order. */
  function SimplifyPath(path: Path): (r: Path)
    ensures |r| <= |path|
    ensures |r| == 0 <==> |path| == 0
    ensures |path| > 0 ==> r[0] == path[0] && IsSamePoint(r[|r| - 1], path[|path| - 1])
    ensures NoNearDuplicates(r)
    ensures forall q :: q in r ==> q in path
    decreases |path|
  {
    if |path| == 0 then []
    else
      var init := path[..|path| - 1];
      var kept := SimplifyPath(init);
      assert forall q :: q in init ==> q in path;
      Step(kept, path[|path| - 1])
  }

  /** The pass only drops points: its result is a subsequence of its input. */
  lemma {:induction false} SimplifyIsSubsequence(path: Path)
    ensures Subseq(SimplifyPath(path), path)
    decreases |path|
  {
    if |path| == 0 {
      SubseqEmpty(path);
    } else {
      var init := path[..|path| - 1];
      SimplifyIsSubsequence(init);
      StepSubseq(SimplifyPath(init), init, path[|path| - 1]);
      assert init + [path[|path| - 1]] == path;
    }
  }

  /** A path without near duplicates passes through unchanged. */
  lemma {:induction false} SimplifyKeepsCleanPath(s: Path)
    requires NoNearDuplicates(s)
    ensures SimplifyPath(s) == s
    decreases |s|
  {
    if |s| > 0 {
      var init := s[..|s| - 1];
      assert NoNearDuplicates(init) by {
        forall i | 0 < i < |init| ensures !IsSamePoint(init[i - 1], init[i]) {
          assert init[i - 1] == s[i - 1] && init[i] == s[i];
        }
        forall i | 1 < i < |init| ensures !IsSamePoint(init[i - 2], init[i]) {
          assert init[i - 2] == s[i - 2] && init[i] == s[i];
        }
      }
      SimplifyKeepsCleanPath(init);
      assert init + [s[|s| - 1]] == s;
    }
  }

  /** Simplifying twice is simplifying once. */
  lemma SimplifyIdempotent(path: Path)
    ensures SimplifyPath(SimplifyPath(path)) == SimplifyPath(path)
  {
    SimplifyKeepsCleanPath(SimplifyPath(path));
  }

  /** Every point of the path has whole-number coordinates. */
  ghost predicate AllIntegral(s: Path)
  {
    forall q :: q in s ==> IsIntegral(q)
  }

  /** One step on whole-number points keeps the kept points orthogonal when the
      new point is aligned with the last kept one, and ends exactly at it. */
  lemma StepKeepsOrthogonal(kept: Path, point: Point)
    requires AllIntegral(kept) && IsIntegral(point) && IsOrthogonal(kept)
    requires |kept| >= 1 ==> AxisAligned(kept[|kept| - 1], point)
    ensures var next := Step(kept, point);
      IsOrthogonal(next) && |next| >= 1 && next[|next| - 1] == point
  {
    if |kept| >= 1 {
      assert kept[|kept| - 1] in kept;
      SameIntegralPoints(kept[|kept| - 1], point);
    }
    if |kept| >= 2 {
      assert kept[|kept| - 2] in kept;
      SameIntegralPoints(kept[|kept| - 2], point);
    }
  }

  /** On whole-number coordinates the pass keeps an orthogonal path orthogonal
      and ends exactly at the last input point. */
  lemma {:induction false} SimplifyKeepsOrthogonal(path: Path)
    requires AllIntegral(path) && IsOrthogonal(path)
    ensures IsOrthogonal(SimplifyPath(path))
    ensures |path| > 0 ==> SimplifyPath(path)[|SimplifyPath(path)| - 1] == path[|path| - 1]
    decreases |path|
  {
    if |path| > 0 {
      var init := path[..|path| - 1];
      assert IsOrthogonal(init) by {
        forall i | 0 < i < |init| ensures AxisAligned(init[i - 1], init[i]) {
          assert init[i - 1] == path[i - 1] && init[i] == path[i];
        }
      }
      assert AllIntegral(SimplifyPath(init)) && IsIntegral(path[|path| - 1]) by {
        assert forall q :: q in init ==> q in path;
        assert path[|path| - 1] in path;
      }
      SimplifyKeepsOrthogonal(init);
      if |init| > 0 {
        assert AxisAligned(path[|path| - 2], path[|path| - 1]);
      }
      StepKeepsOrthogonal(SimplifyPath(init), path[|path| - 1]);
    }
  }
}
