/** Ascending numeric sort of a short list of coordinates, standing for the
    source's `[...].sort((a, b) => a - b)`, with the fact that makes the result
    depend only on the multiset of its inputs: a sorted permutation is unique. */
module Sorting {
  import opened Geometry

  ghost predicate Sorted(s: seq<real>)
  {
    forall i, j :: 0 <= i < j < |s| ==> s[i] <= s[j]
  }

  /** Places x in front of the first element that is not smaller. */
  function Insert(x: real, s: seq<real>): (r: seq<real>)
    requires Sorted(s)
    ensures Sorted(r)
    ensures |r| == |s| + 1
    ensures multiset(r) == multiset(s) + multiset{x}
    ensures r[0] == if |s| == 0 then x else Min(x, s[0])
  {
    if |s| == 0 || x <= s[0] then
      [x] + s
    else
      assert s == [s[0]] + s[1..];
      var rest := Insert(x, s[1..]);
      assert s[0] <= rest[0];
      [s[0]] + rest
  }

  function Sort(s: seq<real>): (r: seq<real>)
    ensures Sorted(r)
    ensures |r| == |s|
    ensures multiset(r) == multiset(s)
  {
    if |s| == 0 then
      []
    else
      assert s == [s[0]] + s[1..];
      Insert(s[0], Sort(s[1..]))
  }

  /** The head of a sorted sequence is at most every value it holds. */
  lemma SortedHeadIsLeast(a: seq<real>, v: real)
    requires Sorted(a) && v in multiset(a)
    ensures a[0] <= v
  {
    var i :| 0 <= i < |a| && a[i] == v;
  }

  /** Two sorted sequences holding the same values are the same sequence. */
  lemma {:induction false} SortedUnique(a: seq<real>, b: seq<real>)
    requires Sorted(a) && Sorted(b)
    requires multiset(a) == multiset(b)
    ensures a == b
  {
    if |a| == 0 {
      assert |multiset(b)| == 0;
    } else {
      assert |b| == |a| by {
        assert |multiset(b)| == |multiset(a)|;
      }
      SortedHeadIsLeast(a, b[0]);
      SortedHeadIsLeast(b, a[0]);
      assert a == [a[0]] + a[1..];
      assert b == [b[0]] + b[1..];
      assert multiset(a[1..]) == multiset(b[1..]) by {
        assert a[0] == b[0];
        assert multiset(a) == multiset{a[0]} + multiset(a[1..]);
        assert multiset(b) == multiset{b[0]} + multiset(b[1..]);
        assert multiset(a[1..]) == multiset(a) - multiset{a[0]};
        assert multiset(b[1..]) == multiset(b) - multiset{b[0]};
      }
      SortedUnique(a[1..], b[1..]);
    }
  }

  /** Sorting depends only on the multiset of the inputs. */
  lemma SortPermutationInvariant(s: seq<real>, t: seq<real>)
    requires multiset(s) == multiset(t)
    ensures Sort(s) == Sort(t)
  {
    SortedUnique(Sort(s), Sort(t));
  }

  /** A comparator only reorders the two values it compares. */
  lemma MinMaxPermutes(a: real, b: real)
    ensures multiset{Min(a, b)} + multiset{Max(a, b)} == multiset{a} + multiset{b}
  {
  }

  lemma MultisetOfFour(a: real, b: real, c: real, d: real)
    ensures multiset([a, b, c, d]) == multiset{a} + multiset{b} + multiset{c} + multiset{d}
  {
    var ab := [a] + [b];
    var abc := ab + [c];
    assert multiset(ab) == multiset{a} + multiset{b};
    assert multiset(abc) == multiset(ab) + multiset{c};
    assert [a, b, c, d] == abc + [d];
  }

  /** The five-comparator network on four values, in closed form: comparators
      (0,1) and (2,3), then (0,2) and (1,3), then (1,2). */
  function NetworkSort4(x1: real, x2: real, x3: real, x4: real): seq<real>
  {
    var m1, m2 := Max(Min(x1, x2), Min(x3, x4)), Min(Max(x1, x2), Max(x3, x4));
    [Min(Min(x1, x2), Min(x3, x4)), Min(m1, m2), Max(m1, m2), Max(Max(x1, x2), Max(x3, x4))]
  }

  /** Bookkeeping of the network: if each comparator only swaps the values it
      compares, the outputs are the inputs rearranged. */
  lemma RegroupNetwork(lo: real, s2: real, s3: real, hi: real, m1: real, m2: real,
                       a1: real, a2: real, b1: real, b2: real,
                       x1: real, x2: real, x3: real, x4: real)
    requires multiset{a1} + multiset{b1} == multiset{x1} + multiset{x2}
    requires multiset{a2} + multiset{b2} == multiset{x3} + multiset{x4}
    requires multiset{lo} + multiset{m1} == multiset{a1} + multiset{a2}
    requires multiset{m2} + multiset{hi} == multiset{b1} + multiset{b2}
    requires multiset{s2} + multiset{s3} == multiset{m1} + multiset{m2}
    ensures multiset{lo} + multiset{s2} + multiset{s3} + multiset{hi}
         == multiset{x1} + multiset{x2} + multiset{x3} + multiset{x4}
  {
  }

  /** The four outputs of the network are its four inputs, rearranged. */
  lemma NetworkValuesPermute(x1: real, x2: real, x3: real, x4: real)
    ensures var a1, b1, a2, b2 := Min(x1, x2), Max(x1, x2), Min(x3, x4), Max(x3, x4);
      var lo, m1, m2, hi := Min(a1, a2), Max(a1, a2), Min(b1, b2), Max(b1, b2);
      multiset{lo} + multiset{Min(m1, m2)} + multiset{Max(m1, m2)} + multiset{hi}
         == multiset{x1} + multiset{x2} + multiset{x3} + multiset{x4}
  {
    var a1, b1, a2, b2 := Min(x1, x2), Max(x1, x2), Min(x3, x4), Max(x3, x4);
    var lo, m1, m2, hi := Min(a1, a2), Max(a1, a2), Min(b1, b2), Max(b1, b2);
    MinMaxPermutes(x1, x2);
    MinMaxPermutes(x3, x4);
    MinMaxPermutes(a1, a2);
    MinMaxPermutes(b1, b2);
    MinMaxPermutes(m1, m2);
    RegroupNetwork(lo, Min(m1, m2), Max(m1, m2), hi, m1, m2, a1, a2, b1, b2, x1, x2, x3, x4);
  }

  /** The network's output is in ascending order. */
  lemma NetworkSorted(x1: real, x2: real, x3: real, x4: real)
    ensures Sorted(NetworkSort4(x1, x2, x3, x4))
  {
  }

  /** The network's output holds the same four values as its input. */
  lemma NetworkPermutes(x1: real, x2: real, x3: real, x4: real)
    ensures multiset(NetworkSort4(x1, x2, x3, x4)) == multiset([x1, x2, x3, x4])
  {
    var n := NetworkSort4(x1, x2, x3, x4);
    NetworkValuesPermute(x1, x2, x3, x4);
    MultisetOfFour(x1, x2, x3, x4);
    MultisetOfFour(n[0], n[1], n[2], n[3]);
    assert n == [n[0], n[1], n[2], n[3]];
  }

  /** The ascending sort of four values is the network's output: the least and
      the greatest come from the outer comparators, the middle pair from the
      last one. */
  lemma SortFour(x1: real, x2: real, x3: real, x4: real)
    ensures Sort([x1, x2, x3, x4]) == NetworkSort4(x1, x2, x3, x4)
  {
    NetworkSorted(x1, x2, x3, x4);
    NetworkPermutes(x1, x2, x3, x4);
    SortedUnique(Sort([x1, x2, x3, x4]), NetworkSort4(x1, x2, x3, x4));
  }
}
