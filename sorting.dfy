// Stable sorting of action indices by a real weight.
//
// A stable sort of indices by weight orders them by the pair
// (weight, index); that order is strict and total on distinct indices, so
// the sorted result is unique. Python's `sorted`, Rust's `sort_by` and
// `sort_by_key` are stable, and each caller in the solver sorts the indices
// of one vector, so this is the sort they all perform.
module Sorting {
  import opened Reals

  /** `i` comes before `j` when its weight is smaller, or equal with a smaller index. */
  predicate Before(w: seq<real>, i: nat, j: nat)
    requires i < |w| && j < |w|
  {
    w[i] < w[j] || (w[i] == w[j] && i < j)
  }

  predicate InRange(w: seq<real>, s: seq<nat>)
  {
    forall k :: 0 <= k < |s| ==> s[k] < |w|
  }

  predicate SortedBy(w: seq<real>, s: seq<nat>)
    requires InRange(w, s)
  {
    forall a, b :: 0 <= a < b < |s| ==> Before(w, s[a], s[b])
  }

  function Insert(w: seq<real>, x: nat, s: seq<nat>): (r: seq<nat>)
    requires x < |w| && InRange(w, s)
    ensures InRange(w, r) && multiset(r) == multiset(s) + multiset{x} && |r| == |s| + 1
  {
    if |s| == 0 then [x]
    else if Before(w, x, s[0]) then [x] + s
    else
      var t := Insert(w, x, s[1..]);
      assert s == [s[0]] + s[1..];
      [s[0]] + t
  }

  lemma {:induction false} InsertSorted(w: seq<real>, x: nat, s: seq<nat>)
    requires x < |w| && InRange(w, s) && SortedBy(w, s) && x !in s
    ensures SortedBy(w, Insert(w, x, s))
  {
    if |s| > 0 && !Before(w, x, s[0]) {
      InsertSorted(w, x, s[1..]);
      var t := Insert(w, x, s[1..]);
      assert x in multiset(t);
      forall k | 0 <= k < |t|
        ensures Before(w, s[0], t[k])
      {
        assert t[k] in multiset(t);
        if t[k] != x {
          assert t[k] in multiset(s[1..]);
          var m :| 0 <= m < |s[1..]| && s[1..][m] == t[k];
          assert s[1 + m] == t[k];
        }
      }
    }
  }

  /** The indices of `xs`, stably sorted by ascending weight. */
  function SortIndices(w: seq<real>, xs: seq<nat>): (r: seq<nat>)
    requires InRange(w, xs)
    ensures InRange(w, r) && multiset(r) == multiset(xs) && |r| == |xs|
  {
    if |xs| == 0 then []
    else
      assert xs == xs[..|xs| - 1] + [xs[|xs| - 1]];
      Insert(w, xs[|xs| - 1], SortIndices(w, xs[..|xs| - 1]))
  }

  predicate Distinct(xs: seq<nat>)
  {
    forall a, b :: 0 <= a < b < |xs| ==> xs[a] != xs[b]
  }

  lemma {:induction false} SortIndicesSorted(w: seq<real>, xs: seq<nat>)
    requires InRange(w, xs) && Distinct(xs)
    ensures SortedBy(w, SortIndices(w, xs))
  {
    if |xs| > 0 {
      var init := xs[..|xs| - 1];
      SortIndicesSorted(w, init);
      var x := xs[|xs| - 1];
      assert x !in multiset(init);
      InsertSorted(w, x, SortIndices(w, init));
    }
  }

  /** 0, 1, ..., n-1. */
  function Indices(n: nat): (r: seq<nat>)
    ensures |r| == n && forall k :: 0 <= k < n ==> r[k] == k
  {
    seq(n, k => k)
  }

  /** Weights negated, so that ascending order on them is descending order on `w`. */
  function Negated(w: seq<real>): (r: seq<real>)
    ensures |r| == |w| && forall k :: 0 <= k < |w| ==> r[k] == -w[k]
  {
    seq(|w|, k requires 0 <= k < |w| => -w[k])
  }

  /** All action indices in ascending order of weight (ties: lower index first). */
  function Ascending(w: seq<real>): (r: seq<nat>)
    ensures InRange(w, r) && |r| == |w| && multiset(r) == multiset(Indices(|w|))
  {
    SortIndices(w, Indices(|w|))
  }

  /** All action indices in descending order of weight (ties: lower index first). */
  function Descending(w: seq<real>): (r: seq<nat>)
    ensures InRange(w, r) && |r| == |w| && multiset(r) == multiset(Indices(|w|))
  {
    SortIndices(Negated(w), Indices(|w|))
  }

  lemma {:induction false} AscendingSorted(w: seq<real>)
    ensures SortedBy(w, Ascending(w))
  {
    SortIndicesSorted(w, Indices(|w|));
  }

  lemma {:induction false} DescendingSorted(w: seq<real>)
    ensures SortedBy(Negated(w), Descending(w))
  {
    SortIndicesSorted(Negated(w), Indices(|w|));
  }

  /** Every index of the vector occurs in a sort of all indices. */
  lemma {:induction false} MemberOfSort(w: seq<real>, r: seq<nat>, i: nat)
    requires |r| == |w| && multiset(r) == multiset(Indices(|w|)) && i < |w|
    ensures i in r
  {
    assert Indices(|w|)[i] == i;
    assert i in multiset(Indices(|w|));
    assert i in multiset(r);
  }

  /** The elements of a sort of all indices are distinct. */
  lemma {:induction false} SortDistinct(r: seq<nat>, n: nat)
    requires multiset(r) == multiset(Indices(n))
    ensures Distinct(r)
  {
    forall a, b | 0 <= a < b < |r|
      ensures r[a] != r[b]
    {
      if r[a] == r[b] {
        var x := r[a];
        assert multiset(r)[x] >= 2 by {
          assert r == r[..a] + [r[a]] + r[a + 1..b] + [r[b]] + r[b + 1..];
        }
        IndicesCount(n, x);
      }
    }
  }

  lemma {:induction false} IndicesCount(n: nat, x: nat)
    ensures multiset(Indices(n))[x] <= 1
  {
    if n > 0 {
      assert Indices(n) == Indices(n - 1) + [n - 1];
      IndicesCount(n - 1, x);
      if x == n - 1 {
        assert x !in Indices(n - 1);
      }
    }
  }

  /** Each element of the first k of a sorted sequence comes before each later element. */
  lemma {:induction false} PrefixBeforeSuffix(w: seq<real>, s: seq<nat>, k: nat, a: nat, b: nat)
    requires InRange(w, s) && SortedBy(w, s) && k <= |s|
    requires a in s[..k] && b in s[k..]
    ensures Before(w, a, b)
  {
    var i :| 0 <= i < k && s[..k][i] == a;
    var j :| 0 <= j < |s| - k && s[k..][j] == b;
    assert s[i] == a && s[k + j] == b;
  }

  /** An index in the first m of the descending order weighs at least as much as any index after them. */
  lemma {:induction false} DescendingPrefixIsTop(w: seq<real>, m: nat, a: nat, b: nat)
    requires m <= |w| && a in Descending(w)[..m] && b < |w| && b !in Descending(w)[..m]
    ensures w[a] >= w[b]
  {
    var s := Descending(w);
    DescendingSorted(w);
    MemberOfSort(w, s, b);
    assert s == s[..m] + s[m..];
    assert b in s[m..];
    PrefixBeforeSuffix(Negated(w), s, m, a, b);
  }

  /** The first m of the descending order hold no index twice. */
  lemma {:induction false} DescendingPrefixDistinct(w: seq<real>, m: nat)
    requires m <= |w|
    ensures Distinct(Descending(w)[..m])
  {
    SortDistinct(Descending(w), |w|);
  }

  /** The descending order starts at the first index of maximal weight. */
  lemma {:induction false} DescendingHeadIsFirstArgMax(w: seq<real>)
    requires |w| > 0
    ensures Descending(w)[0] == FirstArgMax(w)
  {
    var s := Descending(w);
    var k := s[0];
    DescendingSorted(w);
    SortDistinct(s, |w|);
    forall j | 0 <= j < |w| && j != k
      ensures w[j] < w[k] || (w[j] == w[k] && k < j)
    {
      MemberOfSort(w, s, j);
      var i :| 0 <= i < |s| && s[i] == j;
      assert i != 0;
      assert Before(Negated(w), s[0], s[i]);
    }
    assert IsFirstArgMax(w, k);
  }
}
