// Helpers on vectors of reals: sums, means, products, argmax and
// probability distributions. Every solver generation stores a strategy,
// a regret vector or a counterfactual vector as one real per action; these
// are their common building blocks.
module Reals {

  /** Sum of a vector, folded from the left as the solvers' iterators do. */
  function Sum(s: seq<real>): real
  {
    if |s| == 0 then 0.0 else Sum(s[..|s| - 1]) + s[|s| - 1]
  }

  /** Sum of the first k entries. */
  function PrefixSum(s: seq<real>, k: nat): real
    requires k <= |s|
  {
    Sum(s[..k])
  }

  /** Product of a vector; 1 for the empty vector. */
  function Product(s: seq<real>): real
  {
    if |s| == 0 then 1.0 else Product(s[..|s| - 1]) * s[|s| - 1]
  }

  /** Arithmetic mean; 0 for the empty vector. */
  function Mean(s: seq<real>): real
  {
    if |s| == 0 then 0.0 else Sum(s) / (|s| as real)
  }

  /** The largest entry, or `lo` when that is larger (a fold starting at `lo`). */
  function MaxFrom(lo: real, s: seq<real>): real
  {
    if |s| == 0 then lo
    else
      var m := MaxFrom(lo, s[..|s| - 1]);
      if s[|s| - 1] > m then s[|s| - 1] else m
  }

  function Uniform(n: nat): (r: seq<real>)
    requires n > 0
    ensures |r| == n && forall i :: 0 <= i < n ==> r[i] == 1.0 / (n as real)
  {
    seq(n, i => 1.0 / (n as real))
  }

  function Scale(s: seq<real>, c: real): (r: seq<real>)
    ensures |r| == |s| && forall i :: 0 <= i < |s| ==> r[i] == s[i] * c
  {
    seq(|s|, i requires 0 <= i < |s| => s[i] * c)
  }

  /** Every entry divided by d. */
  function Divided(s: seq<real>, d: real): (r: seq<real>)
    requires d != 0.0
    ensures |r| == |s| && forall i :: 0 <= i < |s| ==> r[i] == s[i] / d
  {
    seq(|s|, i requires 0 <= i < |s| => s[i] / d)
  }

  /** Entrywise product. */
  function Times(a: seq<real>, b: seq<real>): (r: seq<real>)
    requires |a| == |b|
    ensures |r| == |a| && forall i :: 0 <= i < |a| ==> r[i] == a[i] * b[i]
  {
    seq(|a|, i requires 0 <= i < |a| => a[i] * b[i])
  }

  /** Σ a[i]·b[i], summed left to right. */
  function Dot(a: seq<real>, b: seq<real>): real
    requires |a| == |b|
  {
    Sum(Times(a, b))
  }

  predicate NonNegative(s: seq<real>)
  {
    forall i :: 0 <= i < |s| ==> s[i] >= 0.0
  }

  /** A probability distribution over |s| actions. */
  predicate IsDistribution(s: seq<real>)
  {
    NonNegative(s) && Sum(s) == 1.0
  }

  /** `k` is the FIRST index holding the maximum (numpy argmax, a strict `>` scan). */
  predicate IsFirstArgMax(s: seq<real>, k: int)
  {
    0 <= k < |s| &&
    (forall j :: 0 <= j < |s| ==> s[j] <= s[k]) &&
    (forall j :: 0 <= j < k ==> s[j] < s[k])
  }

  /** `k` is the LAST index holding the maximum (Rust's `Iterator::max_by`). */
  predicate IsLastArgMax(s: seq<real>, k: int)
  {
    0 <= k < |s| &&
    (forall j :: 0 <= j < |s| ==> s[j] <= s[k]) &&
    (forall j :: k < j < |s| ==> s[j] < s[k])
  }

  function FirstArgMax(s: seq<real>): (k: nat)
    requires |s| > 0
    ensures IsFirstArgMax(s, k)
  {
    if |s| == 1 then 0
    else
      var k := FirstArgMax(s[..|s| - 1]);
      assert forall j :: 0 <= j < |s| - 1 ==> s[..|s| - 1][j] == s[j];
      if s[|s| - 1] > s[k] then |s| - 1 else k
  }

  function LastArgMax(s: seq<real>): (k: nat)
    requires |s| > 0
    ensures IsLastArgMax(s, k)
  {
    if |s| == 1 then 0
    else
      var k := LastArgMax(s[..|s| - 1]);
      assert forall j :: 0 <= j < |s| - 1 ==> s[..|s| - 1][j] == s[j];
      if s[|s| - 1] >= s[k] then |s| - 1 else k
  }

  // ---------------------------------------------------------------------
  // Lemmas about Sum

  lemma {:induction false} SumAppend(a: seq<real>, b: seq<real>)
    ensures Sum(a + b) == Sum(a) + Sum(b)
  {
    if |b| == 0 {
      assert a + b == a;
    } else {
      assert (a + b)[..|a + b| - 1] == a + b[..|b| - 1];
      SumAppend(a, b[..|b| - 1]);
    }
  }

  lemma {:induction false} SumSingle(x: real)
    ensures Sum([x]) == x
  {
    assert [x][..0] == [];
  }

  lemma {:induction false} SumNonNegative(s: seq<real>)
    requires NonNegative(s)
    ensures Sum(s) >= 0.0
  {
    if |s| > 0 {
      SumNonNegative(s[..|s| - 1]);
    }
  }

  /** Each entry of a non-negative vector is at most its sum. */
  lemma {:induction false} EntryAtMostSum(s: seq<real>, i: int)
    requires NonNegative(s) && 0 <= i < |s|
    ensures s[i] <= Sum(s)
  {
    if i == |s| - 1 {
      SumNonNegative(s[..|s| - 1]);
    } else {
      EntryAtMostSum(s[..|s| - 1], i);
    }
  }

  lemma {:induction false} SumConstant(n: nat, c: real, s: seq<real>)
    requires |s| == n && forall i :: 0 <= i < n ==> s[i] == c
    ensures Sum(s) == (n as real) * c
  {
    if n > 0 {
      SumConstant(n - 1, c, s[..n - 1]);
    }
  }

  lemma {:induction false} SumUniform(n: nat)
    requires n > 0
    ensures IsDistribution(Uniform(n))
  {
    SumConstant(n, 1.0 / (n as real), Uniform(n));
  }

  lemma {:induction false} SumScale(s: seq<real>, c: real)
    ensures Sum(Scale(s, c)) == Sum(s) * c
  {
    if |s| > 0 {
      var t := s[..|s| - 1];
      assert forall i :: 0 <= i < |t| ==> Scale(s, c)[..|s| - 1][i] == Scale(t, c)[i];
      assert Scale(s, c)[..|s| - 1] == Scale(t, c);
      SumScale(s[..|s| - 1], c);
    }
  }

  /** Sum of the pointwise sum of two vectors. */
  lemma {:induction false} SumPointwise(a: seq<real>, b: seq<real>, r: seq<real>)
    requires |a| == |b| == |r| && forall i :: 0 <= i < |r| ==> r[i] == a[i] + b[i]
    ensures Sum(r) == Sum(a) + Sum(b)
  {
    if |r| > 0 {
      SumPointwise(a[..|a| - 1], b[..|b| - 1], r[..|r| - 1]);
    }
  }

  /** Replacing one entry changes the sum by the difference. */
  lemma {:induction false} SumUpdate(s: seq<real>, i: int, v: real)
    requires 0 <= i < |s|
    ensures Sum(s[i := v]) == Sum(s) - s[i] + v
  {
    if i == |s| - 1 {
      assert s[i := v][..|s| - 1] == s[..|s| - 1];
    } else {
      assert s[i := v][..|s| - 1] == s[..|s| - 1][i := v];
      SumUpdate(s[..|s| - 1], i, v);
    }
  }

  lemma {:induction false} SumAllZero(s: seq<real>)
    requires forall i :: 0 <= i < |s| ==> s[i] == 0.0
    ensures Sum(s) == 0.0
  {
    if |s| > 0 {
      SumAllZero(s[..|s| - 1]);
    }
  }

  /** A non-negative vector with sum 0 is all zeros. */
  lemma {:induction false} ZeroSumNonNegative(s: seq<real>, i: int)
    requires NonNegative(s) && Sum(s) == 0.0 && 0 <= i < |s|
    ensures s[i] == 0.0
  {
    EntryAtMostSum(s, i);
  }

  /** Dividing a vector with non-zero sum by that sum gives a vector summing to 1. */
  lemma {:induction false} Normalized(s: seq<real>, total: real)
    requires total == Sum(s) && total != 0.0
    ensures Sum(Scale(s, 1.0 / total)) == 1.0
  {
    SumScale(s, 1.0 / total);
  }

  /** The components of a one-hot vector sum to 1. */
  lemma {:induction false} SumOneHot(s: seq<real>, k: int)
    requires 0 <= k < |s| && s[k] == 1.0
    requires forall i :: 0 <= i < |s| && i != k ==> s[i] == 0.0
    ensures Sum(s) == 1.0
  {
    var z := seq(|s|, i => 0.0);
    SumAllZero(z);
    assert s == z[k := 1.0];
    SumUpdate(z, k, 1.0);
  }

  lemma {:induction false} ProductNonNegative(s: seq<real>)
    requires NonNegative(s)
    ensures Product(s) >= 0.0
  {
    if |s| > 0 {
      ProductNonNegative(s[..|s| - 1]);
    }
  }

  lemma {:induction false} MaxFromBounds(lo: real, s: seq<real>)
    ensures MaxFrom(lo, s) >= lo
    ensures forall i :: 0 <= i < |s| ==> s[i] <= MaxFrom(lo, s)
    ensures MaxFrom(lo, s) == lo || exists i :: 0 <= i < |s| && MaxFrom(lo, s) == s[i]
  {
    if |s| > 0 {
      MaxFromBounds(lo, s[..|s| - 1]);
      assert forall i :: 0 <= i < |s| - 1 ==> s[..|s| - 1][i] == s[i];
    }
  }


  // ---------------------------------------------------------------------
  // Integer sums, counting, averages and weighted sums

  function SumInt(s: seq<int>): int
  {
    if |s| == 0 then 0 else SumInt(s[..|s| - 1]) + s[|s| - 1]
  }

  /** Replacing one entry changes the integer sum by the difference. */
  lemma {:induction false} SumIntUpdate(s: seq<int>, i: nat, v: int)
    requires i < |s|
    ensures SumInt(s[i := v]) == SumInt(s) - s[i] + v
  {
    if i == |s| - 1 {
      assert s[i := v][..|s| - 1] == s[..|s| - 1];
    } else {
      assert s[i := v][..|s| - 1] == s[..|s| - 1][i := v];
      SumIntUpdate(s[..|s| - 1], i, v);
    }
  }

  /** How many entries are strictly positive. */
  function CountPositive(s: seq<real>): (k: nat)
    ensures k <= |s|
  {
    if |s| == 0 then 0
    else CountPositive(s[..|s| - 1]) + (if s[|s| - 1] > 0.0 then 1 else 0)
  }

  /** `c` where the entry of `s` is positive, 0 elsewhere. */
  function Indicator(s: seq<real>, c: real): (r: seq<real>)
    ensures |r| == |s|
    ensures forall i :: 0 <= i < |s| ==> r[i] == if s[i] > 0.0 then c else 0.0
  {
    seq(|s|, i requires 0 <= i < |s| => if s[i] > 0.0 then c else 0.0)
  }

  lemma {:induction false} SumIndicator(s: seq<real>, c: real)
    ensures Sum(Indicator(s, c)) == (CountPositive(s) as real) * c
  {
    if |s| > 0 {
      var t := s[..|s| - 1];
      assert Indicator(s, c)[..|s| - 1] == Indicator(t, c);
      SumIndicator(t, c);
    }
  }

  /** A vector with positive sum has a positive entry. */
  lemma {:induction false} PositiveSumHasPositiveEntry(s: seq<real>)
    requires Sum(s) > 0.0
    ensures CountPositive(s) > 0
  {
    if |s| > 0 && s[|s| - 1] <= 0.0 {
      PositiveSumHasPositiveEntry(s[..|s| - 1]);
    }
  }

  /** Entrywise average of two vectors of the same length. */
  function Average(a: seq<real>, b: seq<real>): (r: seq<real>)
    requires |a| == |b|
    ensures |r| == |a| && forall i :: 0 <= i < |a| ==> r[i] == (a[i] + b[i]) / 2.0
  {
    seq(|a|, i requires 0 <= i < |a| => (a[i] + b[i]) / 2.0)
  }

  lemma {:induction false} SumAverage(a: seq<real>, b: seq<real>)
    requires |a| == |b|
    ensures Sum(Average(a, b)) == (Sum(a) + Sum(b)) / 2.0
  {
    if |a| > 0 {
      assert Average(a, b)[..|a| - 1] == Average(a[..|a| - 1], b[..|b| - 1]);
      SumAverage(a[..|a| - 1], b[..|b| - 1]);
    }
  }

  /** The average of two distributions is a distribution. */
  lemma {:induction false} AverageDistribution(a: seq<real>, b: seq<real>)
    requires |a| == |b| && IsDistribution(a) && IsDistribution(b)
    ensures IsDistribution(Average(a, b))
  {
    SumAverage(a, b);
  }

  /** Every entry shifted down by `c`. */
  function Shifted(s: seq<real>, c: real): (r: seq<real>)
    ensures |r| == |s| && forall i :: 0 <= i < |s| ==> r[i] == s[i] - c
  {
    seq(|s|, i requires 0 <= i < |s| => s[i] - c)
  }

  lemma {:induction false} DotShifted(p: seq<real>, v: seq<real>, c: real)
    requires |p| == |v|
    ensures Dot(p, Shifted(v, c)) == Dot(p, v) - c * Sum(p)
  {
    SumTimesShifted(p, v, c);
    SumScale(p, -c);
  }

  lemma {:induction false} SumTimesShifted(p: seq<real>, v: seq<real>, c: real)
    requires |p| == |v|
    ensures Sum(Times(p, Shifted(v, c))) == Sum(Times(p, v)) + Sum(Scale(p, -c))
  {
    var t := Times(p, Shifted(v, c));
    forall i | 0 <= i < |p|
      ensures t[i] == Times(p, v)[i] + Scale(p, -c)[i]
    {
      ShiftedTermAt(p, v, c, i);
    }
    SumPointwise(Times(p, v), Scale(p, -c), t);
  }

  lemma {:induction false} ShiftedTermAt(p: seq<real>, v: seq<real>, c: real, i: nat)
    requires |p| == |v| && i < |p|
    ensures Times(p, Shifted(v, c))[i] == Times(p, v)[i] + Scale(p, -c)[i]
  {
    Distribute(p[i], v[i], c);
  }

  lemma {:induction false} Distribute(a: real, b: real, c: real)
    ensures a * (b - c) == a * b + a * (-c)
  {
  }

  lemma {:induction false} BoundedTermAt(p: seq<real>, v: seq<real>, lo: real, hi: real, i: nat)
    requires |p| == |v| && i < |p| && p[i] >= 0.0 && lo <= v[i] <= hi
    ensures Scale(p, lo)[i] <= Times(p, v)[i] <= Scale(p, hi)[i]
  {
    MulMonotone(p[i], lo, v[i]);
    MulMonotone(p[i], v[i], hi);
  }

  /** Entrywise `a <= b` gives `Sum(a) <= Sum(b)`. */
  lemma {:induction false} SumMonotone(a: seq<real>, b: seq<real>)
    requires |a| == |b| && forall i :: 0 <= i < |a| ==> a[i] <= b[i]
    ensures Sum(a) <= Sum(b)
  {
    if |a| > 0 {
      SumMonotone(a[..|a| - 1], b[..|b| - 1]);
    }
  }

  /** A weighted sum with non-negative weights lies between the extreme values times the total weight. */
  lemma {:induction false} DotBounds(p: seq<real>, v: seq<real>, lo: real, hi: real)
    requires |p| == |v| && NonNegative(p)
    requires forall i :: 0 <= i < |v| ==> lo <= v[i] <= hi
    ensures lo * Sum(p) <= Dot(p, v) <= hi * Sum(p)
  {
    var t := Times(p, v);
    forall i | 0 <= i < |p|
      ensures Scale(p, lo)[i] <= t[i] <= Scale(p, hi)[i]
    {
      BoundedTermAt(p, v, lo, hi, i);
    }
    SumMonotone(Scale(p, lo), t);
    SumMonotone(t, Scale(p, hi));
    SumScale(p, lo);
    SumScale(p, hi);
  }

  lemma {:induction false} TimesReciprocal(n: real, k: real)
    requires k != 0.0
    ensures n * (1.0 / k) == n / k && k * (1.0 / k) == 1.0
  {
  }

  lemma {:induction false} DivAdd(a: real, b: real, d: real)
    requires d != 0.0
    ensures (a + b) / d == a / d + b / d
  {
  }

  /** Dividing every entry divides the sum; dividing by the sum itself gives a sum of 1. */
  lemma {:induction false} SumDivided(s: seq<real>, d: real)
    requires d != 0.0
    ensures Sum(Divided(s, d)) == Sum(s) / d
    ensures d == Sum(s) ==> Sum(Divided(s, d)) == 1.0
  {
    if |s| > 0 {
      var n := |s| - 1;
      assert Divided(s, d)[..n] == Divided(s[..n], d);
      SumDivided(s[..n], d);
      DivAdd(Sum(s[..n]), s[n], d);
    }
  }

  lemma {:induction false} MulMonotone(a: real, x: real, y: real)
    requires a >= 0.0 && x <= y
    ensures a * x <= a * y
  {
    assert a * y - a * x == a * (y - x);
  }

  lemma {:induction false} MulStrict(a: real, x: real, y: real)
    requires a > 0.0 && x < y
    ensures a * x < a * y
  {
    assert a * y - a * x == a * (y - x);
  }

  // ---------------------------------------------------------------------
  // One-hot vectors, means and weighted draws

  /** 1 at index k, 0 elsewhere. */
  function OneHot(n: nat, k: nat): (r: seq<real>)
    requires k < n
    ensures |r| == n && r[k] == 1.0
    ensures forall i :: 0 <= i < n && i != k ==> r[i] == 0.0
  {
    seq(n, i => if i == k then 1.0 else 0.0)
  }

  lemma {:induction false} OneHotIsDistribution(n: nat, k: nat)
    requires k < n
    ensures IsDistribution(OneHot(n, k))
  {
    SumOneHot(OneHot(n, k), k);
  }

  /** The first arg-max is unique. */
  lemma {:induction false} FirstArgMaxUnique(s: seq<real>, k: nat)
    requires IsFirstArgMax(s, k)
    ensures k == FirstArgMax(s)
  {
  }

  /** The last arg-max is unique. */
  lemma {:induction false} LastArgMaxUnique(s: seq<real>, k: nat)
    requires IsLastArgMax(s, k)
    ensures k == LastArgMax(s)
  {
  }

  /** The mean of a non-empty vector lies between any bounds of its entries. */
  lemma {:induction false} MeanBounds(s: seq<real>, lo: real, hi: real)
    requires |s| > 0 && forall i :: 0 <= i < |s| ==> lo <= s[i] <= hi
    ensures lo <= Mean(s) <= hi
  {
    var n := |s| as real;
    SumBounds(s, lo, hi);
    assert lo * n <= Sum(s) <= hi * n;
    assert Mean(s) == Sum(s) / n;
    DivBounds(Sum(s), lo, hi, n);
  }

  lemma {:induction false} SumBounds(s: seq<real>, lo: real, hi: real)
    requires forall i :: 0 <= i < |s| ==> lo <= s[i] <= hi
    ensures lo * (|s| as real) <= Sum(s) <= hi * (|s| as real)
  {
    if |s| > 0 {
      SumBounds(s[..|s| - 1], lo, hi);
      assert lo * (|s| as real) == lo * ((|s| - 1) as real) + lo;
      assert hi * (|s| as real) == hi * ((|s| - 1) as real) + hi;
    }
  }

  lemma {:induction false} DivBounds(x: real, lo: real, hi: real, n: real)
    requires n > 0.0 && lo * n <= x <= hi * n
    ensures lo <= x / n <= hi
  {
    assert x / n - lo == (x - lo * n) / n;
    assert hi - x / n == (hi * n - x) / n;
  }

  /**
   * The first index whose running total exceeds `x`: the index that rand's
   * `WeightedIndex` returns for a uniform draw `x` in [0, Sum(w)).
   */
  function Crossing(w: seq<real>, x: real): (k: nat)
    ensures k <= |w|
  {
    if |w| == 0 then 0
    else if w[0] > x then 0
    else 1 + Crossing(w[1..], x - w[0])
  }

  /** A draw below the total weight of non-negative weights selects an index of positive weight. */
  lemma {:induction false} CrossingPositive(w: seq<real>, x: real)
    requires NonNegative(w) && 0.0 <= x < Sum(w)
    ensures Crossing(w, x) < |w| && w[Crossing(w, x)] > 0.0
  {
    if w[0] <= x {
      assert w == [w[0]] + w[1..];
      SumAppend([w[0]], w[1..]);
      SumSingle(w[0]);
      CrossingPositive(w[1..], x - w[0]);
    }
  }

  /** A value v weighted by a probability p, as a named product so that a loop and the function it performs agree term by term. */
  function Weighted(p: real, v: real): real
  {
    p * v
  }

  /** Weighting distributes over a difference. */
  lemma {:induction false} WeightedDifference(p: real, x: real, y: real)
    ensures Weighted(p, y) - Weighted(p, x) == Weighted(p, y - x)
  {
  }

  /** A uniform draw u in [0, 1) stretched to [0, total). */
  function ScaledDraw(u: real, total: real): real
  {
    u * total
  }

  /** A uniform draw u in [0, 1), scaled by the positive total weight, selects an index of positive weight. */
  lemma {:induction false} CrossingDraw(w: seq<real>, u: real, x: real)
    requires NonNegative(w) && Sum(w) > 0.0 && 0.0 <= u < 1.0 && x == ScaledDraw(u, Sum(w))
    ensures Crossing(w, x) < |w| && w[Crossing(w, x)] > 0.0
  {
    FractionBelow(u, Sum(w));
    CrossingPositive(w, x);
  }

  /** A vector with a positive sum has a positive entry. */
  lemma {:induction false} PositiveEntry(s: seq<real>) returns (i: nat)
    requires Sum(s) > 0.0
    ensures i < |s| && s[i] > 0.0
  {
    if s[|s| - 1] > 0.0 {
      i := |s| - 1;
    } else {
      i := PositiveEntry(s[..|s| - 1]);
    }
  }

  /** Scaling a positive total by a fraction below 1 stays below it. */
  lemma {:induction false} FractionBelow(u: real, total: real)
    requires 0.0 <= u < 1.0 && total > 0.0
    ensures 0.0 <= u * total < total
  {
    MulMonotone(total, 0.0, u);
    assert total - u * total == total * (1.0 - u);
    assert total * (1.0 - u) > 0.0;
  }
}
