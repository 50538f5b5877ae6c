/** The convex mix (1 - p)·a + p·b that values a gadget from its alternative and its enter value. */
module Mixing {
  import opened Reals

  /** The mix (1 - p)·a + p·b. */
  function Mixed(a: real, b: real, p: real): real
  {
    (1.0 - p) * a + p * b
  }

  /** A mix with p a probability and a <= b lies between a and b. */
  lemma {:induction false} MixOrdered(a: real, b: real, p: real)
    requires 0.0 <= p <= 1.0 && a <= b
    ensures a <= Mixed(a, b, p) <= b
  {
    MulMonotone(p, a, b);
    MulMonotone(1.0 - p, a, b);
    assert (1.0 - p) * a + p * a == a;
    assert (1.0 - p) * b + p * b == b;
  }

  /** A mix with p a probability lies between a and b. */
  lemma {:induction false} MixBetween(a: real, b: real, p: real)
    requires 0.0 <= p <= 1.0
    ensures (a <= Mixed(a, b, p) <= b) || (b <= Mixed(a, b, p) <= a)
  {
    if a <= b {
      MixOrdered(a, b, p);
    } else {
      MixOrdered(b, a, 1.0 - p);
      assert 1.0 - (1.0 - p) == p;
      assert Mixed(b, a, 1.0 - p) == Mixed(a, b, p);
    }
  }

  /** r lies within [acc + low, acc + high]. */
  predicate Within(acc: real, low: real, high: real, r: real)
  {
    acc + low <= r <= acc + high
  }

  /**
   * One followed child of a utility loop: adding p·v, with v in [lo, hi],
   * to a total that the rest of the loop keeps within [low, high] of it
   * keeps the total within [p·lo + low, p·hi + high] of the total before.
   */
  lemma {:induction false} WithinStep(acc: real, p: real, v: real, lo: real, hi: real, low: real, high: real, r: real)
    requires 0.0 <= p && lo <= v <= hi && Within(acc + Weighted(p, v), low, high, r)
    ensures Within(acc, Weighted(p, lo) + low, Weighted(p, hi) + high, r)
  {
    MulMonotone(p, lo, v);
    assert Weighted(p, lo) <= Weighted(p, v);
    MulMonotone(p, v, hi);
    assert Weighted(p, v) <= Weighted(p, hi);
  }

  /** With lo <= 0 <= hi, a total within [lo·m, hi·m] of 0, for a weight m in [0, 1], lies in [lo, hi]. */
  lemma {:induction false} WithinUnit(lo: real, hi: real, m: real, low: real, high: real, r: real)
    requires lo <= 0.0 <= hi && 0.0 <= m <= 1.0 && low == lo * m && high == hi * m && Within(0.0, low, high, r)
    ensures lo <= r <= hi
  {
    MulMonotone(-lo, m, 1.0);
    MulMonotone(hi, m, 1.0);
  }
}
