// The regret minimiser of the Python prototype (old/obscuro.py, class
// `Policy`). A policy is a set of per-action dictionaries; here each is a
// sequence indexed by the action's position in the dictionary's insertion
// order. Random draws (`np.random.random()`, `random.choice`) are arguments.
module PyPolicy {
  import opened Reals
  import opened Sorting
  import opened Wrappers

  /** Exploration constant C of the quality score. */
  const C: real := 1.0
  /** At most this many actions survive purification. */
  const MAX_SUPPORT: nat := 3

  // ---------------------------------------------------------------------
  // Regret matching

  /** `exploit_policy`: uniform when the net regret is 0, else each regret over the net regret. */
  function ExploitPolicy(acc: seq<real>, net: real): (x: seq<real>)
    ensures |x| == |acc|
  {
    if net == 0.0 then seq(|acc|, a requires 0 <= a < |acc| => 1.0 / (|acc| as real))
    else seq(|acc|, a requires 0 <= a < |acc| => acc[a] / net)
  }

  /** `p_exploit(a)` computes one entry directly; it agrees with `exploit_policy`. */
  function PExploit(acc: seq<real>, net: real, a: nat): (p: real)
    requires a < |acc|
    ensures p == ExploitPolicy(acc, net)[a]
  {
    if net == 0.0 then 1.0 / (|acc| as real) else acc[a] / net
  }

  /** When the net regret is the sum of the regrets, the exploit policy sums to 1. */
  lemma {:induction false} ExploitPolicySumsToOne(acc: seq<real>, net: real)
    requires |acc| > 0 && net == Sum(acc)
    ensures Sum(ExploitPolicy(acc, net)) == 1.0
  {
    var x := ExploitPolicy(acc, net);
    if net == 0.0 {
      SumUniform(|acc|);
      assert forall a :: 0 <= a < |acc| ==> x[a] == Uniform(|acc|)[a];
      assert x == Uniform(|acc|);
    } else {
      Normalized(acc, net);
      assert forall a :: 0 <= a < |acc| ==> x[a] == Scale(acc, 1.0 / net)[a];
      assert x == Scale(acc, 1.0 / net);
    }
  }

  /** With non-negative regrets (every policy after its first update) it is a distribution. */
  lemma {:induction false} ExploitPolicyIsDistribution(acc: seq<real>, net: real)
    requires |acc| > 0 && net == Sum(acc) && NonNegative(acc)
    ensures IsDistribution(ExploitPolicy(acc, net))
  {
    ExploitPolicySumsToOne(acc, net);
    SumNonNegative(acc);
  }

  /** `expectation`: Σ p_exploit(a) · expectations[a] · multiplier. */
  function Expectation(acc: seq<real>, net: real, exps: seq<real>, mult: int): real
    requires |exps| == |acc|
  {
    Dot(ExploitPolicy(acc, net), Scale(exps, mult as real))
  }

  /** The expectation is a convex combination of the signed action values. */
  lemma {:induction false} ExpectationBetween(acc: seq<real>, net: real, exps: seq<real>, mult: int, lo: real, hi: real)
    requires |exps| == |acc| > 0 && net == Sum(acc) && NonNegative(acc)
    requires forall a :: 0 <= a < |exps| ==> lo <= exps[a] * (mult as real) <= hi
    ensures lo <= Expectation(acc, net, exps, mult) <= hi
  {
    ExploitPolicyIsDistribution(acc, net);
    DotBounds(ExploitPolicy(acc, net), Scale(exps, mult as real), lo, hi);
  }

  /** The instantaneous regrets of `update`, weighted by the exploit policy, cancel out. */
  lemma {:induction false} InstantRegretsBalance(acc: seq<real>, net: real, exps: seq<real>, mult: int)
    requires |exps| == |acc| > 0 && net == Sum(acc)
    ensures var u := Scale(exps, mult as real);
      Dot(ExploitPolicy(acc, net), Shifted(u, Expectation(acc, net, exps, mult))) == 0.0
  {
    var u := Scale(exps, mult as real);
    ExploitPolicySumsToOne(acc, net);
    DotShifted(ExploitPolicy(acc, net), u, Expectation(acc, net, exps, mult));
  }

  /** The regrets after `update`: momentum n/(n+1), plus the instantaneous regret, clamped at 0. */
  function UpdatedRegret(acc: seq<real>, u: seq<real>, ev: real, n: nat): (r: seq<real>)
    requires |u| == |acc|
    ensures |r| == |acc| && NonNegative(r)
  {
    var momentum := (n as real) / ((n + 1) as real);
    seq(|acc|, a requires 0 <= a < |acc| =>
      var v := momentum * acc[a] + (u[a] - ev);
      if v > 0.0 then v else 0.0)
  }

  /**
   * `update` is monotone: more accumulated regret, or a higher signed value
   * for an action, never gives that action less regret afterwards.
   */
  lemma UpdatedRegretMonotone(acc: seq<real>, acc2: seq<real>, u: seq<real>, u2: seq<real>, ev: real, n: nat)
    requires |u| == |acc| == |acc2| == |u2|
    requires forall a :: 0 <= a < |acc| ==> acc[a] <= acc2[a] && u[a] <= u2[a]
    ensures forall a :: 0 <= a < |acc| ==> UpdatedRegret(acc, u, ev, n)[a] <= UpdatedRegret(acc2, u2, ev, n)[a]
  {
    var m := (n as real) / ((n + 1) as real);
    forall a | 0 <= a < |acc|
      ensures UpdatedRegret(acc, u, ev, n)[a] <= UpdatedRegret(acc2, u2, ev, n)[a]
    {
      assert m >= 0.0;
      MulMonotone(m, acc[a], acc2[a]);
      ClampMonotone(m * acc[a], m * acc2[a], u[a] - ev, u2[a] - ev);
    }
  }

  lemma {:induction false} ClampMonotone(x1: real, x2: real, y1: real, y2: real)
    requires x1 <= x2 && y1 <= y2
    ensures (if x1 + y1 > 0.0 then x1 + y1 else 0.0) <= (if x2 + y2 > 0.0 then x2 + y2 else 0.0)
  {
  }

  /**
   * The net regret after `update` is at least the old net regret decayed by
   * n/(n+1), plus the summed instantaneous regrets: clamping only raises.
   */
  lemma {:induction false} UpdatedNetRegretBound(acc: seq<real>, u: seq<real>, ev: real, n: nat)
    requires |u| == |acc|
    ensures Sum(UpdatedRegret(acc, u, ev, n)) >= Sum(acc) * ((n as real) / ((n + 1) as real)) + Sum(Shifted(u, ev))
  {
    var m := (n as real) / ((n + 1) as real);
    var lower := seq(|acc|, a requires 0 <= a < |acc| => Scale(acc, m)[a] + Shifted(u, ev)[a]);
    SumPointwise(Scale(acc, m), Shifted(u, ev), lower);
    SumScale(acc, m);
    forall a | 0 <= a < |acc|
      ensures lower[a] <= UpdatedRegret(acc, u, ev, n)[a]
    {
      assert Scale(acc, m)[a] == acc[a] * m;
    }
    SumMonotone(lower, UpdatedRegret(acc, u, ev, n));
  }

  // ---------------------------------------------------------------------
  // Sampling

  /**
   * `_sample`: with total weight 0, the uniform `random.choice` (index
   * `choice`); otherwise the first action at which the running remainder
   * r - Σ x/total drops to 0 or below, or nothing (`ValueError`).
   */
  method Sample(x: seq<real>, r: real, choice: nat) returns (a: Option<nat>)
    requires |x| > 0 ==> choice < |x|
    ensures a.Some? ==> a.value < |x|
    ensures Sum(x) == 0.0 ==> a == (if |x| == 0 then None else Some(choice))
    ensures Sum(x) != 0.0 && a.Some? ==> r <= PrefixSum(x, a.value + 1) / Sum(x)
    ensures Sum(x) != 0.0 && a.Some? ==> forall j :: 1 <= j <= a.value ==> PrefixSum(x, j) / Sum(x) < r
    ensures Sum(x) != 0.0 && a.None? ==> forall j :: 1 <= j <= |x| ==> PrefixSum(x, j) / Sum(x) < r
    ensures 0.0 <= r < 1.0 && |x| > 0 ==> a.Some?
    ensures NonNegative(x) && Sum(x) != 0.0 && 0.0 < r && a.Some? ==> x[a.value] > 0.0
  {
    var net := Sum(x);
    if net == 0.0 {
      if |x| == 0 {
        return None;
      }
      return Some(choice);
    }
    a := FirstCrossing(x, r, net);
    if a.None? {
      assert x[..|x|] == x;
      assert PrefixSum(x, |x|) / net == 1.0;
    } else if NonNegative(x) && 0.0 < r {
      SumNonNegative(x);
      EarlierFractionBelow(x, a.value, net, r);
      PrefixFractionStep(x, a.value, net);
      CrossingEntryPositive(PrefixSum(x, a.value), x[a.value], net, r);
    }
  }

  /** The loop of `_sample` over a non-zero total: the first index where r - Σ x/net drops to 0 or below. */
  method FirstCrossing(x: seq<real>, r: real, net: real) returns (a: Option<nat>)
    requires net != 0.0
    ensures a.Some? ==> a.value < |x| && r <= PrefixSum(x, a.value + 1) / net
    ensures a.Some? ==> forall j :: 1 <= j <= a.value ==> PrefixSum(x, j) / net < r
    ensures a.None? ==> forall j :: 1 <= j <= |x| ==> PrefixSum(x, j) / net < r
  {
    var rem := r;
    var i := 0;
    while i < |x|
      invariant 0 <= i <= |x|
      invariant rem == r - PrefixSum(x, i) / net
      invariant forall j :: 1 <= j <= i ==> PrefixSum(x, j) / net < r
    {
      PrefixFractionStep(x, i, net);
      rem := rem - x[i] / net;
      if rem <= 0.0 {
        return Some(i);
      }
      i := i + 1;
    }
    return None;
  }

  /** One more entry adds its share to the running fraction. */
  lemma {:induction false} PrefixFractionStep(x: seq<real>, i: nat, net: real)
    requires i < |x| && net != 0.0
    ensures PrefixSum(x, i + 1) / net == PrefixSum(x, i) / net + x[i] / net
  {
    assert x[..i + 1][..i] == x[..i];
    assert PrefixSum(x, i + 1) == PrefixSum(x, i) + x[i];
    DivAdd(PrefixSum(x, i), x[i], net);
  }

  /** Before the first crossing, the running fraction is 0 or below r. */
  lemma {:induction false} EarlierFractionBelow(x: seq<real>, i: nat, net: real, r: real)
    requires i <= |x| && net != 0.0
    requires forall j :: 1 <= j <= i ==> PrefixSum(x, j) / net < r
    ensures PrefixSum(x, i) == 0.0 || PrefixSum(x, i) / net < r
  {
    if i == 0 {
      assert x[..0] == [];
    }
  }

  /** Where the running total first reaches r, the entry just added is positive. */
  lemma {:induction false} CrossingEntryPositive(p: real, x: real, net: real, r: real)
    requires net > 0.0 && 0.0 < r && (p == 0.0 || p / net < r) && r <= p / net + x / net
    ensures x > 0.0
  {
    DivAdd(p, x, net);
    if p == 0.0 {
      assert x / net > 0.0;
    }
  }

  // ---------------------------------------------------------------------
  // Exploration: PUCT and Max

  /**
   * Dictionary keys of `_puct`'s result. The comprehension keys it by
   * action, but `x[np.argmax(quality)] = 1` then writes under the integer
   * index, a key distinct from every action.
   */
  datatype DictKey = ActionKey(action: nat) | IntKey(index: int)

  /** `_puct` as written: 0 under every action key, 1 under the integer argmax key. */
  function PuctAsWritten(quality: seq<real>): (x: map<DictKey, real>)
    requires |quality| > 0
    ensures IntKey(FirstArgMax(quality)) in x
  {
    (map a | 0 <= a < |quality| :: ActionKey(a) := 0.0)[IntKey(FirstArgMax(quality)) := 1.0]
  }

  /** The action keys of `_puct` as written all hold 0: the one-hot choice never reaches an action. */
  lemma {:induction false} PuctAsWrittenLosesOneHot(quality: seq<real>, a: nat)
    requires 0 < |quality| && a < |quality|
    ensures ActionKey(a) in PuctAsWritten(quality) && PuctAsWritten(quality)[ActionKey(a)] == 0.0
  {
  }

  /** `_puct` as intended: one-hot at the first action of maximal quality. */
  function Puct(quality: seq<real>): (x: seq<real>)
    requires |quality| > 0
    ensures |x| == |quality|
    ensures x[FirstArgMax(quality)] == 1.0
    ensures forall a :: 0 <= a < |x| && a != FirstArgMax(quality) ==> x[a] == 0.0
  {
    var k := FirstArgMax(quality);
    seq(|quality|, a requires 0 <= a < |quality| => if a == k then 1.0 else 0.0)
  }

  lemma {:induction false} PuctIsDistribution(quality: seq<real>)
    requires |quality| > 0
    ensures IsDistribution(Puct(quality))
  {
    SumOneHot(Puct(quality), FirstArgMax(quality));
  }

  /** `_max` as written: 1/support for EVERY action, support = actions with positive exploit weight. */
  function MaxAsWritten(exploit: seq<real>): (x: seq<real>)
    requires |exploit| > 0 ==> CountPositive(exploit) > 0
    ensures |x| == |exploit|
  {
    seq(|exploit|, a requires 0 <= a < |exploit| => 1.0 / (CountPositive(exploit) as real))
  }

  /** As written, `_max` puts more than total weight 1 once some action has exploit weight 0. */
  lemma {:induction false} MaxAsWrittenOverweights(exploit: seq<real>)
    requires 0 < CountPositive(exploit) < |exploit|
    ensures Sum(MaxAsWritten(exploit)) > 1.0
  {
    var k := CountPositive(exploit) as real;
    var n := |exploit| as real;
    var x := MaxAsWritten(exploit);
    var total := Sum(x);
    assert total == n * (1.0 / k) by {
      assert forall a :: 0 <= a < |x| ==> x[a] == 1.0 / k;
      SumConstant(|exploit|, 1.0 / k, x);
    }
    assert n * (1.0 / k) > 1.0 by {
      TimesReciprocal(n, k);
      QuotientAboveOne(n, k);
    }
  }

  lemma {:induction false} QuotientAboveOne(n: real, k: real)
    requires 0.0 < k < n
    ensures n / k > 1.0
  {
    assert n / k * k == n;
  }

  /** `_max` as intended: uniform over the actions with positive exploit weight, 0 elsewhere. */
  function Max(exploit: seq<real>): (x: seq<real>)
    requires |exploit| > 0 ==> CountPositive(exploit) > 0
    ensures |x| == |exploit|
    ensures forall a :: 0 <= a < |x| ==> (x[a] > 0.0 <==> exploit[a] > 0.0)
  {
    if |exploit| == 0 then [] else Indicator(exploit, 1.0 / (CountPositive(exploit) as real))
  }

  lemma {:induction false} MaxIsDistribution(exploit: seq<real>)
    requires |exploit| > 0 && CountPositive(exploit) > 0
    ensures IsDistribution(Max(exploit))
  {
    var k := CountPositive(exploit) as real;
    var x := Max(exploit);
    assert x == Indicator(exploit, 1.0 / k);
    var total := Sum(x);
    assert total == k * (1.0 / k) by {
      SumIndicator(exploit, 1.0 / k);
    }
    assert k * (1.0 / k) == 1.0 by {
      TimesReciprocal(k, k);
    }
    assert forall a :: 0 <= a < |x| ==> x[a] >= 0.0;
  }

  /** `_sample_dist` as written: PUCT looked up under the action keys (always 0), plus `_max`, halved. */
  function SampleDistAsWritten(quality: seq<real>, exploit: seq<real>): (x: seq<real>)
    requires |quality| == |exploit| > 0 && CountPositive(exploit) > 0
    ensures |x| == |exploit|
  {
    var puct := PuctAsWritten(quality);
    seq(|exploit|, a requires 0 <= a < |exploit| =>
      (puct[ActionKey(a)] + MaxAsWritten(exploit)[a]) / 2.0)
  }

  /** As written, the sampling distribution does not depend on the quality scores at all. */
  lemma {:induction false} SampleDistAsWrittenIgnoresQuality(q1: seq<real>, q2: seq<real>, exploit: seq<real>)
    requires |q1| == |q2| == |exploit| > 0 && CountPositive(exploit) > 0
    ensures SampleDistAsWritten(q1, exploit) == SampleDistAsWritten(q2, exploit)
  {
    forall a | 0 <= a < |exploit|
      ensures SampleDistAsWritten(q1, exploit)[a] == SampleDistAsWritten(q2, exploit)[a]
    {
      PuctAsWrittenLosesOneHot(q1, a);
      PuctAsWrittenLosesOneHot(q2, a);
    }
  }

  /** `_sample_dist` as intended: the average of the one-hot PUCT and the Max policy. */
  function SampleDist(quality: seq<real>, exploit: seq<real>): (x: seq<real>)
    requires |quality| == |exploit| > 0 && CountPositive(exploit) > 0
    ensures |x| == |exploit|
  {
    Average(Puct(quality), Max(exploit))
  }

  /** The intended sampling distribution is a distribution that favours the best-quality action. */
  lemma {:induction false} SampleDistIsDistribution(quality: seq<real>, exploit: seq<real>)
    requires |quality| == |exploit| > 0 && CountPositive(exploit) > 0
    ensures IsDistribution(SampleDist(quality, exploit))
    ensures SampleDist(quality, exploit)[FirstArgMax(quality)] >= 0.5
  {
    PuctIsDistribution(quality);
    MaxIsDistribution(exploit);
    AverageDistribution(Puct(quality), Max(exploit));
    var k := FirstArgMax(quality);
    assert Max(exploit)[k] >= 0.0;
  }

  /** A distribution over at least one action has a positive entry. */
  lemma {:induction false} DistributionHasSupport(x: seq<real>)
    requires IsDistribution(x)
    ensures CountPositive(x) > 0
  {
    PositiveSumHasPositiveEntry(x);
  }

  // ---------------------------------------------------------------------
  // Purification

  function MinSupport(n: nat): nat
  {
    if n < MAX_SUPPORT then n else MAX_SUPPORT
  }

  /** `purified` as written: the first MAX_SUPPORT actions in ASCENDING order of exploit weight. */
  function PurifiedSupportAsWritten(acc: seq<real>, net: real): (s: seq<nat>)
    ensures |s| == MinSupport(|acc|) && forall k :: 0 <= k < |s| ==> s[k] < |acc|
  {
    Ascending(ExploitPolicy(acc, net))[..MinSupport(|acc|)]
  }

  /**
   * As written, purification drops the action with the strictly largest
   * regret whenever there are more than MAX_SUPPORT actions.
   */
  lemma {:induction false} PurifiedSupportAsWrittenMissesBest(acc: seq<real>, net: real)
    requires |acc| > MAX_SUPPORT && NonNegative(acc) && net == Sum(acc)
    requires forall j :: 0 <= j < |acc| && j != FirstArgMax(acc) ==> acc[j] < acc[FirstArgMax(acc)]
    ensures FirstArgMax(acc) !in PurifiedSupportAsWritten(acc, net)
  {
    var best := FirstArgMax(acc);
    var w := ExploitPolicy(acc, net);
    var s := Ascending(w);
    var n := |acc|;
    assert acc[0] >= 0.0;
    var other := if best == 0 then 1 else 0;
    assert acc[best] > acc[other] >= 0.0;
    EntryAtMostSum(acc, best);
    if best in s[..MAX_SUPPORT] {
      var k :| 0 <= k < MAX_SUPPORT && s[k] == best;
      SortDistinct(s, n);
      AscendingSorted(w);
      assert s[n - 1] != best;
      assert Before(w, s[k], s[n - 1]);
      assert w[best] <= w[s[n - 1]];
      assert acc[best] / net <= acc[s[n - 1]] / net;
      DivMonotone(acc[best], acc[s[n - 1]], net);
      assert false;
    }
  }

  lemma {:induction false} DivMonotone(x: real, y: real, d: real)
    requires d > 0.0 && x / d <= y / d
    ensures x <= y
  {
    assert x == (x / d) * d && y == (y / d) * d;
    MulMonotone(d, x / d, y / d);
  }

  /** `purified` as intended: the first MAX_SUPPORT actions in DESCENDING order of exploit weight. */
  function PurifiedSupport(acc: seq<real>, net: real): (s: seq<nat>)
    ensures |s| == MinSupport(|acc|) && forall k :: 0 <= k < |s| ==> s[k] < |acc|
  {
    Descending(ExploitPolicy(acc, net))[..MinSupport(|acc|)]
  }

  /** The intended support holds no action twice, and no action outside it has a larger weight. */
  lemma {:induction false} PurifiedSupportIsTop(acc: seq<real>, net: real, a: nat, b: nat)
    requires a in PurifiedSupport(acc, net) && b < |acc| && b !in PurifiedSupport(acc, net)
    ensures ExploitPolicy(acc, net)[a] >= ExploitPolicy(acc, net)[b]
    ensures Distinct(PurifiedSupport(acc, net))
  {
    var w := ExploitPolicy(acc, net);
    var s := Descending(w);
    var m := MinSupport(|acc|);
    DescendingSorted(w);
    SortDistinct(s, |acc|);
    MemberOfSort(w, s, b);
    assert s == s[..m] + s[m..];
    assert b in s[m..];
    PrefixBeforeSuffix(Negated(w), s, m, a, b);
    assert Distinct(s[..m]);
  }

  /** The intended support always holds the best action (the first maximal regret, as `max` picks it). */
  lemma {:induction false} PurifiedSupportContainsBest(acc: seq<real>, net: real)
    requires |acc| > 0 && NonNegative(acc) && net == Sum(acc)
    ensures FirstArgMax(acc) in PurifiedSupport(acc, net)
  {
    var best := FirstArgMax(acc);
    var w := ExploitPolicy(acc, net);
    var s := Descending(w);
    MemberOfSort(w, s, best);
    var k :| 0 <= k < |s| && s[k] == best;
    if k != 0 {
      DescendingSorted(w);
      var first := s[0];
      assert Before(Negated(w), first, best);
      SumNonNegative(acc);
      if net == 0.0 {
        ZeroSumNonNegative(acc, best);
        ZeroSumNonNegative(acc, first);
        assert false;
      } else {
        DivMonotone(acc[best], acc[first], net);
        assert false;
      }
    }
    assert s[..MinSupport(|acc|)][0] == best;
  }

  /** `play_policy`: the regret of each supported action, 0 for every other action. */
  function PlayPolicy(acc: seq<real>, support: seq<nat>): (x: seq<real>)
    ensures |x| == |acc|
    ensures forall a :: 0 <= a < |acc| ==> x[a] == if a in support then acc[a] else 0.0
  {
    seq(|acc|, a requires 0 <= a < |acc| => if a in support then acc[a] else 0.0)
  }

  // ---------------------------------------------------------------------
  // The policy object

  class Policy {
    var multiplier: int
    var visits: seq<int>
    var netVariances: seq<int>
    var expansions: seq<int>
    var expectations: seq<real>
    var accRegret: seq<real>
    var netRegret: real
    var numUpdates: nat

    /** One entry per action in every dictionary; the net regret is kept equal to the regret sum. */
    ghost predicate Valid()
      reads this
    {
      |visits| == |netVariances| == |expansions| == |expectations| == |accRegret| &&
      netRegret == Sum(accRegret) && numUpdates >= 1 &&
      (forall a :: 0 <= a < |visits| ==> visits[a] == 2 && netVariances[a] == 2) &&
      (forall a :: 0 <= a < |expansions| ==> expansions[a] >= 0)
    }

    constructor (initialReward: seq<real>, multiplier: int)
      ensures Valid()
      ensures this.multiplier == multiplier
      ensures visits == seq(|initialReward|, _ => 2) && netVariances == visits
      ensures expansions == seq(|initialReward|, _ => 0)
      ensures expectations == initialReward && accRegret == initialReward
      ensures netRegret == Sum(initialReward) && numUpdates == 1
    {
      this.multiplier := multiplier;
      visits := seq(|initialReward|, _ => 2);
      netVariances := seq(|initialReward|, _ => 2);
      expansions := seq(|initialReward|, _ => 0);
      expectations := initialReward;
      accRegret := initialReward;
      netRegret := Sum(initialReward);
      numUpdates := 1;
    }

    /** `_q(a)`: signed expectation plus C·(variance/visits)·sqrt(Σ expansions)/(1 + expansions[a]). */
    function Quality(a: nat, sqrtExpansions: real): (q: real)
      reads this
      requires Valid() && a < |visits| && sqrtExpansions >= 0.0
      ensures q >= expectations[a] * (multiplier as real)
    {
      var bonus := C * ((netVariances[a] as real) / (visits[a] as real)) * sqrtExpansions
        / (1.0 + (expansions[a] as real));
      assert bonus >= 0.0 by {
        assert (netVariances[a] as real) / (visits[a] as real) == 1.0;
      }
      expectations[a] * (multiplier as real) + bonus
    }

    /** The quality of every action, in dictionary order. */
    function Qualities(sqrtExpansions: real): (q: seq<real>)
      reads this
      requires Valid() && sqrtExpansions >= 0.0
      ensures |q| == |visits|
    {
      seq(|visits|, a requires 0 <= a < |visits| && Valid() && sqrtExpansions >= 0.0 reads this => Quality(a, sqrtExpansions))
    }

    /** `update`: one regret-matching+ step with momentum, then the net regret is recomputed. */
    method Update()
      requires Valid()
      modifies this
      ensures Valid()
      ensures numUpdates == old(numUpdates) + 1
      ensures accRegret == UpdatedRegret(old(accRegret), Scale(old(expectations), old(multiplier) as real),
                                         Expectation(old(accRegret), old(netRegret), old(expectations), old(multiplier)),
                                         old(numUpdates))
      ensures NonNegative(accRegret) && netRegret == Sum(accRegret)
      ensures |accRegret| > 0 ==> IsDistribution(ExploitPolicy(accRegret, netRegret))
      ensures multiplier == old(multiplier) && visits == old(visits) && netVariances == old(netVariances)
      ensures expansions == old(expansions) && expectations == old(expectations)
    {
      var n := numUpdates;
      numUpdates := numUpdates + 1;
      var ev := Expectation(accRegret, netRegret, expectations, multiplier);
      accRegret := UpdatedRegret(accRegret, Scale(expectations, multiplier as real), ev, n);
      netRegret := Sum(accRegret);
      if |accRegret| > 0 {
        ExploitPolicyIsDistribution(accRegret, netRegret);
      }
    }

    /** `policy.expansions[action] += 1` (expansion_step): only that action's counter moves. */
    method AddExpansion(a: nat)
      requires Valid() && a < |expansions|
      modifies this
      ensures Valid()
      ensures expansions == old(expansions)[a := old(expansions)[a] + 1]
      ensures SumInt(expansions) == SumInt(old(expansions)) + 1
      ensures accRegret == old(accRegret) && netRegret == old(netRegret) && expectations == old(expectations)
      ensures visits == old(visits) && netVariances == old(netVariances)
      ensures multiplier == old(multiplier) && numUpdates == old(numUpdates)
    {
      SumIntUpdate(expansions, a, expansions[a] + 1);
      expansions := expansions[a := expansions[a] + 1];
    }

    /** Writes one expectation (`policy.expectations[a] = v` or `+= v` in the solver loop). */
    method SetExpectation(a: nat, v: real)
      requires Valid() && a < |expectations|
      modifies this
      ensures Valid()
      ensures expectations == old(expectations)[a := v]
      ensures accRegret == old(accRegret) && netRegret == old(netRegret) && expansions == old(expansions)
      ensures visits == old(visits) && netVariances == old(netVariances)
      ensures multiplier == old(multiplier) && numUpdates == old(numUpdates)
    {
      expectations := expectations[a := v];
    }

    /** `policy.expectations = {a: 0 ...}` after a sweep. */
    method ResetExpectations()
      requires Valid()
      modifies this
      ensures Valid()
      ensures expectations == seq(|old(expectations)|, _ => 0.0)
      ensures accRegret == old(accRegret) && netRegret == old(netRegret) && expansions == old(expansions)
      ensures visits == old(visits) && netVariances == old(netVariances)
      ensures multiplier == old(multiplier) && numUpdates == old(numUpdates)
    {
      expectations := seq(|expectations|, _ => 0.0);
    }

    /** The solver loop overwrites every regret, then sets the net regret to their sum. */
    method SetRegrets(x: seq<real>)
      requires Valid() && |x| == |accRegret|
      modifies this
      ensures Valid()
      ensures accRegret == x && netRegret == Sum(x)
      ensures expectations == old(expectations) && expansions == old(expansions)
      ensures visits == old(visits) && netVariances == old(netVariances)
      ensures multiplier == old(multiplier) && numUpdates == old(numUpdates)
    {
      accRegret := x;
      netRegret := Sum(x);
    }

    /** `exploit`: samples an action in proportion to its accumulated regret. */
    method Exploit(r: real, choice: nat) returns (a: Option<nat>)
      requires Valid() && (|accRegret| > 0 ==> choice < |accRegret|)
      ensures a.Some? ==> a.value < |accRegret|
      ensures 0.0 <= r < 1.0 && |accRegret| > 0 ==> a.Some?
      ensures NonNegative(accRegret) && netRegret != 0.0 && 0.0 < r && a.Some? ==> accRegret[a.value] > 0.0
    {
      a := Sample(accRegret, r, choice);
    }

    /**
     * The distribution `explore` samples from: the average of PUCT and Max
     * (the intended versions; see PuctAsWritten and MaxAsWritten for the
     * code as written). It favours the best-quality action.
     */
    function ExploreDist(sqrtExpansions: real): (x: seq<real>)
      reads this
      requires Valid() && |accRegret| > 0 && NonNegative(accRegret) && sqrtExpansions >= 0.0
      ensures |x| == |accRegret| && IsDistribution(x)
      ensures x[FirstArgMax(Qualities(sqrtExpansions))] >= 0.5
    {
      var exploit := ExploitPolicy(accRegret, netRegret);
      ExploitPolicyIsDistribution(accRegret, netRegret);
      DistributionHasSupport(exploit);
      SampleDistIsDistribution(Qualities(sqrtExpansions), exploit);
      SampleDist(Qualities(sqrtExpansions), exploit)
    }

    /** `explore`: an action drawn from ExploreDist, which has positive probability there. */
    method Explore(sqrtExpansions: real, r: real, choice: nat) returns (a: Option<nat>)
      requires Valid() && |accRegret| > 0 && NonNegative(accRegret) && choice < |accRegret|
      requires sqrtExpansions >= 0.0 && sqrtExpansions * sqrtExpansions == SumInt(expansions) as real
      ensures 0.0 <= r < 1.0 ==> a.Some?
      ensures a.Some? ==> a.value < |accRegret|
      ensures 0.0 < r && a.Some? ==> ExploreDist(sqrtExpansions)[a.value] > 0.0
    {
      var x := ExploreDist(sqrtExpansions);
      a := Sample(x, r, choice);
    }

    /**
     * `purified`: samples among the MAX_SUPPORT most likely actions in
     * proportion to their regret (the intended descending order; see
     * PurifiedSupportAsWritten). No action: `max` of nothing raises.
     */
    method Purified(r: real, choice: nat) returns (a: Option<nat>)
      requires Valid() && (|accRegret| > 0 ==> choice < |accRegret|)
      ensures |accRegret| == 0 ==> a.None?
      ensures a.Some? ==> a.value < |accRegret|
      ensures 0.0 <= r < 1.0 && |accRegret| > 0 ==> a.Some?
      ensures NonNegative(accRegret) && 0.0 < r && a.Some?
              && Sum(PlayPolicy(accRegret, PurifiedSupport(accRegret, netRegret))) != 0.0
              ==> a.value in PurifiedSupport(accRegret, netRegret)
    {
      if |accRegret| == 0 {
        return None;
      }
      var support := PurifiedSupport(accRegret, netRegret);
      var play := PlayPolicy(accRegret, support);
      a := Sample(play, r, choice);
    }
  }
}
