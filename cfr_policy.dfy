// The CFR+ policy of the current Rust solver (src/policy.rs). One slot per
// action holds the counterfactual value gathered in the current
// iteration, the expansion count, the accumulated regret, the running sum
// of strategies and a "stable" flag. `update` is a linear-CFR step with a
// momentum coefficient n / (n + 1) (n at least 200), clamped at 0, against
// the current expectation as baseline; it is run once per iteration number.
// Actions are identified by their position in the action list.
module CfrPolicy {
  import opened Wrappers
  import opened Players
  import opened Reals
  import opened Seqs
  import SinglePolicy

  const MAX_SUPPORT: nat := 3
  /** The regret every action starts with. */
  const INITIAL_REGRET: real := 10.0
  /** The least iteration count the momentum coefficient is computed from. */
  const MIN_MOMENTUM_COUNT: nat := 200

  /** +1 for P1, -1 for P2; chance is treated like P1. */
  function Multiplier(p: Player): (m: real)
    ensures m == 1.0 || m == -1.0
    ensures m == -1.0 <==> p == P2
  {
    match p
    case P1 => 1.0
    case P2 => -1.0
    case Chance => 1.0
  }

  // ---------------------------------------------------------------------
  // Strategies

  /** `inst_policy`: uniform when the regret sum is not positive, else regret / sum. */
  function InstPolicy(acc: seq<real>): (x: seq<real>)
    ensures |x| == |acc|
  {
    if Sum(acc) <= 0.0 then (if |acc| == 0 then [] else Uniform(|acc|))
    else Scale(acc, 1.0 / Sum(acc))
  }

  /**
   * The instantaneous policy sums to 1 for any non-empty regret vector, is
   * a distribution over non-negative regrets, and is uniform in the
   * fallback case.
   */
  lemma {:induction false} InstPolicyIsDistribution(acc: seq<real>)
    requires |acc| > 0
    ensures Sum(InstPolicy(acc)) == 1.0
    ensures NonNegative(acc) ==> IsDistribution(InstPolicy(acc))
    ensures Sum(acc) <= 0.0 ==> InstPolicy(acc) == Uniform(|acc|)
  {
    if Sum(acc) <= 0.0 {
      SumUniform(|acc|);
    } else {
      Normalized(acc, Sum(acc));
      if NonNegative(acc) {
        var x := InstPolicy(acc);
        forall i | 0 <= i < |acc|
          ensures x[i] >= 0.0
        {
          MulMonotone(1.0 / Sum(acc), 0.0, acc[i]);
        }
      }
    }
  }

  /** With a positive regret sum, each probability times the sum gives back the regret. */
  lemma {:induction false} InstPolicyProportional(acc: seq<real>, i: nat)
    requires i < |acc| && Sum(acc) > 0.0
    ensures InstPolicy(acc)[i] * Sum(acc) == acc[i]
  {
    TimesReciprocal(acc[i], Sum(acc));
  }

  /** A larger regret never gets a smaller probability. */
  lemma {:induction false} InstPolicyMonotone(acc: seq<real>, i: nat, j: nat)
    requires i < |acc| && j < |acc| && acc[i] <= acc[j]
    ensures InstPolicy(acc)[i] <= InstPolicy(acc)[j]
  {
    if Sum(acc) > 0.0 {
      MulMonotone(1.0 / Sum(acc), acc[i], acc[j]);
    }
  }

  /** `p_exploit(a)`: 0 when the regret sum is not positive, else regret / sum. */
  function PExploit(acc: seq<real>, i: nat): real
    requires i < |acc|
  {
    if Sum(acc) <= 0.0 then 0.0 else acc[i] / Sum(acc)
  }

  /** `p_exploit` is the instantaneous policy's entry while the regret sum is positive, and 0 otherwise. */
  lemma {:induction false} PExploitAgainstInstPolicy(acc: seq<real>, i: nat)
    requires i < |acc|
    ensures Sum(acc) > 0.0 ==> PExploit(acc, i) == InstPolicy(acc)[i]
    ensures Sum(acc) <= 0.0 ==> PExploit(acc, i) == 0.0
  {
  }

  /**
   * `quality(i)` = counterfactual + 1.25·sqrt(ln n / max(expansions[i], 1));
   * the square root is the argument `root`.
   */
  function Quality(counterfactual: real, root: real): (q: real)
    requires root >= 0.0
    ensures q >= counterfactual
    ensures root == 0.0 ==> q == counterfactual
  {
    counterfactual + 1.25 * root
  }

  /** `exploration_policy`: the instantaneous policy alone for no actions, else the even mix with the PUCT arm. */
  function ExplorationDist(quality: seq<real>, acc: seq<real>): (x: seq<real>)
    requires |quality| == |acc|
    ensures |x| == |acc|
  {
    if |quality| == 0 then InstPolicy(acc)
    else Average(OneHot(|quality|, FirstArgMax(quality)), InstPolicy(acc))
  }

  /** With non-negative regrets the exploration policy is a distribution that gives the best-quality action at least 1/2. */
  lemma {:induction false} ExplorationDistIsDistribution(quality: seq<real>, acc: seq<real>)
    requires |quality| == |acc| && |acc| > 0 && NonNegative(acc)
    ensures IsDistribution(ExplorationDist(quality, acc))
    ensures ExplorationDist(quality, acc)[FirstArgMax(quality)] >= 0.5
  {
    InstPolicyIsDistribution(acc);
    OneHotIsDistribution(|quality|, FirstArgMax(quality));
    AverageDistribution(OneHot(|quality|, FirstArgMax(quality)), InstPolicy(acc));
  }

  /** The regret-matching rule of this generation is the single-file solver's `exploit_policy`. */
  lemma {:induction false} InstPolicyAgreesWithSingle(acc: seq<real>)
    ensures InstPolicy(acc) == SinglePolicy.ExploitPolicy(acc)
  {
  }

  /** `best_action`: the last action of maximal regret (`max_by`); it panics for no actions. */
  function BestAction(acc: seq<real>): (i: nat)
    requires |acc| > 0
    ensures IsLastArgMax(acc, i)
  {
    LastArgMax(acc)
  }

  /** The best action is one of those the instantaneous policy plays most. */
  lemma {:induction false} BestActionIsMostLikely(acc: seq<real>, j: nat)
    requires |acc| > 0 && j < |acc|
    ensures InstPolicy(acc)[j] <= InstPolicy(acc)[BestAction(acc)]
  {
    InstPolicyMonotone(acc, j, BestAction(acc));
  }

  /** `purified`: the uniform draw `choice` among the MAX_SUPPORT most likely actions (stable descending sort). */
  function Purified(acc: seq<real>, choice: nat): (i: nat)
    requires |acc| > 0 && choice < SinglePolicy.MinSupport(|acc|)
    ensures i < |acc| && i in SinglePolicy.PurifiedSupport(acc)
    ensures forall j :: 0 <= j < |acc| && j !in SinglePolicy.PurifiedSupport(acc) ==> InstPolicy(acc)[j] <= InstPolicy(acc)[i]
  {
    var i := SinglePolicy.Purified(acc, choice);
    forall j | 0 <= j < |acc| && j !in SinglePolicy.PurifiedSupport(acc)
      ensures InstPolicy(acc)[j] <= InstPolicy(acc)[i]
    {
      SinglePolicy.PurifiedSupportIsTop(acc, i, j);
    }
    i
  }

  // ---------------------------------------------------------------------
  // The policy state

  datatype PolicyState<A> = PolicyState(
    player: Player,
    actions: seq<A>,
    counterfactuals: seq<real>,
    expansions: seq<nat>,
    accRegrets: seq<real>,
    avgStrategy: seq<real>,
    stable: seq<bool>,
    firstUpdate: Option<nat>,
    lastSet: nat)
  {
    /** One slot per action in every vector. */
    predicate Valid()
    {
      |counterfactuals| == |actions| && |expansions| == |actions| && |accRegrets| == |actions| &&
      |avgStrategy| == |actions| && |stable| == |actions|
    }
  }

  /** Rewards in the range `from_rewards` asserts: [-5, 5]. */
  predicate RewardsInRange<A>(items: seq<(A, real)>)
  {
    forall i :: 0 <= i < |items| ==> -5.0 <= items[i].1 <= 5.0
  }

  /** `from_rewards`: the rewards become the counterfactuals; regrets start at 10, strategy sums at 1, nothing stable. */
  function RewardPolicy<A>(items: seq<(A, real)>, player: Player): (p: PolicyState<A>)
    requires RewardsInRange(items)
    ensures p.Valid() && p.player == player && |p.actions| == |items|
    ensures p.firstUpdate == None && p.lastSet == 0
    ensures forall i :: 0 <= i < |items| ==>
      p.actions[i] == items[i].0 && p.counterfactuals[i] == items[i].1 && p.expansions[i] == 0 &&
      p.accRegrets[i] == INITIAL_REGRET && p.avgStrategy[i] == 1.0 && !p.stable[i]
  {
    var n := |items|;
    PolicyState(player, Firsts(items), Seconds(items), Repeat(n, 0), Repeat(n, INITIAL_REGRET),
      Repeat(n, 1.0), Repeat(n, false), None, 0)
  }

  /** `from_actions`: `from_rewards` with every reward 0. */
  function ActionPolicy<A>(actions: seq<A>, player: Player): (p: PolicyState<A>)
    ensures p.Valid() && p.actions == actions && p.player == player
    ensures forall i :: 0 <= i < |actions| ==> p.counterfactuals[i] == 0.0 && p.accRegrets[i] == INITIAL_REGRET
  {
    var items := seq(|actions|, i requires 0 <= i < |actions| => (actions[i], 0.0));
    var p := RewardPolicy(items, player);
    assert p.actions == actions;
    p
  }

  /** The initial strategy is uniform: every regret is the same positive number. */
  lemma {:induction false} InitialStrategyUniform<A>(items: seq<(A, real)>, player: Player)
    requires RewardsInRange(items) && |items| > 0
    ensures InstPolicy(RewardPolicy(items, player).accRegrets) == Uniform(|items|)
  {
    var acc := RewardPolicy(items, player).accRegrets;
    SumConstant(|items|, INITIAL_REGRET, acc);
    var x := InstPolicy(acc);
    forall i | 0 <= i < |items|
      ensures x[i] == 1.0 / (|items| as real)
    {
      assert x[i] == INITIAL_REGRET * (1.0 / (INITIAL_REGRET * (|items| as real)));
    }
  }

  /** `expectation`: Σ counterfactual·probability under the instantaneous policy, 0 for no actions. */
  function Expectation<A>(p: PolicyState<A>): real
    requires p.Valid()
  {
    if |p.counterfactuals| == 0 then 0.0 else Dot(InstPolicy(p.accRegrets), p.counterfactuals)
  }

  /** Over non-negative regrets the expectation lies between the smallest and the largest counterfactual. */
  lemma {:induction false} ExpectationBetween<A>(p: PolicyState<A>, lo: real, hi: real)
    requires p.Valid() && |p.actions| > 0 && NonNegative(p.accRegrets)
    requires forall i :: 0 <= i < |p.counterfactuals| ==> lo <= p.counterfactuals[i] <= hi
    ensures lo <= Expectation(p) <= hi
  {
    InstPolicyIsDistribution(p.accRegrets);
    DotBounds(InstPolicy(p.accRegrets), p.counterfactuals, lo, hi);
  }

  /** The quality of every action of a policy state, given the exploration roots. */
  function QualitiesOf<A>(p: PolicyState<A>, roots: seq<real>): (q: seq<real>)
    requires p.Valid() && |roots| == |p.actions| && NonNegative(roots)
    ensures |q| == |p.actions| && forall i :: 0 <= i < |q| ==> q[i] >= p.counterfactuals[i]
  {
    seq(|p.actions|, i requires 0 <= i < |p.actions| && i < |roots| && i < |p.counterfactuals| && roots[i] >= 0.0 =>
      Quality(p.counterfactuals[i], roots[i]))
  }

  /** `exploit` of a policy state: an action drawn from the instantaneous policy, always of positive probability. */
  function ExploitIndex<A>(p: PolicyState<A>, choice: nat, u: real): (i: nat)
    requires p.Valid() && |p.actions| > 0 && choice < |p.actions| && 0.0 <= u < 1.0
    ensures i < |p.actions| && InstPolicy(p.accRegrets)[i] > 0.0
  {
    InstPolicyIsDistribution(p.accRegrets);
    SinglePolicy.SampleFrom(InstPolicy(p.accRegrets), choice, u)
  }

  /** `explore` of a policy state: an action drawn from the exploration policy, always of positive probability. */
  function ExploreIndex<A>(p: PolicyState<A>, roots: seq<real>, choice: nat, u: real): (i: nat)
    requires p.Valid() && |p.actions| > 0 && |roots| == |p.actions| && NonNegative(roots)
    requires choice < |p.actions| && 0.0 <= u < 1.0
    ensures i < |p.actions| && ExplorationDist(QualitiesOf(p, roots), p.accRegrets)[i] > 0.0
  {
    var q := QualitiesOf(p, roots);
    InstPolicyIsDistribution(p.accRegrets);
    OneHotIsDistribution(|q|, FirstArgMax(q));
    SumAverage(OneHot(|q|, FirstArgMax(q)), InstPolicy(p.accRegrets));
    SinglePolicy.SampleFrom(ExplorationDist(q, p.accRegrets), choice, u)
  }

  /** `add_counterfactual(a, r, p)`: r·p is added to a's counterfactual. */
  function WithCounterfactual<A(==)>(p: PolicyState<A>, a: A, r: real, prob: real): (q: PolicyState<A>)
    requires p.Valid() && a in p.actions
    ensures q.Valid() && q == p.(counterfactuals := q.counterfactuals)
  {
    var i := Position(p.actions, a);
    p.(counterfactuals := p.counterfactuals[i := p.counterfactuals[i] + r * prob])
  }

  /** `add_expansion(a)`: a's expansion count grows by one. */
  function WithExpansion<A(==)>(p: PolicyState<A>, a: A): (q: PolicyState<A>)
    requires p.Valid() && a in p.actions
    ensures q.Valid()
  {
    var i := Position(p.actions, a);
    p.(expansions := p.expansions[i := p.expansions[i] + 1])
  }

  /** Both additions change exactly the slot of the first occurrence of `a`, and no other field. */
  lemma {:induction false} SlotUpdatesAreLocal<A>(p: PolicyState<A>, a: A, r: real, prob: real, j: nat)
    requires p.Valid() && a in p.actions && j < |p.actions|
    ensures WithCounterfactual(p, a, r, prob).counterfactuals[j] ==
      p.counterfactuals[j] + (if j == Position(p.actions, a) then r * prob else 0.0)
    ensures WithCounterfactual(p, a, r, prob).(counterfactuals := p.counterfactuals) == p
    ensures WithExpansion(p, a).expansions[j] == p.expansions[j] + (if j == Position(p.actions, a) then 1 else 0)
    ensures WithExpansion(p, a).(expansions := p.expansions) == p
  {
  }

  // ---------------------------------------------------------------------
  // Update

  /** The iteration count the momentum is computed from: iterations since the first update, at least 200. */
  function MomentumCount(t: nat, first: nat): (n: nat)
    requires first <= t
    ensures n >= MIN_MOMENTUM_COUNT && n >= t - first
  {
    if t - first < MIN_MOMENTUM_COUNT then MIN_MOMENTUM_COUNT else t - first
  }

  /** The linear-CFR momentum coefficient n / (n + 1). */
  function Momentum(n: nat): real
  {
    (n as real) / (n as real + 1.0)
  }

  /** With n at least 200 the coefficient lies in [200/201, 1). */
  lemma {:induction false} MomentumBounds(n: nat)
    requires n >= MIN_MOMENTUM_COUNT
    ensures 200.0 / 201.0 <= Momentum(n) < 1.0
  {
    var x := n as real;
    assert x / (x + 1.0) < 1.0;
    assert 200.0 * (x + 1.0) <= 201.0 * x;
  }

  /** One regret after `update`: max(0, m·old + mult·(counterfactual − baseline)). */
  function PushRegret(m: real, r: real, mult: real, cf: real, baseline: real): (x: real)
    ensures x >= 0.0
    ensures x == 0.0 || x == m * r + mult * (cf - baseline)
    ensures x >= m * r + mult * (cf - baseline)
  {
    var v := m * r + mult * (cf - baseline);
    if v > 0.0 then v else 0.0
  }

  /** The regrets after `update` with momentum m against the expectation as baseline. */
  function UpdatedRegrets(m: real, acc: seq<real>, cf: seq<real>, mult: real, baseline: real): (r: seq<real>)
    requires |acc| == |cf|
    ensures |r| == |acc|
  {
    seq(|acc|, i requires 0 <= i < |acc| => PushRegret(m, acc[i], mult, cf[i], baseline))
  }

  /** Every updated regret is non-negative, so the next instantaneous policy is a distribution. */
  lemma {:induction false} UpdatedRegretsNonNegative(m: real, acc: seq<real>, cf: seq<real>, mult: real, baseline: real)
    requires |acc| == |cf| && |acc| > 0
    ensures NonNegative(UpdatedRegrets(m, acc, cf, mult, baseline))
    ensures IsDistribution(InstPolicy(UpdatedRegrets(m, acc, cf, mult, baseline)))
  {
    var r := UpdatedRegrets(m, acc, cf, mult, baseline);
    assert forall i :: 0 <= i < |r| ==> r[i] == PushRegret(m, acc[i], mult, cf[i], baseline);
    InstPolicyIsDistribution(r);
  }

  /** The entrywise sum of two vectors of the same length. */
  function AddEntrywise(a: seq<real>, b: seq<real>): (r: seq<real>)
    requires |a| == |b|
    ensures |r| == |a|
  {
    seq(|a|, i requires 0 <= i < |a| => a[i] + b[i])
  }

  /** The regret loop of `update`, in place on a local copy. */
  method PushRegrets(m: real, acc0: seq<real>, cf: seq<real>, mult: real, baseline: real) returns (acc: seq<real>)
    requires |acc0| == |cf|
    ensures acc == UpdatedRegrets(m, acc0, cf, mult, baseline)
  {
    acc := acc0;
    for i := 0 to |acc0|
      invariant |acc| == |acc0|
      invariant forall j :: 0 <= j < i ==> acc[j] == PushRegret(m, acc0[j], mult, cf[j], baseline)
      invariant forall j :: i <= j < |acc0| ==> acc[j] == acc0[j]
    {
      var ir := mult * (cf[i] - baseline);
      var v := m * acc[i] + ir;
      acc := acc[i := if v > 0.0 then v else 0.0];
    }
  }

  /** The strategy-sum loop of `update`. */
  method AddInto(avg0: seq<real>, x: seq<real>) returns (avg: seq<real>)
    requires |avg0| == |x|
    ensures avg == AddEntrywise(avg0, x)
  {
    avg := avg0;
    for i := 0 to |avg0|
      invariant |avg| == |avg0|
      invariant forall j :: 0 <= j < i ==> avg[j] == avg0[j] + x[j]
      invariant forall j :: i <= j < |avg0| ==> avg[j] == avg0[j]
    {
      avg := avg[i := avg[i] + x[i]];
    }
  }

  /** The first iteration number after `update(t)`: the one before t, on the first call. */
  function FirstAfter(first: Option<nat>, t: nat): (f: Option<nat>)
    requires t > 0 || first.Some?
    ensures f.Some?
    ensures first.Some? ==> f == first
    ensures first.None? ==> f == Some(t - 1)
  {
    if first.None? then Some(t - 1) else first
  }

  /** What `update(t)` needs of its caller: t never behind the first update (the subtraction is unsigned). */
  predicate CanUpdate<A>(p: PolicyState<A>, t: nat)
  {
    t == p.lastSet || (p.firstUpdate.None? && t > 0) || (p.firstUpdate.Some? && p.firstUpdate.value <= t)
  }

  /**
   * `update(t)`: nothing when t is the previous call's t; otherwise t is
   * recorded (with the first iteration number on the first call), and with
   * actions every regret is pushed and clamped, the new instantaneous
   * policy is added into the strategy sums, the last action of maximal
   * regret is marked stable and the counterfactuals are reset to 0.
   */
  function Updated<A>(p: PolicyState<A>, t: nat): (q: PolicyState<A>)
    requires p.Valid() && CanUpdate(p, t)
    ensures q.Valid() && q.actions == p.actions && q.player == p.player && q.expansions == p.expansions
  {
    if t == p.lastSet then p
    else
      var first := FirstAfter(p.firstUpdate, t);
      var p1 := p.(lastSet := t, firstUpdate := first);
      if |p.counterfactuals| == 0 then p1
      else Swept(p1, Momentum(MomentumCount(t, first.value)))
  }

  /**
   * The sweep of `update` with momentum m: regrets pushed and clamped
   * against the expectation, the new instantaneous policy added into the
   * strategy sums, the last maximal regret marked stable, counterfactuals 0.
   */
  function Swept<A>(p: PolicyState<A>, m: real): (q: PolicyState<A>)
    requires p.Valid() && |p.actions| > 0
    ensures q.Valid() && q.actions == p.actions && q.player == p.player && q.expansions == p.expansions
    ensures q.lastSet == p.lastSet && q.firstUpdate == p.firstUpdate
  {
    var r := UpdatedRegrets(m, p.accRegrets, p.counterfactuals, Multiplier(p.player), Expectation(p));
    p.(accRegrets := r,
       avgStrategy := AddEntrywise(p.avgStrategy, InstPolicy(r)),
       stable := p.stable[LastArgMax(r) := true],
       counterfactuals := Repeat(|r|, 0.0))
  }

  /** A second `update` with the same t changes nothing. */
  lemma {:induction false} UpdateIdempotent<A>(p: PolicyState<A>, t: nat)
    requires p.Valid() && CanUpdate(p, t)
    ensures CanUpdate(Updated(p, t), t)
    ensures Updated(Updated(p, t), t) == Updated(p, t)
  {
  }

  /**
   * After `update(t)` with a new t on a policy with actions: every regret
   * is max(0, m·old + mult·(cf − expectation)) with m = n/(n+1), n ≥ 200;
   * each strategy sum grows by the new instantaneous probability, which is
   * a non-negative distribution; the last maximal regret is stable, no flag
   * is cleared, and every counterfactual is 0.
   */
  lemma {:induction false} UpdatedProperties<A>(p: PolicyState<A>, t: nat)
    requires p.Valid() && CanUpdate(p, t) && t != p.lastSet && |p.actions| > 0
    ensures var q := Updated(p, t);
      q.lastSet == t && q.firstUpdate.Some? &&
      (p.firstUpdate.Some? ==> q.firstUpdate == p.firstUpdate) &&
      exists n: nat :: n >= MIN_MOMENTUM_COUNT && 200.0 / 201.0 <= Momentum(n) < 1.0 &&
        forall i :: 0 <= i < |q.accRegrets| ==>
          q.accRegrets[i] == PushRegret(Momentum(n), p.accRegrets[i], Multiplier(p.player), p.counterfactuals[i], Expectation(p))
    ensures var q := Updated(p, t);
      NonNegative(q.accRegrets) && IsDistribution(InstPolicy(q.accRegrets)) &&
      (forall i :: 0 <= i < |q.avgStrategy| ==> q.avgStrategy[i] == p.avgStrategy[i] + InstPolicy(q.accRegrets)[i]) &&
      IsLastArgMax(q.accRegrets, LastArgMax(q.accRegrets)) && q.stable[LastArgMax(q.accRegrets)] &&
      (forall i :: 0 <= i < |q.stable| ==> p.stable[i] ==> q.stable[i]) &&
      (forall i :: 0 <= i < |q.counterfactuals| ==> q.counterfactuals[i] == 0.0)
  {
    var first := FirstAfter(p.firstUpdate, t);
    var n := MomentumCount(t, first.value);
    MomentumBounds(n);
    var r := UpdatedRegrets(Momentum(n), p.accRegrets, p.counterfactuals, Multiplier(p.player), Expectation(p));
    UpdatedRegretsNonNegative(Momentum(n), p.accRegrets, p.counterfactuals, Multiplier(p.player), Expectation(p));
    assert forall i :: 0 <= i < |r| ==>
      r[i] == PushRegret(Momentum(n), p.accRegrets[i], Multiplier(p.player), p.counterfactuals[i], Expectation(p));
  }

  /** An update with a new t on a policy with no actions records t and changes nothing else. */
  lemma {:induction false} UpdateWithoutActions<A>(p: PolicyState<A>, t: nat)
    requires p.Valid() && CanUpdate(p, t) && t != p.lastSet && |p.actions| == 0
    ensures Updated(p, t) == p.(lastSet := t, firstUpdate := FirstAfter(p.firstUpdate, t))
  {
  }

  // ---------------------------------------------------------------------
  // The policy object

  class Policy<A(==)> {
    var player: Player
    var actions: seq<A>
    var counterfactuals: seq<real>
    var expansions: seq<nat>
    var accRegrets: seq<real>
    var avgStrategy: seq<real>
    var stable: seq<bool>
    var firstUpdate: Option<nat>
    var lastSet: nat

    function State(): PolicyState<A>
      reads this
    {
      PolicyState(player, actions, counterfactuals, expansions, accRegrets, avgStrategy, stable, firstUpdate, lastSet)
    }

    predicate Valid()
      reads this
    {
      State().Valid()
    }

    constructor FromRewards(items: seq<(A, real)>, player: Player)
      requires RewardsInRange(items)
      ensures State() == RewardPolicy(items, player)
    {
      var p := RewardPolicy(items, player);
      this.player := p.player;
      actions := p.actions;
      counterfactuals := p.counterfactuals;
      expansions := p.expansions;
      accRegrets := p.accRegrets;
      avgStrategy := p.avgStrategy;
      stable := p.stable;
      firstUpdate := p.firstUpdate;
      lastSet := p.lastSet;
    }

    /** The quality of every action, given the exploration roots. */
    function Qualities(roots: seq<real>): (q: seq<real>)
      reads this
      requires Valid() && |roots| == |actions| && NonNegative(roots)
      ensures |q| == |actions| && forall i :: 0 <= i < |q| ==> q[i] >= counterfactuals[i]
    {
      QualitiesOf(State(), roots)
    }

    /** `exploit`: an action drawn from the instantaneous policy, always of positive probability; it panics for no actions. */
    function Exploit(choice: nat, u: real): (i: nat)
      reads this
      requires Valid() && |actions| > 0 && choice < |actions| && 0.0 <= u < 1.0
      ensures i < |actions| && InstPolicy(accRegrets)[i] > 0.0
    {
      ExploitIndex(State(), choice, u)
    }

    /** `explore`: an action drawn from the exploration policy, always of positive probability; it panics for no actions. */
    function Explore(roots: seq<real>, choice: nat, u: real): (i: nat)
      reads this
      requires Valid() && |actions| > 0 && |roots| == |actions| && NonNegative(roots)
      requires choice < |actions| && 0.0 <= u < 1.0
      ensures i < |actions| && ExplorationDist(Qualities(roots), accRegrets)[i] > 0.0
    {
      ExploreIndex(State(), roots, choice, u)
    }

    /** `add_counterfactual(a, r, p)`; it panics when a is not an action. */
    method AddCounterfactual(a: A, r: real, prob: real)
      requires Valid() && a in actions
      modifies this
      ensures State() == WithCounterfactual(old(State()), a, r, prob)
    {
      var v := r * prob;
      var idx := Position(actions, a);
      counterfactuals := counterfactuals[idx := counterfactuals[idx] + v];
    }

    /** `add_expansion(a)`; it panics when a is not an action. */
    method AddExpansion(a: A)
      requires Valid() && a in actions
      modifies this
      ensures State() == WithExpansion(old(State()), a)
    {
      var idx := Position(actions, a);
      expansions := expansions[idx := expansions[idx] + 1];
    }

    /** `expectation`, summed left to right over the actions. */
    method GetExpectation() returns (e: real)
      requires Valid()
      ensures e == Expectation(State())
    {
      if |counterfactuals| == 0 {
        return 0.0;
      }
      var policy := InstPolicy(accRegrets);
      e := Dot(policy, counterfactuals);
    }

    /** `best_action`; it panics for no actions. */
    method GetBestAction() returns (a: A)
      requires Valid() && |actions| > 0
      ensures a == actions[BestAction(accRegrets)]
    {
      var best := 0;
      for i := 1 to |accRegrets|
        invariant best < i && IsLastArgMax(accRegrets[..i], best)
      {
        assert accRegrets[..i + 1][..i] == accRegrets[..i];
        if accRegrets[i] >= accRegrets[best] {
          best := i;
        }
      }
      assert accRegrets[..|accRegrets|] == accRegrets;
      LastArgMaxUnique(accRegrets, best);
      a := actions[best];
    }

    /**
     * `update(t)`: the regret loop and the strategy-sum loop run in place,
     * then the best action is marked stable and the counterfactuals reset.
     */
    method Update(t: nat)
      requires Valid() && CanUpdate(State(), t)
      modifies this
      ensures State() == Updated(old(State()), t)
    {
      if t == lastSet {
        return;
      }
      ghost var p := State();
      lastSet := t;
      if firstUpdate.None? {
        firstUpdate := Some(lastSet - 1);
      }
      ghost var p1 := State();
      assert p1 == p.(lastSet := t, firstUpdate := FirstAfter(p.firstUpdate, t));
      var numUpdates := MomentumCount(t, firstUpdate.value);
      var momentum := (numUpdates as real) / (numUpdates as real + 1.0);
      assert momentum == Momentum(numUpdates);
      var n := |counterfactuals|;
      if n == 0 {
        return;
      }
      Sweep(momentum);
    }

    /** The part of `update` after the momentum is known: the regret loop, the strategy sums, the stable mark, the reset. */
    method Sweep(momentum: real)
      requires Valid() && |actions| > 0
      modifies this
      ensures State() == Swept(old(State()), momentum)
    {
      var n := |counterfactuals|;
      var baseline := Expectation(State());
      var mult := Multiplier(player);
      var acc := PushRegrets(momentum, accRegrets, counterfactuals, mult, baseline);
      accRegrets := acc;
      var policy := InstPolicy(acc);
      avgStrategy := AddInto(avgStrategy, policy);
      stable := stable[LastArgMax(acc) := true];
      counterfactuals := Repeat(n, 0.0);
    }
  }
}
