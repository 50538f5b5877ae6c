// The regret minimiser of the single-file Rust solver
// (src/obscuro/old/obscuro_single.rs, `Policy`) and of its near-copy
// deprecated/chat.rs. Both keep one slot per action for the counterfactual
// expectation, the expansion count, the accumulated regret and a
// "stable" flag; regret matching turns the regrets into a strategy, a
// one-hot PUCT arm mixes in exploration, and `update` pushes positive
// advantages over the mean expectation into the regrets with an epsilon
// floor. Actions are identified by their position in the action list.
module SinglePolicy {
  import opened Reals
  import opened Sorting
  import opened Seqs

  /** The floor every regret is reset to when it is not positive. */
  const EPS: real := 0.000000000001
  const MAX_SUPPORT: nat := 3
  /** Exploration constant of the quality score. */
  const C: real := 1.25

  datatype Player = P1 | P2

  function Other(p: Player): Player
  {
    match p
    case P1 => P2
    case P2 => P1
  }

  /** +1 for the maximising player P1, -1 for P2. */
  function Multiplier(p: Player): int
  {
    if p == P1 then 1 else -1
  }

  /** `other` swaps the players, so applying it twice is the identity, and the multipliers are opposite. */
  lemma {:induction false} OtherInvolution(p: Player)
    ensures Other(p) != p && Other(Other(p)) == p
    ensures Multiplier(Other(p)) == -Multiplier(p)
    ensures Multiplier(p) == 1 || Multiplier(p) == -1
  {
  }

  // ---------------------------------------------------------------------
  // Regret matching

  /** `exploit_policy`: empty for no actions, uniform when the regret sum is not positive, else regret / sum. */
  function ExploitPolicy(acc: seq<real>): (x: seq<real>)
    ensures |x| == |acc|
  {
    if |acc| == 0 then []
    else if Sum(acc) <= 0.0 then Uniform(|acc|)
    else Scale(acc, 1.0 / Sum(acc))
  }

  /** The exploit policy of a non-empty action list sums to 1, and is a distribution when the regrets are non-negative. */
  lemma {:induction false} ExploitPolicyIsDistribution(acc: seq<real>)
    requires |acc| > 0
    ensures Sum(ExploitPolicy(acc)) == 1.0
    ensures NonNegative(acc) ==> IsDistribution(ExploitPolicy(acc))
  {
    if Sum(acc) <= 0.0 {
      SumUniform(|acc|);
    } else {
      Normalized(acc, Sum(acc));
      if NonNegative(acc) {
        var x := ExploitPolicy(acc);
        forall i | 0 <= i < |acc|
          ensures x[i] >= 0.0
        {
          MulMonotone(1.0 / Sum(acc), 0.0, acc[i]);
        }
      }
    }
  }

  /** `p_exploit(a)`: 0 when the regret sum is not positive, else regret / sum. */
  function PExploit(acc: seq<real>, i: nat): real
    requires i < |acc|
  {
    if Sum(acc) <= 0.0 then 0.0 else acc[i] / Sum(acc)
  }

  /**
   * `p_exploit` agrees with `exploit_policy` while the regret sum is
   * positive; below that it reports 0 where the policy plays uniformly.
   */
  lemma {:induction false} PExploitAgainstExploitPolicy(acc: seq<real>, i: nat)
    requires i < |acc|
    ensures Sum(acc) > 0.0 ==> PExploit(acc, i) == ExploitPolicy(acc)[i]
    ensures Sum(acc) <= 0.0 ==> PExploit(acc, i) == 0.0 && ExploitPolicy(acc)[i] == 1.0 / (|acc| as real) > 0.0
  {
  }

  // ---------------------------------------------------------------------
  // Exploration

  /**
   * `quality(i)` = expectation + C·sqrt(ln n / max(expansions[i], 1)),
   * where `root` is that square root: logarithms and roots are not
   * modelled, so the caller supplies it.
   */
  function Quality(expectation: real, root: real): (q: real)
    requires root >= 0.0
    ensures q >= expectation
    ensures root == 0.0 ==> q == expectation
  {
    expectation + C * root
  }

  /** The strict `>` scan of `puct`: the first index of maximal quality. */
  method FirstBest(quality: seq<real>) returns (best: nat)
    requires |quality| > 0
    ensures IsFirstArgMax(quality, best) && best == FirstArgMax(quality)
  {
    best := 0;
    var i := 1;
    while i < |quality|
      invariant 1 <= i <= |quality| && best < i
      invariant forall j :: 0 <= j < i ==> quality[j] <= quality[best]
      invariant forall j :: 0 <= j < best ==> quality[j] < quality[best]
    {
      if quality[i] > quality[best] {
        best := i;
      }
      i := i + 1;
    }
    FirstArgMaxUnique(quality, best);
  }

  /** `puct`: empty for no actions, else one-hot at the first index of maximal quality. */
  method Puct(quality: seq<real>) returns (out: seq<real>)
    ensures |quality| == 0 ==> out == []
    ensures |quality| > 0 ==> out == OneHot(|quality|, FirstArgMax(quality))
  {
    if |quality| == 0 {
      return [];
    }
    var best := FirstBest(quality);
    out := Repeat(|quality|, 0.0);
    out := out[best := 1.0];
  }

  /** The exploration policy: the exploit policy alone for no actions, else the even mix of the PUCT arm and the exploit policy. */
  function ExplorationDist(quality: seq<real>, acc: seq<real>): (x: seq<real>)
    requires |quality| == |acc|
    ensures |x| == |acc|
  {
    if |quality| == 0 then ExploitPolicy(acc)
    else Average(OneHot(|quality|, FirstArgMax(quality)), ExploitPolicy(acc))
  }

  /** `exploration_policy`, entry by entry 0.5·puct + 0.5·exploit. */
  method ExplorationPolicy(quality: seq<real>, acc: seq<real>) returns (x: seq<real>)
    requires |quality| == |acc|
    ensures x == ExplorationDist(quality, acc)
  {
    var puct := Puct(quality);
    var exploit := ExploitPolicy(acc);
    if |puct| == 0 {
      return exploit;
    }
    x := seq(|puct|, i requires 0 <= i < |puct| => 0.5 * puct[i] + 0.5 * exploit[i]);
    assert forall i :: 0 <= i < |x| ==> x[i] == ExplorationDist(quality, acc)[i];
  }

  /** With non-negative regrets the exploration policy is a distribution giving the best-quality action at least one half. */
  lemma {:induction false} ExplorationDistIsDistribution(quality: seq<real>, acc: seq<real>)
    requires |quality| == |acc| && |acc| > 0 && NonNegative(acc)
    ensures IsDistribution(ExplorationDist(quality, acc))
    ensures ExplorationDist(quality, acc)[FirstArgMax(quality)] >= 0.5
  {
    ExploitPolicyIsDistribution(acc);
    OneHotIsDistribution(|quality|, FirstArgMax(quality));
    AverageDistribution(OneHot(|quality|, FirstArgMax(quality)), ExploitPolicy(acc));
  }

  // ---------------------------------------------------------------------
  // Sampling

  /** The sampling weights of `sample_from`: 0 for a non-positive entry, else entry / net. */
  function Weights(probs: seq<real>, net: real): (w: seq<real>)
    requires net > 0.0
    ensures |w| == |probs| && NonNegative(w)
    ensures forall i :: 0 <= i < |probs| ==> (w[i] > 0.0 <==> probs[i] > 0.0)
  {
    var w := seq(|probs|, i requires 0 <= i < |probs| => if probs[i] <= 0.0 then 0.0 else probs[i] / net);
    assert forall i :: 0 <= i < |probs| && probs[i] > 0.0 ==> w[i] > 0.0;
    w
  }

  /**
   * `sample_from`: an index drawn with probability proportional to the
   * positive entries, or the uniform draw `choice` when the entries do
   * not sum to a positive value. `u` is the uniform draw in [0, 1) that
   * rand's `WeightedIndex` scales by the total weight.
   */
  function SampleFrom(probs: seq<real>, choice: nat, u: real): (i: nat)
    requires |probs| > 0 && choice < |probs| && 0.0 <= u < 1.0
    ensures i < |probs|
    ensures Sum(probs) > 0.0 ==> probs[i] > 0.0
  {
    var net := Sum(probs);
    if net <= 0.0 then choice
    else
      var w := Weights(probs, net);
      var x := ScaledDraw(u, Sum(w));
      WeightedDraw(probs, w, u, x);
      Crossing(w, x)
  }

  lemma {:induction false} WeightedDraw(probs: seq<real>, w: seq<real>, u: real, x: real)
    requires Sum(probs) > 0.0 && w == Weights(probs, Sum(probs)) && 0.0 <= u < 1.0 && x == ScaledDraw(u, Sum(w))
    ensures Crossing(w, x) < |w| == |probs|
    ensures probs[Crossing(w, x)] > 0.0
  {
    var i := PositiveEntry(probs);
    assert w[i] > 0.0;
    EntryAtMostSum(w, i);
    CrossingDraw(w, u, x);
  }

  /**
   * deprecated/chat.rs samples with weights entry / net and no clamp, so a
   * negative entry makes `WeightedIndex::new` fail; over non-negative
   * entries it draws the same index as the clamped version.
   */
  function ChatSampleFrom(probs: seq<real>, choice: nat, u: real): nat
    requires |probs| > 0 && choice < |probs| && 0.0 <= u < 1.0 && NonNegative(probs)
  {
    var net := Sum(probs);
    if net <= 0.0 then choice
    else
      var v := Scale(probs, 1.0 / net);
      var x := ScaledDraw(u, Sum(v));
      Crossing(v, x)
  }

  lemma {:induction false} ChatSampleFromAgrees(probs: seq<real>, choice: nat, u: real)
    requires |probs| > 0 && choice < |probs| && 0.0 <= u < 1.0 && NonNegative(probs)
    ensures ChatSampleFrom(probs, choice, u) == SampleFrom(probs, choice, u)
  {
    var net := Sum(probs);
    if net > 0.0 {
      var w := Weights(probs, net);
      var v := Scale(probs, 1.0 / net);
      forall i | 0 <= i < |probs|
        ensures w[i] == v[i]
      {
        if probs[i] <= 0.0 {
          assert probs[i] == 0.0;
        }
      }
      assert w == v;
      var x := ScaledDraw(u, Sum(w));
      assert SampleFrom(probs, choice, u) == Crossing(w, x);
      assert ChatSampleFrom(probs, choice, u) == Crossing(v, x);
    }
  }

  // ---------------------------------------------------------------------
  // Purification

  function MinSupport(n: nat): nat
  {
    if n < MAX_SUPPORT then n else MAX_SUPPORT
  }

  /** The candidates of `purified`: the first MAX_SUPPORT actions in descending order of exploit probability (stable sort). */
  function PurifiedSupport(acc: seq<real>): (s: seq<nat>)
    ensures |s| == MinSupport(|acc|) && forall k :: 0 <= k < |s| ==> s[k] < |acc|
  {
    Descending(ExploitPolicy(acc))[..MinSupport(|acc|)]
  }

  /** No action outside the support has a larger exploit probability than one inside, and the support has no repeats. */
  lemma {:induction false} PurifiedSupportIsTop(acc: seq<real>, a: nat, b: nat)
    requires a in PurifiedSupport(acc) && b < |acc| && b !in PurifiedSupport(acc)
    ensures ExploitPolicy(acc)[a] >= ExploitPolicy(acc)[b]
    ensures Distinct(PurifiedSupport(acc))
  {
    DescendingPrefixIsTop(ExploitPolicy(acc), MinSupport(|acc|), a, b);
    DescendingPrefixDistinct(ExploitPolicy(acc), MinSupport(|acc|));
  }

  /** The support starts with the first action of maximal exploit probability. */
  lemma {:induction false} PurifiedSupportStartsWithBest(acc: seq<real>)
    requires |acc| > 0
    ensures PurifiedSupport(acc)[0] == FirstArgMax(ExploitPolicy(acc))
  {
    DescendingHeadIsFirstArgMax(ExploitPolicy(acc));
  }

  /** `purified`: the uniform draw `choice` among the support; it panics for no actions. */
  function Purified(acc: seq<real>, choice: nat): (i: nat)
    requires |acc| > 0 && choice < MinSupport(|acc|)
    ensures i < |acc| && i in PurifiedSupport(acc)
  {
    PurifiedSupport(acc)[choice]
  }

  // ---------------------------------------------------------------------
  // Update

  /** One regret after `update`: the advantage added when positive, then the floor EPS when not positive. */
  function PushRegret(r: real, adv: real): real
  {
    var t := if adv > 0.0 then r + adv else r;
    if t <= 0.0 then EPS else t
  }

  /** The advantage of an action for the mover: mult·(expectation − baseline). */
  function Advantage(e: real, baseline: real, mult: int): real
  {
    (mult as real) * (e - baseline)
  }

  /** The regrets after `update`, with advantage mult·(expectation − mean expectation). */
  function UpdatedRegrets(acc: seq<real>, exps: seq<real>, mult: int): (r: seq<real>)
    requires |acc| == |exps|
    ensures |r| == |acc|
    ensures forall i :: 0 <= i < |acc| ==> r[i] == PushRegret(acc[i], Advantage(exps[i], Mean(exps), mult))
  {
    seq(|acc|, i requires 0 <= i < |acc| => PushRegret(acc[i], Advantage(exps[i], Mean(exps), mult)))
  }

  /** `update` never lowers a regret, leaves every regret positive, and keeps the floor EPS. */
  lemma {:induction false} UpdatedRegretsMonotone(acc: seq<real>, exps: seq<real>, mult: int, i: nat)
    requires |acc| == |exps| && i < |acc|
    ensures UpdatedRegrets(acc, exps, mult)[i] >= acc[i]
    ensures UpdatedRegrets(acc, exps, mult)[i] > 0.0
    ensures acc[i] >= EPS ==> UpdatedRegrets(acc, exps, mult)[i] >= EPS
  {
    assert UpdatedRegrets(acc, exps, mult)[i] == PushRegret(acc[i], Advantage(exps[i], Mean(exps), mult));
  }

  /** A regret grows exactly when its action beats the mean expectation (for the mover) and the regret stays positive. */
  lemma {:induction false} UpdatedRegretsGrowth(acc: seq<real>, exps: seq<real>, mult: int, i: nat)
    requires |acc| == |exps| && i < |acc| && acc[i] > 0.0
    ensures UpdatedRegrets(acc, exps, mult)[i] > acc[i] <==> Advantage(exps[i], Mean(exps), mult) > 0.0
    ensures UpdatedRegrets(acc, exps, mult)[i] - acc[i] == MaxFrom(0.0, [Advantage(exps[i], Mean(exps), mult)])
  {
    assert UpdatedRegrets(acc, exps, mult)[i] == PushRegret(acc[i], Advantage(exps[i], Mean(exps), mult));
    assert [Advantage(exps[i], Mean(exps), mult)][..0] == [];
  }

  /** When every action has the same expectation, `update` leaves positive regrets as they are. */
  lemma {:induction false} UpdatedRegretsFixpoint(acc: seq<real>, exps: seq<real>, mult: int, c: real)
    requires |acc| == |exps| && |exps| > 0 && NonNegative(acc)
    requires forall i :: 0 <= i < |exps| ==> exps[i] == c && acc[i] > 0.0
    ensures UpdatedRegrets(acc, exps, mult) == acc
  {
    MeanBounds(exps, c, c);
  }

  // ---------------------------------------------------------------------
  // The policy state

  /** The fields of a `Policy`, as one value (the tree stores policies by value). */
  datatype PolicyState<A> = PolicyState(
    multiplier: int,
    actions: seq<A>,
    expectations: seq<real>,
    expansions: seq<nat>,
    accRegrets: seq<real>,
    stable: seq<bool>,
    updates: nat)
  {
    /** One slot per action in every vector, and every regret at least EPS. */
    predicate Valid()
    {
      |expectations| == |actions| && |expansions| == |actions| &&
      |accRegrets| == |actions| && |stable| == |actions| &&
      forall i :: 0 <= i < |accRegrets| ==> accRegrets[i] >= EPS
    }
  }

  /** `from_actions`: expectations and expansions 0, every regret EPS, nothing stable. */
  function InitialPolicy<A>(actions: seq<A>, multiplier: int): (p: PolicyState<A>)
    ensures p.Valid() && p.actions == actions && p.multiplier == multiplier && p.updates == 0
    ensures forall i :: 0 <= i < |actions| ==>
      p.expectations[i] == 0.0 && p.expansions[i] == 0 && p.accRegrets[i] == EPS && !p.stable[i]
  {
    PolicyState(multiplier, actions, Repeat(|actions|, 0.0), Repeat(|actions|, 0),
      Repeat(|actions|, EPS), Repeat(|actions|, false), 0)
  }

  /** `from_rewards`: the rewards become the expectations; the multiplier is +1 for P1 and -1 for P2. */
  function RewardPolicy<A>(items: seq<(A, real)>, player: Player): (p: PolicyState<A>)
    ensures p.Valid() && |p.actions| == |items| && p.updates == 0
    ensures p.multiplier == (if player == P1 then 1 else -1)
    ensures forall i :: 0 <= i < |items| ==>
      p.actions[i] == items[i].0 && p.expectations[i] == items[i].1 &&
      p.expansions[i] == 0 && p.accRegrets[i] == EPS && !p.stable[i]
  {
    PolicyState(Multiplier(player), Firsts(items), Seconds(items), Repeat(|items|, 0),
      Repeat(|items|, EPS), Repeat(|items|, false), 0)
  }

  /** `expectation`: the mean of the expectations, 0 for no actions. */
  function Expectation<A>(p: PolicyState<A>): real
  {
    Mean(p.expectations)
  }

  /** The state after `update`. */
  function Updated<A>(p: PolicyState<A>): (q: PolicyState<A>)
    requires p.Valid()
    ensures q.Valid()
  {
    if |p.actions| == 0 then p
    else
      var r := UpdatedRegrets(p.accRegrets, p.expectations, p.multiplier);
      assert forall i :: 0 <= i < |r| ==> r[i] >= EPS by {
        forall i | 0 <= i < |r|
          ensures r[i] >= EPS
        {
          UpdatedRegretsMonotone(p.accRegrets, p.expectations, p.multiplier, i);
        }
      }
      p.(accRegrets := r, stable := p.stable[LastArgMax(r) := true], updates := p.updates + 1)
  }

  /**
   * `update` on a policy with actions: no regret falls, exactly one action
   * (the last of maximal regret) is newly marked stable, nothing else is
   * unmarked, and the update counter grows by one.
   */
  lemma {:induction false} UpdatedProperties<A>(p: PolicyState<A>)
    requires p.Valid() && |p.actions| > 0
    ensures var q := Updated(p);
      q.updates == p.updates + 1 &&
      q.actions == p.actions && q.expectations == p.expectations && q.expansions == p.expansions &&
      (forall i :: 0 <= i < |q.accRegrets| ==> q.accRegrets[i] >= p.accRegrets[i]) &&
      IsLastArgMax(q.accRegrets, LastArgMax(q.accRegrets)) && q.stable[LastArgMax(q.accRegrets)] &&
      (forall i :: 0 <= i < |q.stable| && i != LastArgMax(q.accRegrets) ==> q.stable[i] == p.stable[i])
  {
    var q := Updated(p);
    forall i | 0 <= i < |q.accRegrets|
      ensures q.accRegrets[i] >= p.accRegrets[i]
    {
      UpdatedRegretsMonotone(p.accRegrets, p.expectations, p.multiplier, i);
    }
  }

  /** `set_expectation(a, v)`: only a's expectation changes. */
  function WithExpectation<A(==)>(p: PolicyState<A>, a: A, v: real): (q: PolicyState<A>)
    requires p.Valid() && a in p.actions
    ensures q.Valid()
  {
    p.(expectations := p.expectations[Position(p.actions, a) := v])
  }

  /** `add_expansion(a)`: only a's expansion count grows, by one. */
  function WithExpansion<A(==)>(p: PolicyState<A>, a: A): (q: PolicyState<A>)
    requires p.Valid() && a in p.actions
    ensures q.Valid()
  {
    var i := Position(p.actions, a);
    p.(expansions := p.expansions[i := p.expansions[i] + 1])
  }

  /** Setting an expectation or adding an expansion touches exactly one slot of one vector. */
  lemma {:induction false} SlotUpdatesAreLocal<A>(p: PolicyState<A>, a: A, v: real, j: nat)
    requires p.Valid() && a in p.actions && j < |p.actions|
    ensures WithExpectation(p, a, v).expectations[j] == (if j == Position(p.actions, a) then v else p.expectations[j])
    ensures WithExpectation(p, a, v).(expectations := p.expectations) == p
    ensures WithExpansion(p, a).expansions[j] == p.expansions[j] + (if j == Position(p.actions, a) then 1 else 0)
    ensures WithExpansion(p, a).(expansions := p.expansions) == p
  {
  }

  /** `p_exploit(a)` for an action value. */
  function PExploitOf<A(==)>(p: PolicyState<A>, a: A): (x: real)
    requires p.Valid() && a in p.actions
    ensures 0.0 <= x <= 1.0
  {
    var i := Position(p.actions, a);
    PExploitBounds(p.accRegrets, i);
    PExploit(p.accRegrets, i)
  }

  /** Over non-negative regrets, `p_exploit` is a probability. */
  lemma {:induction false} PExploitBounds(acc: seq<real>, i: nat)
    requires i < |acc| && NonNegative(acc)
    ensures 0.0 <= PExploit(acc, i) <= 1.0
  {
    if Sum(acc) > 0.0 {
      EntryAtMostSum(acc, i);
      DivBounds(acc[i], 0.0, 1.0, Sum(acc));
    }
  }

  // ---------------------------------------------------------------------
  // The policy object

  class Policy<A(==)> {
    var multiplier: int
    var actions: seq<A>
    var expectations: seq<real>
    var expansions: seq<nat>
    var accRegrets: seq<real>
    var stable: seq<bool>
    var updates: nat

    function State(): PolicyState<A>
      reads this
    {
      PolicyState(multiplier, actions, expectations, expansions, accRegrets, stable, updates)
    }

    ghost predicate Valid()
      reads this
    {
      State().Valid()
    }

    constructor FromActions(actions: seq<A>, multiplier: int)
      ensures State() == InitialPolicy(actions, multiplier)
    {
      var p := InitialPolicy(actions, multiplier);
      this.multiplier := p.multiplier;
      this.actions := p.actions;
      expectations := p.expectations;
      expansions := p.expansions;
      accRegrets := p.accRegrets;
      stable := p.stable;
      updates := p.updates;
    }

    constructor FromRewards(items: seq<(A, real)>, player: Player)
      ensures State() == RewardPolicy(items, player)
    {
      var p := RewardPolicy(items, player);
      multiplier := p.multiplier;
      actions := p.actions;
      expectations := p.expectations;
      expansions := p.expansions;
      accRegrets := p.accRegrets;
      stable := p.stable;
      updates := p.updates;
    }

    /** The quality of every action, given the exploration roots. */
    function Qualities(roots: seq<real>): (q: seq<real>)
      reads this
      requires Valid() && |roots| == |actions| && NonNegative(roots)
      ensures |q| == |actions| && forall i :: 0 <= i < |q| ==> q[i] >= expectations[i]
    {
      seq(|actions|, i reads this requires 0 <= i < |actions| && i < |roots| && i < |expectations| && roots[i] >= 0.0 =>
        Quality(expectations[i], roots[i]))
    }

    /** `exploit`: an action whose exploit probability is positive. */
    function Exploit(choice: nat, u: real): (i: nat)
      reads this
      requires Valid() && |actions| > 0 && choice < |actions| && 0.0 <= u < 1.0
      ensures i < |actions| && ExploitPolicy(accRegrets)[i] > 0.0
    {
      ExploitPolicyIsDistribution(accRegrets);
      SampleFrom(ExploitPolicy(accRegrets), choice, u)
    }

    /** `explore`: an action with positive probability under the exploration policy. */
    method Explore(roots: seq<real>, choice: nat, u: real) returns (i: nat)
      requires Valid() && |actions| > 0 && |roots| == |actions| && NonNegative(roots)
      requires choice < |actions| && 0.0 <= u < 1.0
      ensures i < |actions| && ExplorationDist(Qualities(roots), accRegrets)[i] > 0.0
    {
      var x := ExplorationPolicy(Qualities(roots), accRegrets);
      ExplorationDistIsDistribution(Qualities(roots), accRegrets);
      i := SampleFrom(x, choice, u);
    }

    /** `set_expectation(a, v)`; it panics when a is not an action. */
    method SetExpectation(a: A, v: real)
      requires Valid() && a in actions
      modifies this
      ensures State() == WithExpectation(old(State()), a, v)
    {
      var idx := Position(actions, a);
      expectations := expectations[idx := v];
    }

    /** `add_expansion(a)`; it panics when a is not an action. */
    method AddExpansion(a: A)
      requires Valid() && a in actions
      modifies this
      ensures State() == WithExpansion(old(State()), a)
    {
      var idx := Position(actions, a);
      expansions := expansions[idx := expansions[idx] + 1];
    }

    /**
     * `update`: without actions nothing happens; otherwise every regret is
     * pushed by its advantage over the mean expectation and floored, the
     * last action of maximal regret (Rust's `max_by`) is marked stable and
     * `updates` grows by one.
     */
    method Update()
      requires Valid()
      modifies this
      ensures State() == Updated(old(State()))
    {
      var n := |expectations|;
      if n == 0 {
        return;
      }
      var baseline := Sum(expectations) / (n as real);
      var mult := multiplier as real;
      ghost var target := UpdatedRegrets(accRegrets, expectations, multiplier);
      var i := 0;
      while i < n
        invariant 0 <= i <= n && |accRegrets| == n
        invariant forall j :: 0 <= j < i ==> accRegrets[j] == target[j]
        invariant forall j :: i <= j < n ==> accRegrets[j] == old(accRegrets)[j]
        invariant actions == old(actions) && expectations == old(expectations) && expansions == old(expansions)
        invariant stable == old(stable) && updates == old(updates) && multiplier == old(multiplier)
      {
        var adv := mult * (expectations[i] - baseline);
        assert adv == Advantage(expectations[i], Mean(expectations), multiplier);
        var r := accRegrets[i];
        if adv > 0.0 {
          r := r + adv;
        }
        if r <= 0.0 {
          r := EPS;
        }
        accRegrets := accRegrets[i := r];
        i := i + 1;
      }
      assert accRegrets == target;
      stable := stable[LastArgMax(accRegrets) := true];
      updates := updates + 1;
    }
  }
}
