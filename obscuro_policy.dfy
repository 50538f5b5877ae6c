// The policy of the modular Rust solver (src/obscuro/policy.rs). It is the
// single-file solver's `Policy` (src/obscuro/old/obscuro_single.rs) with a
// three-valued player: the multiplier is derived from the player, and the
// random player counts as a maximiser. Regret matching, sampling,
// purification and `update` are those of `SinglePolicy`, whose functions
// specify the methods here.
module ObscuroPolicy {
  import opened Reals
  import opened Players
  import opened Seqs
  import SP = SinglePolicy

  /** `player_to_multiplier`: -1 for P2, +1 for P1 and for the random player. */
  function Multiplier(p: Player): (m: int)
    ensures m == 1 || m == -1
    ensures m == -1 <==> p == P2
    ensures p == P1 ==> m == SP.Multiplier(SP.P1)
    ensures p == P2 ==> m == SP.Multiplier(SP.P2)
  {
    match p
    case P1 => 1
    case P2 => -1
    case Chance => 1
  }

  /** `from_actions`: expectations and expansions 0, every regret EPS, nothing stable, multiplier from the player. */
  function InitialState<A>(actions: seq<A>, player: Player): (s: SP.PolicyState<A>)
    ensures s.Valid() && s.actions == actions && s.multiplier == Multiplier(player) && s.updates == 0
    ensures forall i :: 0 <= i < |actions| ==>
      s.expectations[i] == 0.0 && s.expansions[i] == 0 && s.accRegrets[i] == SP.EPS && !s.stable[i]
  {
    SP.InitialPolicy(actions, Multiplier(player))
  }

  /** `from_rewards`: the rewards become the expectations; the rest as in `from_actions`. */
  function RewardState<A>(items: seq<(A, real)>, player: Player): (s: SP.PolicyState<A>)
    ensures s.Valid() && |s.actions| == |items| && s.multiplier == Multiplier(player) && s.updates == 0
    ensures forall i :: 0 <= i < |items| ==>
      s.actions[i] == items[i].0 && s.expectations[i] == items[i].1 &&
      s.expansions[i] == 0 && s.accRegrets[i] == SP.EPS && !s.stable[i]
  {
    SP.PolicyState(Multiplier(player), Firsts(items), Seconds(items), Repeat(|items|, 0),
      Repeat(|items|, SP.EPS), Repeat(|items|, false), 0)
  }

  /** For the two real players the three-valued constructors build the single-file solver's states. */
  lemma {:induction false} AgreesWithSingle<A>(actions: seq<A>, items: seq<(A, real)>, player: Player)
    requires player != Chance
    ensures var q := if player == P1 then SP.P1 else SP.P2;
      RewardState(items, player) == SP.RewardPolicy(items, q) &&
      InitialState(actions, player) == SP.InitialPolicy(actions, SP.Multiplier(q))
  {
  }

  /** A fresh policy with actions plays uniformly: all its regrets are the same EPS. */
  lemma {:induction false} FreshPolicyUniform<A>(s: SP.PolicyState<A>, n: nat)
    requires s.Valid() && |s.actions| == n > 0
    requires forall i :: 0 <= i < n ==> s.accRegrets[i] == SP.EPS
    ensures SP.ExploitPolicy(s.accRegrets) == Uniform(n)
  {
    var acc := s.accRegrets;
    SumConstant(n, SP.EPS, acc);
    var x := SP.ExploitPolicy(acc);
    forall i | 0 <= i < n
      ensures x[i] == Uniform(n)[i]
    {
      calc {
        x[i];
        acc[i] * (1.0 / Sum(acc));
        SP.EPS * (1.0 / ((n as real) * SP.EPS));
        1.0 / (n as real);
      }
    }
  }

  /** `expectation`, the mean of the expectations, lies between any bounds on them (0 for no actions). */
  lemma {:induction false} ExpectationBetween<A>(s: SP.PolicyState<A>, lo: real, hi: real)
    requires forall i :: 0 <= i < |s.expectations| ==> lo <= s.expectations[i] <= hi
    ensures |s.expectations| == 0 ==> SP.Expectation(s) == 0.0
    ensures |s.expectations| > 0 ==> lo <= SP.Expectation(s) <= hi
  {
    if |s.expectations| > 0 {
      MeanBounds(s.expectations, lo, hi);
    }
  }

  /** Every regret of a valid state is at least EPS, so the regret sum is positive as soon as there is an action. */
  lemma {:induction false} RegretSumPositive<A>(s: SP.PolicyState<A>, i: nat)
    requires s.Valid() && i < |s.accRegrets|
    ensures NonNegative(s.accRegrets) && Sum(s.accRegrets) >= s.accRegrets[i] >= SP.EPS > 0.0
  {
    EntryAtMostSum(s.accRegrets, i);
  }

  /** Over a valid state each action's exploit probability is positive and is its entry in the exploit policy. */
  lemma {:induction false} PExploitPositive<A>(s: SP.PolicyState<A>, i: nat)
    requires s.Valid() && i < |s.accRegrets|
    ensures 0.0 < SP.PExploit(s.accRegrets, i) <= 1.0
    ensures SP.PExploit(s.accRegrets, i) == SP.ExploitPolicy(s.accRegrets)[i]
  {
    RegretSumPositive(s, i);
    SP.PExploitBounds(s.accRegrets, i);
    SP.PExploitAgainstExploitPolicy(s.accRegrets, i);
    DivBounds(s.accRegrets[i], 0.0, 1.0, Sum(s.accRegrets));
  }

  /**
   * Over a valid state the exploit policy is a distribution as soon as
   * there is an action, and each entry times the regret sum is the
   * action's regret.
   */
  lemma {:induction false} ExploitPolicyScales<A>(s: SP.PolicyState<A>)
    requires s.Valid()
    ensures |s.actions| > 0 ==> IsDistribution(SP.ExploitPolicy(s.accRegrets)) && Sum(s.accRegrets) > 0.0
    ensures forall i :: 0 <= i < |s.accRegrets| ==> SP.ExploitPolicy(s.accRegrets)[i] * Sum(s.accRegrets) == s.accRegrets[i]
  {
    if |s.actions| > 0 {
      SP.ExploitPolicyIsDistribution(s.accRegrets);
      RegretSumPositive(s, 0);
    }
    forall i | 0 <= i < |s.accRegrets|
      ensures SP.ExploitPolicy(s.accRegrets)[i] * Sum(s.accRegrets) == s.accRegrets[i]
    {
      ExploitEntry(s, i);
    }
  }

  /** One entry of the exploit policy times the regret sum is the action's regret. */
  lemma {:induction false} ExploitEntry<A>(s: SP.PolicyState<A>, i: nat)
    requires s.Valid() && i < |s.accRegrets|
    ensures SP.ExploitPolicy(s.accRegrets)[i] * Sum(s.accRegrets) == s.accRegrets[i]
  {
    var acc := s.accRegrets;
    var t := Sum(acc);
    RegretSumPositive(s, i);
    var c := 1.0 / t;
    assert SP.ExploitPolicy(acc)[i] == acc[i] * c;
    assert c * t == 1.0;
    assert acc[i] * c * t == acc[i] * (c * t);
  }

  class Policy<A(==)> {
    var multiplier: int
    var actions: seq<A>
    var expectations: seq<real>
    var expansions: seq<nat>
    var accRegrets: seq<real>
    var stable: seq<bool>
    var updates: nat

    function State(): SP.PolicyState<A>
      reads this
    {
      SP.PolicyState(multiplier, actions, expectations, expansions, accRegrets, stable, updates)
    }

    ghost predicate Valid()
      reads this
    {
      State().Valid()
    }

    constructor FromActions(actions: seq<A>, player: Player)
      ensures State() == InitialState(actions, player)
    {
      var s := InitialState(actions, player);
      multiplier := s.multiplier;
      this.actions := s.actions;
      expectations := s.expectations;
      expansions := s.expansions;
      accRegrets := s.accRegrets;
      stable := s.stable;
      updates := s.updates;
    }

    constructor FromRewards(items: seq<(A, real)>, player: Player)
      ensures State() == RewardState(items, player)
    {
      var s := RewardState(items, player);
      multiplier := s.multiplier;
      actions := s.actions;
      expectations := s.expectations;
      expansions := s.expansions;
      accRegrets := s.accRegrets;
      stable := s.stable;
      updates := s.updates;
    }

    /**
     * `exploit_policy`: empty for no actions; since every regret is at
     * least EPS it is then the regrets divided by their sum, a
     * distribution.
     */
    function ExploitPolicy(): (x: seq<real>)
      reads this
      requires Valid()
      ensures |x| == |actions|
      ensures |actions| > 0 ==> IsDistribution(x) && Sum(accRegrets) > 0.0
      ensures forall i :: 0 <= i < |x| ==> x[i] * Sum(accRegrets) == accRegrets[i]
    {
      ExploitPolicyScales(State());
      SP.ExploitPolicy(accRegrets)
    }

    /** `p_exploit(a)`: the exploit probability of a, in (0, 1]; it panics when a is not an action. */
    function PExploit(a: A): (x: real)
      reads this
      requires Valid() && a in actions
      ensures 0.0 < x <= 1.0
      ensures x == ExploitPolicy()[Position(actions, a)]
    {
      var i := Position(actions, a);
      PExploitPositive(State(), i);
      SP.PExploit(accRegrets, i)
    }

    /** `exploit`: an action whose exploit probability is positive. */
    function Exploit(choice: nat, u: real): (i: nat)
      reads this
      requires Valid() && |actions| > 0 && choice < |actions| && 0.0 <= u < 1.0
      ensures i < |actions| && ExploitPolicy()[i] > 0.0
    {
      SP.SampleFrom(ExploitPolicy(), choice, u)
    }

    /** `explore`: an action with positive probability under the 50/50 mix of PUCT and exploit. */
    method Explore(roots: seq<real>, choice: nat, u: real) returns (i: nat)
      requires Valid() && |actions| > 0 && |roots| == |actions| && NonNegative(roots)
      requires choice < |actions| && 0.0 <= u < 1.0
      ensures i < |actions| && SP.ExplorationDist(Qualities(roots), accRegrets)[i] > 0.0
    {
      var x := SP.ExplorationPolicy(Qualities(roots), accRegrets);
      RegretSumPositive(State(), 0);
      SP.ExplorationDistIsDistribution(Qualities(roots), accRegrets);
      i := SP.SampleFrom(x, choice, u);
    }

    /** The quality of every action, given the exploration roots sqrt(ln n / max(expansions, 1)). */
    function Qualities(roots: seq<real>): (q: seq<real>)
      reads this
      requires Valid() && |roots| == |actions| && NonNegative(roots)
      ensures |q| == |actions| && forall i :: 0 <= i < |q| ==> q[i] >= expectations[i]
    {
      seq(|actions|, i reads this requires 0 <= i < |actions| && i < |roots| && i < |expectations| && roots[i] >= 0.0 =>
        SP.Quality(expectations[i], roots[i]))
    }

    /** `purified`: one of the MAX_SUPPORT likeliest actions; no action outside them is likelier. */
    function Purified(choice: nat): (i: nat)
      reads this
      requires Valid() && |actions| > 0 && choice < SP.MinSupport(|actions|)
      ensures i < |actions| && i in SP.PurifiedSupport(accRegrets)
      ensures forall b :: 0 <= b < |actions| && b !in SP.PurifiedSupport(accRegrets) ==>
        ExploitPolicy()[i] >= ExploitPolicy()[b]
    {
      var i := SP.Purified(accRegrets, choice);
      forall b | 0 <= b < |actions| && b !in SP.PurifiedSupport(accRegrets)
        ensures ExploitPolicy()[i] >= ExploitPolicy()[b]
      {
        SP.PurifiedSupportIsTop(accRegrets, i, b);
      }
      i
    }

    /** `expectation`: the mean of the expectations, 0 for no actions. */
    method GetExpectation() returns (e: real)
      ensures e == SP.Expectation(State())
    {
      if |expectations| == 0 {
        return 0.0;
      }
      e := Sum(expectations) / (|expectations| as real);
    }

    /** `set_expectation(a, v)`: only a's expectation becomes v; it panics when a is not an action. */
    method SetExpectation(a: A, v: real)
      requires Valid() && a in actions
      modifies this
      ensures State() == SP.WithExpectation(old(State()), a, v)
      ensures Valid()
    {
      var idx := Position(actions, a);
      expectations := expectations[idx := v];
    }

    /** `add_expansion(a)`: only a's expansion count grows, by one. */
    method AddExpansion(a: A)
      requires Valid() && a in actions
      modifies this
      ensures State() == SP.WithExpansion(old(State()), a)
      ensures Valid()
    {
      var idx := Position(actions, a);
      expansions := expansions[idx := expansions[idx] + 1];
    }

    /**
     * `update`: without expectations nothing happens; otherwise each
     * regret gains its positive advantage over the mean expectation and
     * is floored at EPS, so no regret falls; the last action of maximal
     * regret is marked stable and `updates` grows by one.
     */
    method Update()
      requires Valid()
      modifies this
      ensures State() == SP.Updated(old(State())) && Valid()
      ensures |actions| > 0 ==> updates == old(updates) + 1
      ensures forall i :: 0 <= i < |accRegrets| ==> accRegrets[i] >= old(accRegrets)[i] && accRegrets[i] >= SP.EPS
    {
      ghost var before := State();
      var n := |expectations|;
      if n == 0 {
        return;
      }
      var baseline := Sum(expectations) / (n as real);
      var mult := multiplier as real;
      ghost var target := SP.UpdatedRegrets(accRegrets, expectations, multiplier);
      for i := 0 to n
        invariant |accRegrets| == n
        invariant forall j :: 0 <= j < i ==> accRegrets[j] == target[j]
        invariant forall j :: i <= j < n ==> accRegrets[j] == old(accRegrets)[j]
        invariant actions == old(actions) && expectations == old(expectations) && expansions == old(expansions)
        invariant stable == old(stable) && updates == old(updates) && multiplier == old(multiplier)
      {
        var adv := mult * (expectations[i] - baseline);
        assert adv == SP.Advantage(expectations[i], Mean(expectations), multiplier);
        var r := accRegrets[i];
        if adv > 0.0 {
          r := r + adv;
        }
        if r <= 0.0 {
          r := SP.EPS;
        }
        accRegrets := accRegrets[i := r];
      }
      assert accRegrets == target;
      stable := stable[LastArgMax(accRegrets) := true];
      updates := updates + 1;
      SP.UpdatedProperties(before);
    }
  }
}
