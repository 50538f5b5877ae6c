// The core types of the copilot generation (copilot/obscuro_core.rs): the
// `Game` interface, the regret-matching `Policy` of an information set and
// the three-state `History` tree node.
//
// A policy's three `HashMap`s keyed by action are vectors indexed by the
// action's position in `actions`; the source builds all three from the
// same action list, so they share its keys.
module CopilotCore {
  import opened Wrappers
  import opened Players
  import opened Reals
  import opened Seqs
  import CP = CfrPolicy

  /**
   * The copilot `Game` trait over states `S`, actions `A` and traces `T`:
   * `new` is `start`, `apply_action` is `apply`, and `partial_cmp` on
   * traces is `compare`. `identifier` is a `u64`.
   */
  datatype Game<!S, !A, !T> = Game(
    start: S,
    activePlayer: S -> Player,
    isTerminal: S -> bool,
    payoff: S -> real,
    legalActions: S -> seq<A>,
    apply: (S, A) -> S,
    trace: (S, Player) -> T,
    identifier: S -> nat,
    evaluate: S -> real,
    compare: (T, T) -> Option<Ordering>)

  predicate DistinctActions<A(==)>(xs: seq<A>)
  {
    forall i, j :: 0 <= i < j < |xs| ==> xs[i] != xs[j]
  }

  // ---------------------------------------------------------------------
  // Policy

  /** A policy: the acting player, the actions, and per action the cumulative regret, strategy weight and exploration count. */
  datatype PolicyState<A> = PolicyState(
    player: Player,
    actions: seq<A>,
    regrets: seq<real>,
    weights: seq<real>,
    updateCount: nat,
    explorations: seq<nat>)

  /** One slot per action in every vector, and no action twice (the maps have one key per action). */
  predicate Valid<A(==)>(p: PolicyState<A>)
  {
    |p.regrets| == |p.actions| && |p.weights| == |p.actions| && |p.explorations| == |p.actions| &&
    DistinctActions(p.actions)
  }

  /** `Policy::new`: regret 0, strategy weight 0 and exploration count 0 for every action. */
  function NewPolicy<A(==)>(actions: seq<A>, player: Player): (p: PolicyState<A>)
    requires DistinctActions(actions)
    ensures Valid(p) && p.actions == actions && p.player == player && p.updateCount == 0
    ensures forall i :: 0 <= i < |actions| ==> p.regrets[i] == 0.0 && p.weights[i] == 0.0 && p.explorations[i] == 0
  {
    var n := |actions|;
    PolicyState(player, actions, Repeat(n, 0.0), Repeat(n, 0.0), 0, Repeat(n, 0))
  }

  /** `r.max(0.0)` for every regret. */
  function Positives(rs: seq<real>): (ps: seq<real>)
    ensures |ps| == |rs| && NonNegative(ps)
    ensures forall i :: 0 <= i < |rs| ==> ps[i] == (if rs[i] > 0.0 then rs[i] else 0.0)
  {
    seq(|rs|, i requires 0 <= i < |rs| => if rs[i] > 0.0 then rs[i] else 0.0)
  }

  /**
   * `current_strategy` (regret matching+): empty without actions; the
   * positive parts of the regrets divided by their total when that is
   * positive; uniform otherwise. This is exactly the normalisation
   * `inst_policy` of src/policy.rs applied to the positive parts.
   */
  function CurrentStrategy<A(==)>(p: PolicyState<A>): (s: seq<real>)
    requires Valid(p)
    ensures |s| == |p.actions|
  {
    CP.InstPolicy(Positives(p.regrets))
  }

  /** `average_strategy`: the cumulative weights divided by their total when it is positive, else uniform. */
  function AverageStrategy<A(==)>(p: PolicyState<A>): (s: seq<real>)
    requires Valid(p)
    ensures |s| == |p.actions|
  {
    CP.InstPolicy(p.weights)
  }

  /** The probability of one action under the current strategy; 0 for an action the policy does not have (`unwrap_or(0.0)`). */
  function StrategyOf<A(==)>(p: PolicyState<A>, a: A): (x: real)
    requires Valid(p)
    ensures 0.0 <= x <= 1.0
    ensures a !in p.actions ==> x == 0.0
  {
    if a in p.actions then
      var i := Position(p.actions, a);
      CP.InstPolicyIsDistribution(Positives(p.regrets));
      EntryAtMostSum(CurrentStrategy(p), i);
      CurrentStrategy(p)[i]
    else 0.0
  }

  /**
   * The current strategy is a distribution over a non-empty action list;
   * with some positive regret, an action's probability is 0 exactly when
   * its regret is not positive, and a larger positive regret gets a larger
   * probability; with no positive regret it is uniform.
   */
  lemma {:induction false} CurrentStrategyProperties<A>(p: PolicyState<A>)
    requires Valid(p) && |p.actions| > 0
    ensures IsDistribution(CurrentStrategy(p))
    ensures (exists k :: 0 <= k < |p.regrets| && p.regrets[k] > 0.0) ==>
      (forall i :: 0 <= i < |p.actions| ==> (CurrentStrategy(p)[i] == 0.0 <==> p.regrets[i] <= 0.0)) &&
      (forall i, j :: 0 <= i < |p.actions| && 0 <= j < |p.actions| && p.regrets[i] > p.regrets[j] && p.regrets[i] > 0.0 ==>
        CurrentStrategy(p)[i] > CurrentStrategy(p)[j])
    ensures (forall k :: 0 <= k < |p.regrets| ==> p.regrets[k] <= 0.0) ==> CurrentStrategy(p) == Uniform(|p.actions|)
  {
    var pos := Positives(p.regrets);
    CP.InstPolicyIsDistribution(pos);
    if exists k :: 0 <= k < |p.regrets| && p.regrets[k] > 0.0 {
      var k :| 0 <= k < |p.regrets| && p.regrets[k] > 0.0;
      MatchingFollowsRegrets(p.regrets, k);
    } else {
      assert forall i :: 0 <= i < |pos| ==> pos[i] == 0.0;
      SumAllZero(pos);
    }
  }

  /** With regret k positive, the positive parts are divided by their positive total. */
  lemma {:induction false} MatchingFollowsRegrets(rs: seq<real>, k: nat)
    requires k < |rs| && rs[k] > 0.0
    ensures var s := CP.InstPolicy(Positives(rs));
      (forall i :: 0 <= i < |rs| ==> (s[i] == 0.0 <==> rs[i] <= 0.0)) &&
      (forall i, j :: 0 <= i < |rs| && 0 <= j < |rs| && rs[i] > rs[j] && rs[i] > 0.0 ==> s[i] > s[j])
  {
    var pos := Positives(rs);
    EntryAtMostSum(pos, k);
    var c := 1.0 / Sum(pos);
    assert CP.InstPolicy(pos) == Scale(pos, c);
    forall i | 0 <= i < |rs|
      ensures Scale(pos, c)[i] == 0.0 <==> rs[i] <= 0.0
    {
      ScaledZero(pos[i], c);
    }
    forall i, j | 0 <= i < |rs| && 0 <= j < |rs| && rs[i] > rs[j] && rs[i] > 0.0
      ensures Scale(pos, c)[i] > Scale(pos, c)[j]
    {
      ScaledOrder(pos, c, j, i);
    }
  }

  lemma {:induction false} ScaledZero(x: real, c: real)
    requires c > 0.0 && x >= 0.0
    ensures x * c == 0.0 <==> x == 0.0
  {
    if x > 0.0 {
      assert x * c > 0.0;
    }
  }

  lemma {:induction false} ScaledOrder(s: seq<real>, c: real, j: nat, i: nat)
    requires c > 0.0 && j < |s| && i < |s| && s[j] < s[i]
    ensures Scale(s, c)[j] < Scale(s, c)[i]
  {
    assert s[i] * c - s[j] * c == (s[i] - s[j]) * c;
  }

  /** The average strategy is a distribution over a non-empty action list with non-negative weights, and uniform while the weights are all 0. */
  lemma {:induction false} AverageStrategyProperties<A>(p: PolicyState<A>)
    requires Valid(p) && |p.actions| > 0
    ensures NonNegative(p.weights) ==> IsDistribution(AverageStrategy(p))
    ensures (forall k :: 0 <= k < |p.weights| ==> p.weights[k] == 0.0) ==> AverageStrategy(p) == Uniform(|p.actions|)
  {
    CP.InstPolicyIsDistribution(p.weights);
    if forall k :: 0 <= k < |p.weights| ==> p.weights[k] == 0.0 {
      SumAllZero(p.weights);
    }
  }

  /** `add_counterfactual(a, value, reach)`: a's regret grows by reach·value; an unknown action changes nothing. */
  function WithCounterfactual<A(==)>(p: PolicyState<A>, a: A, value: real, reach: real): (r: PolicyState<A>)
    requires Valid(p)
    ensures Valid(r) && r == p.(regrets := r.regrets)
    ensures forall i :: 0 <= i < |p.actions| && p.actions[i] == a ==> r.regrets[i] == p.regrets[i] + reach * value
    ensures forall i :: 0 <= i < |p.actions| && p.actions[i] != a ==> r.regrets[i] == p.regrets[i]
  {
    if a in p.actions then
      var i := Position(p.actions, a);
      p.(regrets := p.regrets[i := p.regrets[i] + reach * value])
    else p
  }

  /** `update(iteration)`: the update count becomes the iteration and the current strategy is added to the weights. */
  function Updated<A(==)>(p: PolicyState<A>, iteration: nat): (r: PolicyState<A>)
    requires Valid(p)
    ensures Valid(r) && r == p.(updateCount := iteration, weights := r.weights)
    ensures forall i :: 0 <= i < |p.actions| ==> r.weights[i] == p.weights[i] + CurrentStrategy(p)[i]
  {
    p.(updateCount := iteration, weights := CP.AddEntrywise(p.weights, CurrentStrategy(p)))
  }

  /**
   * An update leaves the current strategy as it was and adds exactly one
   * unit of probability mass to the weights; from zero weights, the average
   * strategy afterwards is the current strategy.
   */
  lemma {:induction false} UpdatedProperties<A>(p: PolicyState<A>, iteration: nat)
    requires Valid(p) && |p.actions| > 0
    ensures CurrentStrategy(Updated(p, iteration)) == CurrentStrategy(p)
    ensures Sum(Updated(p, iteration).weights) == Sum(p.weights) + 1.0
    ensures (forall k :: 0 <= k < |p.weights| ==> p.weights[k] == 0.0) ==>
      AverageStrategy(Updated(p, iteration)) == CurrentStrategy(p)
  {
    var r := Updated(p, iteration);
    var s := CurrentStrategy(p);
    CurrentStrategyProperties(p);
    SumPointwise(p.weights, s, r.weights);
    if forall k :: 0 <= k < |p.weights| ==> p.weights[k] == 0.0 {
      SumAllZero(p.weights);
      assert r.weights == s;
      assert Sum(s) == 1.0;
      var avg := AverageStrategy(r);
      assert avg == Scale(s, 1.0 / 1.0);
    }
  }

  /** `record_exploration(a)` for an action of the policy: its count grows by one. */
  function WithExploration<A(==)>(p: PolicyState<A>, a: A): (r: PolicyState<A>)
    requires Valid(p) && a in p.actions
    ensures Valid(r) && r == p.(explorations := r.explorations)
    ensures forall i :: 0 <= i < |p.actions| ==>
      r.explorations[i] == p.explorations[i] + (if p.actions[i] == a then 1 else 0)
  {
    var i := Position(p.actions, a);
    p.(explorations := p.explorations[i := p.explorations[i] + 1])
  }

  function NatSum(s: seq<nat>): nat
  {
    if |s| == 0 then 0 else NatSum(s[..|s| - 1]) + s[|s| - 1]
  }

  /** The total number of explorations, `exploration_count.values().sum()`. */
  function TotalExplorations<A>(p: PolicyState<A>): nat
  {
    NatSum(p.explorations)
  }

  /** `ln(total).max(1.0)`, given the natural logarithm of the total. */
  function Bonus(lnTotal: real): (b: real)
    ensures b >= 1.0 && b >= lnTotal
  {
    if lnTotal > 1.0 then lnTotal else 1.0
  }

  /** The UCB score of every action: current probability plus bonus / (1 + explorations). */
  function ExplorationScores<A(==)>(p: PolicyState<A>, bonus: real): (sc: seq<real>)
    requires Valid(p)
    ensures |sc| == |p.actions|
  {
    var cur := CurrentStrategy(p);
    seq(|p.actions|, i requires 0 <= i < |p.actions| => cur[i] + bonus / (1.0 + p.explorations[i] as real))
  }

  /**
   * `select_exploration`: the last action of maximal score (Rust's
   * `max_by`). The natural logarithm is the argument `ln`. The source
   * panics on an empty action list.
   */
  function SelectExploration<A(==)>(p: PolicyState<A>, ln: nat -> real): (a: A)
    requires Valid(p) && |p.actions| > 0
  {
    p.actions[LastArgMax(ExplorationScores(p, Bonus(ln(TotalExplorations(p)))))]
  }

  /**
   * The explored action is one of the policy's, of maximal score; when the
   * current strategy gives every action the same probability (a fresh
   * policy, say), it is an action explored least often.
   */
  lemma {:induction false} SelectExplorationProperties<A>(p: PolicyState<A>, ln: nat -> real)
    requires Valid(p) && |p.actions| > 0
    ensures var sc := ExplorationScores(p, Bonus(ln(TotalExplorations(p))));
      exists k :: IsLastArgMax(sc, k) && SelectExploration(p, ln) == p.actions[k] &&
        ((forall i :: 0 <= i < |p.actions| ==> CurrentStrategy(p)[i] == CurrentStrategy(p)[0]) ==>
          forall j :: 0 <= j < |p.actions| ==> p.explorations[k] <= p.explorations[j])
  {
    var b := Bonus(ln(TotalExplorations(p)));
    var sc := ExplorationScores(p, b);
    var k := LastArgMax(sc);
    if forall i :: 0 <= i < |p.actions| ==> CurrentStrategy(p)[i] == CurrentStrategy(p)[0] {
      forall j | 0 <= j < |p.actions|
        ensures p.explorations[k] <= p.explorations[j]
      {
        assert sc[j] <= sc[k];
        BonusOrder(b, 1.0 + p.explorations[k] as real, 1.0 + p.explorations[j] as real);
      }
    }
  }

  /** A larger bonus share goes with a smaller denominator. */
  lemma {:induction false} BonusOrder(b: real, x: real, y: real)
    requires b > 0.0 && x >= 1.0 && y >= 1.0 && b / y <= b / x
    ensures x <= y
  {
    MulMonotone(x * y, b / y, b / x);
    assert b / y * (x * y) == b * x;
    assert b / x * (x * y) == b * y;
    assert b * (y - x) >= 0.0;
  }

  /** `best_action`: the last action of maximal current probability. The source panics on an empty action list. */
  function BestAction<A(==)>(p: PolicyState<A>): (a: A)
    requires Valid(p) && |p.actions| > 0
  {
    p.actions[LastArgMax(CurrentStrategy(p))]
  }

  /** The best action is one of the policy's, and no action has a larger current probability. */
  lemma {:induction false} BestActionMaximizes<A>(p: PolicyState<A>)
    requires Valid(p) && |p.actions| > 0
    ensures BestAction(p) in p.actions
    ensures forall j :: 0 <= j < |p.actions| ==> CurrentStrategy(p)[j] <= StrategyOf(p, BestAction(p))
  {
    var k := LastArgMax(CurrentStrategy(p));
    assert Position(p.actions, p.actions[k]) == k;
  }

  /** `values.get(a).unwrap_or(0.0)` for every action. */
  function Lookups<A>(actions: seq<A>, values: map<A, real>): (v: seq<real>)
    ensures |v| == |actions|
    ensures forall i :: 0 <= i < |actions| ==> v[i] == (if actions[i] in values then values[actions[i]] else 0.0)
  {
    seq(|actions|, i requires 0 <= i < |actions| => if actions[i] in values then values[actions[i]] else 0.0)
  }

  /** `expected_value`: Σ probability·value over the actions, a missing value counting 0. */
  function ExpectedValue<A(==)>(p: PolicyState<A>, values: map<A, real>): real
    requires Valid(p)
  {
    Dot(CurrentStrategy(p), Lookups(p.actions, values))
  }

  /** The expected value lies between any bounds of the actions' values. */
  lemma {:induction false} ExpectedValueBounds<A>(p: PolicyState<A>, values: map<A, real>, lo: real, hi: real)
    requires Valid(p) && |p.actions| > 0
    requires forall i :: 0 <= i < |p.actions| ==> lo <= Lookups(p.actions, values)[i] <= hi
    ensures lo <= ExpectedValue(p, values) <= hi
  {
    CurrentStrategyProperties(p);
    DotBounds(CurrentStrategy(p), Lookups(p.actions, values), lo, hi);
  }

  /**
   * The two regret-matching tests: regrets 10, 5 and -2 give strictly
   * decreasing probabilities, and with regrets -10 and 5 the second action
   * has probability 1 (so more than 0.9).
   */
  lemma {:induction false} RegretMatchingTests()
    ensures var p := PolicyState(P1, [0, 1, 2], [10.0, 5.0, -2.0], [0.0, 0.0, 0.0], 1, [0, 0, 0]);
      Valid(p) && CurrentStrategy(p)[0] > CurrentStrategy(p)[1] > CurrentStrategy(p)[2]
    ensures var q := PolicyState(P1, [0, 1], [-10.0, 5.0], [0.0, 0.0], 0, [0, 0]);
      Valid(q) && CurrentStrategy(q)[1] == 1.0
  {
    var p := PolicyState(P1, [0, 1, 2], [10.0, 5.0, -2.0], [0.0, 0.0, 0.0], 1, [0, 0, 0]);
    CurrentStrategyProperties(p);
    var q := PolicyState(P1, [0, 1], [-10.0, 5.0], [0.0, 0.0], 0, [0, 0]);
    var pos := Positives(q.regrets);
    assert pos == [0.0, 5.0];
    assert Sum(pos) == 5.0 by {
      assert pos[..1] == [0.0];
      assert [0.0][..0] == [];
    }
  }

  /**
   * A policy object updated in place. Its state is the `PolicyState` above;
   * every method is specified by the function it performs on that state.
   */
  class Policy<A(==)> {
    var player: Player
    var actions: seq<A>
    var regrets: seq<real>
    var weights: seq<real>
    var updateCount: nat
    var explorations: seq<nat>

    function State(): PolicyState<A>
      reads this
    {
      PolicyState(player, actions, regrets, weights, updateCount, explorations)
    }

    /** `Policy::new`. */
    constructor (actions: seq<A>, player: Player)
      requires DistinctActions(actions)
      ensures State() == NewPolicy(actions, player)
    {
      var p := NewPolicy(actions, player);
      this.player := player;
      this.actions := actions;
      regrets := p.regrets;
      weights := p.weights;
      updateCount := 0;
      explorations := p.explorations;
    }

    /** `add_counterfactual`: looks the action up and adds reach·value to its regret. */
    method AddCounterfactual(a: A, value: real, reach: real)
      requires Valid(State())
      modifies this
      ensures State() == WithCounterfactual(old(State()), a, value, reach)
    {
      var i := 0;
      while i < |actions| && actions[i] != a
        invariant 0 <= i <= |actions|
        invariant forall j :: 0 <= j < i ==> actions[j] != a
      {
        i := i + 1;
      }
      if i < |actions| {
        assert Position(actions, a) == i;
        regrets := regrets[i := regrets[i] + reach * value];
      }
    }

    /** `update`: the current strategy is added into the weights, entry by entry. */
    method Update(iteration: nat)
      requires Valid(State())
      modifies this
      ensures State() == Updated(old(State()), iteration)
    {
      updateCount := iteration;
      var current := CurrentStrategy(State());
      weights := CP.AddInto(weights, current);
    }

    /** `record_exploration` of one of the policy's actions. */
    method RecordExploration(a: A)
      requires Valid(State()) && a in actions
      modifies this
      ensures State() == WithExploration(old(State()), a)
    {
      var i := Position(actions, a);
      explorations := explorations[i := explorations[i] + 1];
    }
  }

  // ---------------------------------------------------------------------
  // History

  /** The reach probability of each player; an absent player contributes a factor 1. */
  type Reach = map<Player, real>

  function Get(r: Reach, p: Player): real
  {
    if p in r then r[p] else 1.0
  }

  /** A node of the game tree: the game state and reach map in every case, plus the payoff, or the acting player and the children per action. */
  datatype History<S, A> =
    | Terminal(game: S, payoff: real, reach: Reach)
    | Visited(game: S, payoff: real, reach: Reach)
    | Expanded(game: S, player: Player, children: seq<(A, History<S, A>)>, reach: Reach)

  /** `History::new`: Terminal with the payoff exactly when the game is over, else Visited with the evaluation; the reach map is empty. */
  function NewHistory<S, A, T>(g: Game<S, A, T>, s: S): (h: History<S, A>)
    ensures h.Terminal? <==> g.isTerminal(s)
    ensures h.Terminal? || h.Visited?
    ensures h.game == s && h.reach == map[]
    ensures h.payoff == if g.isTerminal(s) then g.payoff(s) else g.evaluate(s)
  {
    if g.isTerminal(s) then Terminal(s, g.payoff(s), map[]) else Visited(s, g.evaluate(s), map[])
  }

  /** A history's trace for a player: its game's trace. */
  function Trace<S, A, T>(g: Game<S, A, T>, h: History<S, A>, p: Player): T
  {
    g.trace(h.game, p)
  }

  /** The product of the reach map's values: the three players' entries, 1 for an absent one. */
  function ReachProduct(r: Reach): real
  {
    Get(r, P1) * Get(r, P2) * Get(r, Chance)
  }

  /** `net_reach_prob`: the product of the reach map's values, floored at 1e-12. */
  function NetReachProb<S, A>(h: History<S, A>): (x: real)
    ensures x >= 1.0 / 1000000000000.0
    ensures x >= ReachProduct(h.reach)
    ensures x == ReachProduct(h.reach) || x == 1.0 / 1000000000000.0
  {
    var prod := ReachProduct(h.reach);
    if prod > 1.0 / 1000000000000.0 then prod else 1.0 / 1000000000000.0
  }

  /** `set_reach_prob`: one entry of the reach map is set; nothing else changes. */
  function SetReachProb<S, A>(h: History<S, A>, p: Player, prob: real): (r: History<S, A>)
    ensures r == h.(reach := r.reach)
    ensures Get(r.reach, p) == prob
    ensures forall q :: q != p ==> (q in r.reach <==> q in h.reach) && Get(r.reach, q) == Get(h.reach, q)
  {
    h.(reach := h.reach[p := prob])
  }

  /** `active_player`: Chance at a Terminal node, the game's player at a Visited node, the stored player at an Expanded node. */
  function ActivePlayer<S, A, T>(g: Game<S, A, T>, h: History<S, A>): (p: Player)
    ensures h.Terminal? ==> p == Chance
    ensures h.Visited? ==> p == g.activePlayer(h.game)
    ensures h.Expanded? ==> p == h.player
  {
    match h
    case Terminal(_, _, _) => Chance
    case Visited(s, _, _) => g.activePlayer(s)
    case Expanded(_, player, _, _) => player
  }

  /** `size`: the number of nodes in the subtree. */
  function Size<S, A>(h: History<S, A>): (n: nat)
    ensures n >= 1
    ensures !h.Expanded? ==> n == 1
    decreases h, 1
  {
    if h.Expanded? then 1 + ChildrenSize(h, 0) else 1
  }

  /** The summed sizes of the children from index `k` on. */
  function ChildrenSize<S, A>(h: History<S, A>, k: nat): (n: nat)
    requires h.Expanded? && k <= |h.children|
    ensures n >= |h.children| - k
    decreases h, 0, |h.children| - k
  {
    if k == |h.children| then 0
    else
      assert h.children[k] in h.children;
      Size(h.children[k].1) + ChildrenSize(h, k + 1)
  }

  /** An Expanded node counts itself and every child subtree, so it is larger than its number of children and than each child. */
  lemma {:induction false} SizeCountsChildren<S, A>(h: History<S, A>, k: nat)
    requires h.Expanded? && k < |h.children|
    ensures Size(h) > |h.children|
    ensures Size(h) > Size(h.children[k].1)
  {
    ChildrenSizeFrom(h, 0, k);
  }

  lemma {:induction false} ChildrenSizeFrom<S, A>(h: History<S, A>, i: nat, k: nat)
    requires h.Expanded? && i <= k < |h.children|
    ensures ChildrenSize(h, i) >= Size(h.children[k].1)
    decreases k - i
  {
    if i < k {
      ChildrenSizeFrom(h, i + 1, k);
    }
  }

  // ---------------------------------------------------------------------
  // Information sets

  /** An information set: its trace, acting player and policy. */
  datatype InfoSet<A, T> = InfoSet(trace: T, player: Player, policy: PolicyState<A>)

  /** The map of information sets, keyed by trace. */
  type InfoSets<A, T> = map<T, InfoSet<A, T>>

  /** `InfoSet::new`: a fresh policy over the actions for the player. */
  function NewInfoSet<A(==), T>(trace: T, actions: seq<A>, player: Player): (i: InfoSet<A, T>)
    requires DistinctActions(actions)
    ensures i.trace == trace && i.player == player && i.policy == NewPolicy(actions, player)
  {
    InfoSet(trace, player, NewPolicy(actions, player))
  }

  /** Every policy in the map is well formed. */
  predicate InfoSetsValid<A(==), T>(inf: InfoSets<A, T>)
  {
    forall t :: t in inf ==> Valid(inf[t].policy)
  }
}
