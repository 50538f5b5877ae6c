// Safe resolving of the copilot generation (copilot/safe_resolving.rs):
// one resolver gadget per opponent information state, in which the
// opponent chooses between entering the subgame and taking an alternative
// value, and the subgame root's max-margin policy over the gadgets.
//
// The groups a root is built from are an association list in the order
// the source's `HashMap` yields them.
module CopilotResolving {
  import opened Players
  import opened Reals
  import opened Seqs
  import opened Sorting
  import opened Wrappers
  import opened CopilotCore
  import SG = Subgame
  import SS = SubgameSolve
  import MS = ModularSolver

  datatype ResolveAction = Enter | Skip

  /**
   * A resolver gadget: the opponent's Enter/Skip policy, the value of
   * skipping, the prior of reaching this opponent information state, the
   * chance policy that samples one of its histories, the histories and the
   * opponent's trace.
   */
  datatype Gadget<S, A, T> = Gadget(
    resolver: PolicyState<ResolveAction>,
    alt: real,
    prior: real,
    sampling: PolicyState<nat>,
    histories: seq<History<S, A>>,
    trace: T)

  /** The resolver decides between Enter and Skip, and the sampling policy ranges over the history indices. */
  predicate GadgetReady<S, A, T>(gd: Gadget<S, A, T>)
  {
    Valid(gd.resolver) && gd.resolver.actions == [Enter, Skip] &&
    Valid(gd.sampling) && gd.sampling.actions == Indices(|gd.histories|)
  }

  /** `ResolverGadget::new`: fresh policies, the Enter/Skip one for the player's opponent (the source panics for Chance). */
  function NewGadget<S, A, T>(histories: seq<History<S, A>>, trace: T, alt: real, prior: real, player: Player): (gd: Gadget<S, A, T>)
    requires player != Chance
    ensures GadgetReady(gd)
    ensures gd.resolver == NewPolicy([Enter, Skip], CopilotOther(player))
    ensures gd.sampling == NewPolicy(Indices(|histories|), Chance)
    ensures gd.histories == histories && gd.trace == trace && gd.alt == alt && gd.prior == prior
  {
    Gadget(NewPolicy([Enter, Skip], CopilotOther(player)), alt, prior, NewPolicy(Indices(|histories|), Chance), histories, trace)
  }

  /** `prob_enter`: the resolver's current probability of Enter. */
  function ProbEnter<S, A, T>(gd: Gadget<S, A, T>): real
    requires GadgetReady(gd)
  {
    StrategyOf(gd.resolver, Enter)
  }

  /** `prob_skip`: the resolver's current probability of Skip. */
  function ProbSkip<S, A, T>(gd: Gadget<S, A, T>): real
    requires GadgetReady(gd)
  {
    StrategyOf(gd.resolver, Skip)
  }

  /**
   * Enter and Skip are probabilities summing to 1; both are 1/2 while no
   * regret is positive (a fresh gadget); Enter is above 1/2 once its regret
   * is positive and larger than Skip's.
   */
  lemma {:induction false} ResolverProbabilities<S, A, T>(gd: Gadget<S, A, T>)
    requires GadgetReady(gd)
    ensures 0.0 <= ProbEnter(gd) <= 1.0 && 0.0 <= ProbSkip(gd) <= 1.0
    ensures ProbEnter(gd) + ProbSkip(gd) == 1.0
    ensures gd.resolver.regrets[0] <= 0.0 && gd.resolver.regrets[1] <= 0.0 ==> ProbEnter(gd) == 0.5 && ProbSkip(gd) == 0.5
    ensures gd.resolver.regrets[0] > 0.0 && gd.resolver.regrets[0] > gd.resolver.regrets[1] ==> ProbEnter(gd) > 0.5
  {
    var r := gd.resolver;
    var s := CurrentStrategy(r);
    assert Position(r.actions, Enter) == 0;
    assert Position(r.actions, Skip) == 1;
    CurrentStrategyProperties(r);
    TwoSum(s);
    EntryAtMostSum(s, 0);
    EntryAtMostSum(s, 1);
    if r.regrets[0] <= 0.0 && r.regrets[1] <= 0.0 {
      assert s == Uniform(2);
    }
  }

  lemma {:induction false} TwoSum(s: seq<real>)
    requires |s| == 2
    ensures Sum(s) == s[0] + s[1]
  {
    assert s[..1][..0] == [];
    assert Sum(s[..1]) == Sum(s[..1][..0]) + s[0];
    assert Sum(s) == Sum(s[..1]) + s[1];
  }

  /** `update_resolver`: Enter gains reach·enter and Skip reach·skip as regret, then the resolver policy is updated; nothing else changes. */
  function UpdateResolver<S, A, T>(gd: Gadget<S, A, T>, enter: real, skip: real, reach: real, iteration: nat): (r: Gadget<S, A, T>)
    requires GadgetReady(gd)
    ensures GadgetReady(r) && r == gd.(resolver := r.resolver)
    ensures r.resolver.regrets == [gd.resolver.regrets[0] + reach * enter, gd.resolver.regrets[1] + reach * skip]
    ensures r.resolver.updateCount == iteration && r.resolver.explorations == gd.resolver.explorations
  {
    var withEnter := WithCounterfactual(gd.resolver, Enter, enter, reach);
    var withBoth := WithCounterfactual(withEnter, Skip, skip, reach);
    gd.(resolver := Updated(withBoth, iteration))
  }

  /**
   * From a fresh gadget, an update in which entering is worth more than
   * skipping and more than 0, at positive reach, makes Enter the more likely
   * choice (the resolver test: regret 10 for Enter gives Enter above 1/2).
   */
  lemma {:induction false} UpdateFavoursBetterChoice<S, A, T>(gd: Gadget<S, A, T>, enter: real, skip: real, reach: real, iteration: nat)
    requires GadgetReady(gd) && gd.resolver.regrets == [0.0, 0.0]
    requires reach > 0.0 && enter > 0.0 && enter > skip
    ensures ProbEnter(UpdateResolver(gd, enter, skip, reach, iteration)) > 0.5
  {
    var r := UpdateResolver(gd, enter, skip, reach, iteration);
    MulStrict(reach, skip, enter);
    MulStrict(reach, 0.0, enter);
    assert r.resolver.regrets[0] == 0.0 + reach * enter && r.resolver.regrets[1] == 0.0 + reach * skip;
    ResolverProbabilities(r);
  }

  // ---------------------------------------------------------------------
  // The subgame root

  /** The root: the gadgets, the max-margin policy over gadget indices, and the player the subgame is solved for. */
  datatype SubgameRoot<S, A, T> = SubgameRoot(
    resolvers: seq<Gadget<S, A, T>>,
    maxmargin: PolicyState<nat>,
    player: Player)

  predicate RootReady<S, A, T>(root: SubgameRoot<S, A, T>)
  {
    (forall i :: 0 <= i < |root.resolvers| ==> GadgetReady(root.resolvers[i])) &&
    Valid(root.maxmargin) && root.maxmargin.actions == Indices(|root.resolvers|)
  }

  /** The groups a root is built from: per opponent trace, the summed reach, the value and the histories. */
  type Positions<S, A, T> = SG.Positions<T, History<S, A>>

  /** The gadgets' priors, in order. */
  function Priors<S, A, T>(gs: seq<Gadget<S, A, T>>): (ps: seq<real>)
    ensures |ps| == |gs| && forall i :: 0 <= i < |gs| ==> ps[i] == gs[i].prior
  {
    seq(|gs|, i requires 0 <= i < |gs| => gs[i].prior)
  }

  /**
   * `SubgameRoot::new`: one gadget per group, with the group's histories,
   * trace, value (as the alternative) and probability (as the prior), and a
   * max-margin policy over the gadget indices whose strategy weights are the
   * priors.
   */
  function NewRoot<S, A, T>(positions: Positions<S, A, T>, player: Player): (root: SubgameRoot<S, A, T>)
    requires player != Chance
    ensures RootReady(root) && root.player == player && |root.resolvers| == |positions|
    ensures forall i :: 0 <= i < |positions| ==>
      root.resolvers[i] == NewGadget(positions[i].1.histories, positions[i].0, positions[i].1.alt, positions[i].1.prob, player)
    ensures root.maxmargin == NewPolicy(Indices(|positions|), player).(weights := Priors(root.resolvers))
  {
    var gs := seq(|positions|, i requires 0 <= i < |positions| =>
      NewGadget(positions[i].1.histories, positions[i].0, positions[i].1.alt, positions[i].1.prob, player));
    SubgameRoot(gs, NewPolicy(Indices(|positions|), player).(weights := Priors(gs)), player)
  }

  /** Seeding the weights with the priors makes the root's average strategy the priors, normalised; exactly the priors when they already sum to 1. */
  lemma {:induction false} NewRootAverageIsPrior<S, A, T>(positions: Positions<S, A, T>, player: Player)
    requires player != Chance
    requires Sum(Priors(NewRoot(positions, player).resolvers)) > 0.0
    ensures var root := NewRoot(positions, player);
      var total := Sum(Priors(root.resolvers));
      forall i :: 0 <= i < |positions| ==> AverageStrategy(root.maxmargin)[i] == positions[i].1.prob * (1.0 / total)
    ensures var root := NewRoot(positions, player);
      Sum(Priors(root.resolvers)) == 1.0 ==> AverageStrategy(root.maxmargin) == Priors(root.resolvers)
  {
  }

  /** The gadgets' Enter probabilities, in order. */
  function EnterProbs<S, A, T>(gs: seq<Gadget<S, A, T>>): (ps: seq<real>)
    requires forall i :: 0 <= i < |gs| ==> GadgetReady(gs[i])
    ensures |ps| == |gs| && forall i :: 0 <= i < |gs| ==> ps[i] == ProbEnter(gs[i])
  {
    seq(|gs|, i requires 0 <= i < |gs| => ProbEnter(gs[i]))
  }

  /** `max_enter_prob`: the Enter probabilities folded with max from 0. */
  function MaxEnterProb<S, A, T>(root: SubgameRoot<S, A, T>): real
    requires RootReady(root)
  {
    MaxFrom(0.0, EnterProbs(root.resolvers))
  }

  /** The maximum Enter probability bounds every gadget's, is one of them or 0 without gadgets, and is a probability. */
  lemma {:induction false} MaxEnterProbProperties<S, A, T>(root: SubgameRoot<S, A, T>)
    requires RootReady(root)
    ensures 0.0 <= MaxEnterProb(root) <= 1.0
    ensures forall i :: 0 <= i < |root.resolvers| ==> ProbEnter(root.resolvers[i]) <= MaxEnterProb(root)
    ensures MaxEnterProb(root) == 0.0 || exists i :: 0 <= i < |root.resolvers| && MaxEnterProb(root) == ProbEnter(root.resolvers[i])
    ensures |root.resolvers| == 0 ==> MaxEnterProb(root) == 0.0
  {
    var ps := EnterProbs(root.resolvers);
    var m := MaxFrom(0.0, ps);
    MaxFromBounds(0.0, ps);
    forall i | 0 <= i < |root.resolvers|
      ensures ProbEnter(root.resolvers[i]) <= m && ProbEnter(root.resolvers[i]) <= 1.0
    {
      assert ps[i] == ProbEnter(root.resolvers[i]);
      ResolverProbabilities(root.resolvers[i]);
    }
    if m != 0.0 {
      var i :| 0 <= i < |ps| && m == ps[i];
      assert m == ProbEnter(root.resolvers[i]);
    }
  }

  /**
   * `sample_history`: the gadget the max-margin policy explores, and the
   * history its sampling policy explores; None without gadgets or when the
   * chosen gadget has no histories. `ln` is the natural logarithm.
   */
  function SampleHistory<S, A, T>(root: SubgameRoot<S, A, T>, ln: nat -> real): (r: Option<(nat, nat)>)
    requires RootReady(root)
    ensures r.Some? ==> r.value.0 < |root.resolvers| && r.value.1 < |root.resolvers[r.value.0].histories|
    ensures r.Some? ==> r.value.0 == SelectExploration(root.maxmargin, ln)
    ensures r.None? <==> |root.resolvers| == 0 || |root.resolvers[SelectExploration(root.maxmargin, ln)].histories| == 0
  {
    if |root.resolvers| == 0 then None
    else
      var i := SelectExploration(root.maxmargin, ln);
      SelectedIndex(root.maxmargin, ln);
      if |root.resolvers[i].histories| == 0 then None
      else
        var gd := root.resolvers[i];
        SelectedIndex(gd.sampling, ln);
        Some((i, SelectExploration(gd.sampling, ln)))
  }

  /** A policy over the indices 0..n explores one of them. */
  lemma {:induction false} SelectedIndex(p: PolicyState<nat>, ln: nat -> real)
    requires Valid(p) && |p.actions| > 0 && p.actions == Indices(|p.actions|)
    ensures SelectExploration(p, ln) < |p.actions|
  {
    SelectExplorationProperties(p, ln);
  }

  function HistorySizes<S, A>(hs: seq<History<S, A>>): (ns: seq<nat>)
    ensures |ns| == |hs| && forall i :: 0 <= i < |hs| ==> ns[i] == Size(hs[i])
  {
    seq(|hs|, i requires 0 <= i < |hs| => Size(hs[i]))
  }

  /** `total_histories`: the number of histories over all gadgets. */
  function TotalHistories<S, A, T>(root: SubgameRoot<S, A, T>): nat
  {
    NatSum(seq(|root.resolvers|, i requires 0 <= i < |root.resolvers| => |root.resolvers[i].histories|))
  }

  /** `tree_size`: the number of tree nodes over all gadgets' histories. */
  function TreeSize<S, A, T>(root: SubgameRoot<S, A, T>): nat
  {
    NatSum(seq(|root.resolvers|, i requires 0 <= i < |root.resolvers| => NatSum(HistorySizes(root.resolvers[i].histories))))
  }

  /** Every history is at least one node, so the tree is at least as large as the number of histories. */
  lemma {:induction false} TreeSizeAtLeastHistories<S, A, T>(root: SubgameRoot<S, A, T>)
    ensures TreeSize(root) >= TotalHistories(root)
  {
    var counts := seq(|root.resolvers|, i requires 0 <= i < |root.resolvers| => |root.resolvers[i].histories|);
    var sizes := seq(|root.resolvers|, i requires 0 <= i < |root.resolvers| => NatSum(HistorySizes(root.resolvers[i].histories)));
    forall i | 0 <= i < |root.resolvers|
      ensures counts[i] <= sizes[i]
    {
      var hs := root.resolvers[i].histories;
      NatSumAtLeastLength(HistorySizes(hs));
    }
    NatSumMonotone(counts, sizes);
  }

  lemma {:induction false} NatSumAtLeastLength(s: seq<nat>)
    requires forall i :: 0 <= i < |s| ==> s[i] >= 1
    ensures NatSum(s) >= |s|
  {
    if |s| > 0 {
      NatSumAtLeastLength(s[..|s| - 1]);
    }
  }

  lemma {:induction false} NatSumMonotone(a: seq<nat>, b: seq<nat>)
    requires |a| == |b| && forall i :: 0 <= i < |a| ==> a[i] <= b[i]
    ensures NatSum(a) <= NatSum(b)
  {
    if |a| > 0 {
      NatSumMonotone(a[..|a| - 1], b[..|b| - 1]);
    }
  }

  // ---------------------------------------------------------------------
  // compute_safe_strategy

  /**
   * Gadget idx's reach blend: p_max times its prior times its Enter
   * probability, plus (1 - p_max) times the index's current max-margin
   * probability; a probability when the priors and p_max are.
   */
  function GadgetReach<S, A, T>(root: SubgameRoot<S, A, T>, pmax: real, mm: PolicyState<nat>, idx: nat): (reach: real)
    requires RootReady(root) && Valid(mm) && idx < |root.resolvers|
    ensures PriorsInUnit(root) && 0.0 <= pmax <= 1.0 ==> 0.0 <= reach <= 1.0
  {
    var gd := root.resolvers[idx];
    var reach := MS.ReachBlend(pmax, gd.prior, ProbEnter(gd), StrategyOf(mm, idx));
    if PriorsInUnit(root) && 0.0 <= pmax <= 1.0 then
      ResolverProbabilities(gd);
      MS.ReachBlendInUnit(pmax, gd.prior, ProbEnter(gd), StrategyOf(mm, idx));
      reach
    else reach
  }

  /**
   * The max-margin policy after the loop of `compute_safe_strategy` from
   * gadget `idx` on: each gadget's index gains as regret its reach blend,
   * with the max-margin probability read from the policy as updated by the
   * earlier gadgets.
   */
  function SafeFrom<S, A, T>(root: SubgameRoot<S, A, T>, pmax: real, mm: PolicyState<nat>, idx: nat): (r: PolicyState<nat>)
    requires RootReady(root) && Valid(mm) && mm.actions == root.maxmargin.actions && idx <= |root.resolvers|
    ensures Valid(r) && r == mm.(regrets := r.regrets)
    ensures forall k :: 0 <= k < idx ==> r.regrets[k] == mm.regrets[k]
    decreases |root.resolvers| - idx
  {
    if idx == |root.resolvers| then mm
    else
      var reach := GadgetReach(root, pmax, mm, idx);
      assert forall k :: 0 <= k < idx ==> mm.actions[k] == k;
      SafeFrom(root, pmax, WithCounterfactual(mm, idx, reach, 1.0), idx + 1)
  }

  /** `compute_safe_strategy` on the root: the loop from the first gadget with p_max the maximum Enter probability, then an update. */
  function SafeStrategy<S, A, T>(root: SubgameRoot<S, A, T>, iteration: nat): (r: SubgameRoot<S, A, T>)
    requires RootReady(root)
    ensures RootReady(r) && r == root.(maxmargin := r.maxmargin)
  {
    root.(maxmargin := Updated(SafeFrom(root, MaxEnterProb(root), root.maxmargin, 0), iteration))
  }

  /**
   * `compute_safe_strategy`: feeds each gadget's reach blend into the
   * max-margin policy, updates it, and returns an empty strategy map.
   */
  method ComputeSafeStrategy<S, A, T, P>(root: SubgameRoot<S, A, T>, iteration: nat) returns (root': SubgameRoot<S, A, T>, strategies: map<T, P>)
    requires RootReady(root)
    ensures root' == SafeStrategy(root, iteration) && strategies == map[]
  {
    var pmax := MaxEnterProb(root);
    var mm := root.maxmargin;
    for idx := 0 to |root.resolvers|
      invariant Valid(mm) && mm.actions == root.maxmargin.actions
      invariant SafeFrom(root, pmax, mm, idx) == SafeFrom(root, pmax, root.maxmargin, 0)
    {
      mm := WithCounterfactual(mm, idx, GadgetReach(root, pmax, mm, idx), 1.0);
    }
    mm := Updated(mm, iteration);
    root' := root.(maxmargin := mm);
    strategies := map[];
  }

  /** The priors are probabilities. */
  predicate PriorsInUnit<S, A, T>(root: SubgameRoot<S, A, T>)
  {
    forall i :: 0 <= i < |root.resolvers| ==> 0.0 <= root.resolvers[i].prior <= 1.0
  }

  /**
   * With probabilities as priors, the loop raises each gadget's max-margin
   * regret by a reach blend, which lies in [0, 1]; the gadgets themselves
   * and every other part of the policy are unchanged, and the update count
   * becomes the iteration.
   */
  lemma {:induction false} SafeStrategyProperties<S, A, T>(root: SubgameRoot<S, A, T>, iteration: nat)
    requires RootReady(root) && PriorsInUnit(root)
    ensures var r := SafeStrategy(root, iteration);
      r.resolvers == root.resolvers && r.maxmargin.updateCount == iteration &&
      r.maxmargin.explorations == root.maxmargin.explorations &&
      forall k :: 0 <= k < |root.resolvers| ==>
        root.maxmargin.regrets[k] <= r.maxmargin.regrets[k] <= root.maxmargin.regrets[k] + 1.0
  {
    MaxEnterProbProperties(root);
    forall k | 0 <= k < |root.resolvers|
      ensures root.maxmargin.regrets[k] <= SafeStrategy(root, iteration).maxmargin.regrets[k] <= root.maxmargin.regrets[k] + 1.0
    {
      SafeFromGrowth(root, MaxEnterProb(root), root.maxmargin, 0, k);
    }
  }

  /** The loop from idx on raises each regret from idx on by between 0 and 1. */
  lemma {:induction false} SafeFromGrowth<S, A, T>(root: SubgameRoot<S, A, T>, pmax: real, mm: PolicyState<nat>, idx: nat, k: nat)
    requires RootReady(root) && PriorsInUnit(root) && 0.0 <= pmax <= 1.0
    requires Valid(mm) && mm.actions == root.maxmargin.actions && idx <= k < |root.resolvers|
    ensures mm.regrets[k] <= SafeFrom(root, pmax, mm, idx).regrets[k] <= mm.regrets[k] + 1.0
    decreases |root.resolvers| - idx
  {
    var reach := GadgetReach(root, pmax, mm, idx);
    RegretStep(mm, idx, reach);
    var next := WithCounterfactual(mm, idx, reach, 1.0);
    if k != idx {
      SafeFromGrowth(root, pmax, next, idx + 1, k);
    }
  }

  /** Adding a value in [0, 1] at full reach to index idx raises that regret by at most 1 and leaves the others. */
  lemma {:induction false} RegretStep(mm: PolicyState<nat>, idx: nat, reach: real)
    requires Valid(mm) && mm.actions == Indices(|mm.actions|) && idx < |mm.actions| && 0.0 <= reach <= 1.0
    ensures var r := WithCounterfactual(mm, idx, reach, 1.0);
      mm.regrets[idx] <= r.regrets[idx] <= mm.regrets[idx] + 1.0 &&
      forall k :: 0 <= k < |mm.actions| && k != idx ==> r.regrets[k] == mm.regrets[k]
  {
  }

  // ---------------------------------------------------------------------
  // initialize_resolver_values

  /** A history's value: the payoff of a Terminal or Visited node, the evaluation of an Expanded node's game. */
  function HistoryValue<S, A, T>(g: CopilotCore.Game<S, A, T>, h: History<S, A>): real
  {
    match h
    case Terminal(_, payoff, _) => payoff
    case Visited(_, payoff, _) => payoff
    case Expanded(s, _, _, _) => g.evaluate(s)
  }

  function HistoryValues<S, A, T>(g: CopilotCore.Game<S, A, T>, hs: seq<History<S, A>>): (vs: seq<real>)
    ensures |vs| == |hs| && forall i :: 0 <= i < |hs| ==> vs[i] == HistoryValue(g, hs[i])
  {
    seq(|hs|, i requires 0 <= i < |hs| => HistoryValue(g, hs[i]))
  }

  /** `initialize_resolver_values`: the player's worst value (an infinity, 0 for Chance) without histories, else their mean value. */
  function InitializeResolverValues<S, A, T>(g: CopilotCore.Game<S, A, T>, hs: seq<History<S, A>>, player: Player): (v: Extended)
    ensures |hs| == 0 ==> v == CopilotWorstValue(player)
    ensures |hs| > 0 ==> v.Finite?
  {
    if |hs| == 0 then CopilotWorstValue(player) else Finite(Mean(HistoryValues(g, hs)))
  }

  /** With histories, the initial value lies between any bounds of their values. */
  lemma {:induction false} InitialValueBetween<S, A, T>(g: CopilotCore.Game<S, A, T>, hs: seq<History<S, A>>, player: Player, lo: real, hi: real)
    requires |hs| > 0 && forall i :: 0 <= i < |hs| ==> lo <= HistoryValue(g, hs[i]) <= hi
    ensures lo <= InitializeResolverValues(g, hs, player).x <= hi
  {
    MeanBounds(HistoryValues(g, hs), lo, hi);
  }
}
