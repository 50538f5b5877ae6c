// CFR+ over the copilot game tree (copilot/cfr_plus.rs): the recursive
// counterfactual-value pass that stores reach maps in the tree and regrets
// in the information sets, the iteration over the resolver gadgets, and
// the whole-map passes over the information sets.
//
// The source shares each information set through `Rc<RefCell<..>>`; here
// the map of information sets is a value threaded through the traversal,
// and the node's own policy is carried beside it while its children are
// visited.
module CopilotCfr {
  import opened Players
  import opened Reals
  import opened Seqs
  import opened CopilotCore
  import opened CopilotResolving
  import opened Sorting
  import MS = ModularSolver

  /** Every game state offers each legal action once (the policies key their maps by action). */
  ghost predicate DistinctLegal<S(!new), A, T>(g: CopilotCore.Game<S, A, T>)
  {
    forall s :: DistinctActions(g.legalActions(s))
  }

  /** The map with the information set for the trace present: the existing one, or a fresh one over the state's legal actions. */
  function InfoSetFor<S(!new), A(==), T>(g: CopilotCore.Game<S, A, T>, s: S, player: Player, inf: InfoSets<A, T>): (r: InfoSets<A, T>)
    requires DistinctLegal(g) && InfoSetsValid(inf)
    ensures InfoSetsValid(r) && g.trace(s, player) in r
    ensures g.trace(s, player) in inf ==> r == inf
    ensures g.trace(s, player) !in inf ==>
      r == inf[g.trace(s, player) := NewInfoSet(g.trace(s, player), g.legalActions(s), player)]
  {
    var t := g.trace(s, player);
    if t in inf then inf else inf[t := NewInfoSet(t, g.legalActions(s), player)]
  }

  /** The product of the reach entries of every player except the actor, an absent entry counting 1. */
  function NetReach(reach: Reach, actor: Player): real
  {
    (if actor != P1 then Get(reach, P1) else 1.0) *
    (if actor != P2 then Get(reach, P2) else 1.0) *
    (if actor != Chance then Get(reach, Chance) else 1.0)
  }

  /** The net reach leaves out exactly the actor's own entry: times that entry it is the whole reach product, and the entry itself does not change it. */
  lemma {:induction false} NetReachExcludesActor(reach: Reach, actor: Player, x: real)
    ensures NetReach(reach, actor) * Get(reach, actor) == ReachProduct(reach)
    ensures NetReach(reach[actor := x], actor) == NetReach(reach, actor)
  {
    var r' := reach[actor := x];
    assert forall q :: q != actor ==> Get(r', q) == Get(reach, q);
  }

  /** The reach map for a child: the actor's entry multiplied by the action probability, or set to it when absent. */
  function ChildReach(reach: Reach, actor: Player, p: real): (r: Reach)
    ensures Get(r, actor) == Get(reach, actor) * p && actor in r
    ensures forall q :: q != actor ==> (q in r <==> q in reach) && Get(r, q) == Get(reach, q)
  {
    if actor in reach then reach[actor := reach[actor] * p] else reach[actor := p]
  }

  /** The result of the pass over one subtree: its value, the subtree with its reach maps stored, and the information sets. */
  datatype Walk<S, A, T> = Walk(value: real, history: History<S, A>, infoSets: InfoSets<A, T>)

  /** The state of the loop over an Expanded node's children: the expected value so far, the children, the node's policy and the information sets. */
  datatype Loop<S, A, T> = Loop(acc: real, children: seq<(A, History<S, A>)>, policy: PolicyState<A>, infoSets: InfoSets<A, T>)

  /**
   * `compute_cfr_values`. A Terminal node gives its payoff and changes
   * nothing; a Visited node stores the incoming reach and gives its
   * heuristic payoff. An Expanded node stores the incoming reach, finds or
   * creates its information set, and visits its children with the
   * strategy the policy had on entry; afterwards its policy is updated.
   */
  function CfrValues<S(!new), A(==), T>(g: CopilotCore.Game<S, A, T>, h: History<S, A>, opt: Player, reach: Reach, inf: InfoSets<A, T>, iteration: nat): (w: Walk<S, A, T>)
    requires DistinctLegal(g) && InfoSetsValid(inf)
    ensures InfoSetsValid(w.infoSets) && inf.Keys <= w.infoSets.Keys
    ensures h.Terminal? ==> w == Walk(h.payoff, h, inf)
    ensures h.Visited? ==> w == Walk(h.payoff, Visited(h.game, h.payoff, reach), inf)
    ensures h.Expanded? ==>
      w.history.Expanded? && w.history.game == h.game && w.history.player == h.player &&
      w.history.reach == reach && |w.history.children| == |h.children|
    ensures h.Expanded? ==>
      g.trace(h.game, h.player) in w.infoSets && w.infoSets[g.trace(h.game, h.player)].policy.updateCount == iteration
    decreases h, 1
  {
    match h
    case Terminal(_, payoff, _) => Walk(payoff, h, inf)
    case Visited(s, payoff, _) => Walk(payoff, Visited(s, payoff, reach), inf)
    case Expanded(s, player, children, _) =>
      var t := g.trace(s, player);
      var inf1 := InfoSetFor(g, s, player, inf);
      var entry := inf1[t].policy;
      var l := ChildrenFrom(g, h, 0, opt, reach, iteration, entry, NetReach(reach, player), Loop(0.0, children, entry, inf1));
      Walk(l.acc, Expanded(s, player, l.children, reach), l.infoSets[t := inf1[t].(policy := Updated(l.policy, iteration))])
  }

  /** The loop over an Expanded node's children from child k on: one step per child. */
  function ChildrenFrom<S(!new), A(==), T>(g: CopilotCore.Game<S, A, T>, h: History<S, A>, k: nat, opt: Player, reach: Reach, iteration: nat,
                                     entry: PolicyState<A>, net: real, st: Loop<S, A, T>): (l: Loop<S, A, T>)
    requires DistinctLegal(g) && h.Expanded? && k <= |h.children|
    requires Valid(entry) && Valid(st.policy) && st.policy.actions == entry.actions
    requires InfoSetsValid(st.infoSets) && |st.children| == |h.children|
    ensures Valid(l.policy) && l.policy.actions == entry.actions && l.policy.player == st.policy.player
    ensures InfoSetsValid(l.infoSets) && st.infoSets.Keys <= l.infoSets.Keys && |l.children| == |h.children|
    ensures forall i :: 0 <= i < k ==> l.children[i] == st.children[i]
    decreases h, 0, |h.children| - k, 1
  {
    if k == |h.children| then st
    else ChildrenFrom(g, h, k + 1, opt, reach, iteration, entry, net, VisitChild(g, h, k, opt, reach, iteration, entry, net, st))
  }

  /**
   * The loop body for child k. The child is visited when the node's player
   * is the optimizing player or the action's entry probability is
   * positive; its reach multiplies the actor's entry by that probability,
   * its value weighted by the probability joins the expected value, and at
   * the optimizing player's nodes the action's regret grows by net reach
   * times that value. A child not visited is left as it is.
   */
  function VisitChild<S(!new), A(==), T>(g: CopilotCore.Game<S, A, T>, h: History<S, A>, k: nat, opt: Player, reach: Reach, iteration: nat,
                                     entry: PolicyState<A>, net: real, st: Loop<S, A, T>): (l: Loop<S, A, T>)
    requires DistinctLegal(g) && h.Expanded? && k < |h.children|
    requires Valid(entry) && Valid(st.policy) && st.policy.actions == entry.actions
    requires InfoSetsValid(st.infoSets) && |st.children| == |h.children|
    ensures Valid(l.policy) && l.policy.actions == entry.actions && l.policy.player == st.policy.player
    ensures InfoSetsValid(l.infoSets) && st.infoSets.Keys <= l.infoSets.Keys
    ensures |l.children| == |h.children| && forall i :: 0 <= i < |h.children| && i != k ==> l.children[i] == st.children[i]
    decreases h, 0, |h.children| - k, 0
  {
    var a := h.children[k].0;
    var p := StrategyOf(entry, a);
    if h.player == opt || p > 0.0 then
      assert h.children[k] in h.children;
      var w := CfrValues(g, h.children[k].1, opt, ChildReach(reach, h.player, p), st.infoSets, iteration);
      var policy := if h.player == opt then WithCounterfactual(st.policy, a, w.value, net) else st.policy;
      Loop(st.acc + Weighted(p, w.value), st.children[k := (a, w.history)], policy, w.infoSets)
    else st
  }

  /** A visited child in the loop: the child's pass, weighted by its probability p, is added to the expected value. */
  lemma {:induction false} VisitChildVisited<S(!new), A, T>(g: CopilotCore.Game<S, A, T>, h: History<S, A>, k: nat, opt: Player, reach: Reach, iteration: nat,
                                     entry: PolicyState<A>, net: real, st: Loop<S, A, T>, p: real, w: Walk<S, A, T>)
    requires DistinctLegal(g) && h.Expanded? && k < |h.children|
    requires Valid(entry) && Valid(st.policy) && st.policy.actions == entry.actions
    requires InfoSetsValid(st.infoSets) && |st.children| == |h.children|
    requires p == StrategyOf(entry, h.children[k].0) && (h.player == opt || p > 0.0)
    requires w == CfrValues(g, h.children[k].1, opt, ChildReach(reach, h.player, p), st.infoSets, iteration)
    ensures VisitChild(g, h, k, opt, reach, iteration, entry, net, st) ==
      Loop(st.acc + Weighted(p, w.value), st.children[k := (h.children[k].0, w.history)],
           if h.player == opt then WithCounterfactual(st.policy, h.children[k].0, w.value, net) else st.policy, w.infoSets)
  {
  }

  /** `compute_cfr_values`, the recursive traversal, performing `CfrValues`. */
  method ComputeCfrValues<S(!new), A(==), T>(g: CopilotCore.Game<S, A, T>, h: History<S, A>, opt: Player, reach: Reach, inf: InfoSets<A, T>, iteration: nat)
    returns (value: real, h': History<S, A>, inf': InfoSets<A, T>)
    requires DistinctLegal(g) && InfoSetsValid(inf)
    ensures Walk(value, h', inf') == CfrValues(g, h, opt, reach, inf, iteration)
    decreases h, 3
  {
    match h
    case Terminal(_, payoff, _) =>
      return payoff, h, inf;
    case Visited(s, payoff, _) =>
      return payoff, Visited(s, payoff, reach), inf;
    case Expanded(_, _, _, _) =>
      value, h', inf' := ExpandedCfrValues(g, h, opt, reach, inf, iteration);
  }

  /** The Expanded case of `compute_cfr_values`: the loop over the children, then the policy update. */
  method ExpandedCfrValues<S(!new), A(==), T>(g: CopilotCore.Game<S, A, T>, h: History<S, A>, opt: Player, reach: Reach, inf: InfoSets<A, T>, iteration: nat)
    returns (value: real, h': History<S, A>, inf': InfoSets<A, T>)
    requires DistinctLegal(g) && InfoSetsValid(inf) && h.Expanded?
    ensures Walk(value, h', inf') == CfrValues(g, h, opt, reach, inf, iteration)
    decreases h, 2
  {
    var s, player := h.game, h.player;
    var t := g.trace(s, player);
    inf' := inf;
    if t !in inf' {
      inf' := inf'[t := NewInfoSet(t, g.legalActions(s), player)];
    }
    assert inf' == InfoSetFor(g, s, player, inf);
    var info := inf'[t];
    var entry := info.policy;
    var net := NetReach(reach, player);
    var st := ChildrenLoop(g, h, opt, reach, iteration, entry, net, Loop(0.0, h.children, entry, inf'));
    value := st.acc;
    h' := Expanded(s, player, st.children, reach);
    inf' := st.infoSets[t := info.(policy := Updated(st.policy, iteration))];
  }

  /** The loop over an Expanded node's children, performing `ChildrenFrom` from the first child. */
  method ChildrenLoop<S(!new), A(==), T>(g: CopilotCore.Game<S, A, T>, h: History<S, A>, opt: Player, reach: Reach, iteration: nat,
                                         entry: PolicyState<A>, net: real, start: Loop<S, A, T>) returns (st: Loop<S, A, T>)
    requires DistinctLegal(g) && h.Expanded?
    requires Valid(entry) && Valid(start.policy) && start.policy.actions == entry.actions
    requires InfoSetsValid(start.infoSets) && |start.children| == |h.children|
    ensures st == ChildrenFrom(g, h, 0, opt, reach, iteration, entry, net, start)
    decreases h, 1
  {
    st := start;
    for k := 0 to |h.children|
      invariant Valid(st.policy) && st.policy.actions == entry.actions
      invariant InfoSetsValid(st.infoSets) && |st.children| == |h.children|
      invariant ChildrenFrom(g, h, k, opt, reach, iteration, entry, net, st) == ChildrenFrom(g, h, 0, opt, reach, iteration, entry, net, start)
    {
      st := ChildStep(g, h, k, opt, reach, iteration, entry, net, st);
    }
  }

  /** One pass of the loop over the children, performing `VisitChild`. */
  method ChildStep<S(!new), A(==), T>(g: CopilotCore.Game<S, A, T>, h: History<S, A>, k: nat, opt: Player, reach: Reach, iteration: nat,
                                     entry: PolicyState<A>, net: real, st: Loop<S, A, T>) returns (l: Loop<S, A, T>)
    requires DistinctLegal(g) && h.Expanded? && k < |h.children|
    requires Valid(entry) && Valid(st.policy) && st.policy.actions == entry.actions
    requires InfoSetsValid(st.infoSets) && |st.children| == |h.children|
    ensures l == VisitChild(g, h, k, opt, reach, iteration, entry, net, st)
    decreases h, 0
  {
    var a := h.children[k].0;
    var p := StrategyOf(entry, a);
    if h.player == opt || p > 0.0 {
      assert h.children[k] in h.children;
      var v, child, inf2 := ComputeCfrValues(g, h.children[k].1, opt, ChildReach(reach, h.player, p), st.infoSets, iteration);
      var w := Walk(v, child, inf2);
      VisitChildVisited(g, h, k, opt, reach, iteration, entry, net, st, p, w);
      var policy := st.policy;
      if h.player == opt {
        policy := WithCounterfactual(policy, a, v, net);
      }
      l := Loop(st.acc + Weighted(p, w.value), st.children[k := (a, child)], policy, inf2);
    } else {
      l := st;
    }
  }

  // ---------------------------------------------------------------------
  // What the pass changes

  /** The tree with every reach map emptied: its games, payoffs, players and actions. */
  function Strip<S, A>(h: History<S, A>): (r: History<S, A>)
    ensures r.game == h.game && r.reach == map[]
    decreases h
  {
    match h
    case Terminal(s, payoff, _) => Terminal(s, payoff, map[])
    case Visited(s, payoff, _) => Visited(s, payoff, map[])
    case Expanded(s, player, children, _) =>
      Expanded(s, player, seq(|children|, i requires 0 <= i < |children| =>
        var c := children[i]; assert c in children; (c.0, Strip(c.1))), map[])
  }

  /** Two child lists that agree on actions and, up to reach maps, on subtrees. */
  ghost predicate SameChildren<S, A>(xs: seq<(A, History<S, A>)>, ys: seq<(A, History<S, A>)>)
  {
    |xs| == |ys| && forall i :: 0 <= i < |xs| ==> xs[i].0 == ys[i].0 && Strip(xs[i].1) == Strip(ys[i].1)
  }

  lemma {:induction false} SameChildrenStrip<S, A>(h: History<S, A>, children: seq<(A, History<S, A>)>)
    requires h.Expanded? && SameChildren(h.children, children)
    ensures Strip(h.(children := children)) == Strip(h)
  {
    var a := Strip(h.(children := children));
    var b := Strip(h);
    assert a.children == b.children;
  }

  lemma {:induction false} SameChildrenUpdate<S, A>(xs: seq<(A, History<S, A>)>, ys: seq<(A, History<S, A>)>, k: nat, c: History<S, A>)
    requires SameChildren(xs, ys) && k < |xs| && Strip(c) == Strip(xs[k].1)
    ensures SameChildren(xs, ys[k := (xs[k].0, c)])
  {
  }

  /** The pass changes nothing in the tree but reach maps: games, payoffs, players, actions and the shape stay. */
  lemma {:induction false} CfrKeepsTree<S(!new), A, T>(g: CopilotCore.Game<S, A, T>, h: History<S, A>, opt: Player, reach: Reach, inf: InfoSets<A, T>, iteration: nat)
    requires DistinctLegal(g) && InfoSetsValid(inf)
    ensures Strip(CfrValues(g, h, opt, reach, inf, iteration).history) == Strip(h)
    decreases h, 1
  {
    if h.Expanded? {
      var t := g.trace(h.game, h.player);
      var inf1 := InfoSetFor(g, h.game, h.player, inf);
      var entry := inf1[t].policy;
      var start := Loop(0.0, h.children, entry, inf1);
      var l := ChildrenFrom(g, h, 0, opt, reach, iteration, entry, NetReach(reach, h.player), start);
      ChildrenKeepTree(g, h, 0, opt, reach, iteration, entry, NetReach(reach, h.player), start);
      var e := Expanded(h.game, h.player, h.children, reach);
      SameChildrenStrip(e, l.children);
      assert Strip(e) == Strip(h);
    }
  }

  lemma {:induction false} ChildrenKeepTree<S(!new), A, T>(g: CopilotCore.Game<S, A, T>, h: History<S, A>, k: nat, opt: Player, reach: Reach, iteration: nat,
                                     entry: PolicyState<A>, net: real, st: Loop<S, A, T>)
    requires DistinctLegal(g) && h.Expanded? && k <= |h.children|
    requires Valid(entry) && Valid(st.policy) && st.policy.actions == entry.actions
    requires InfoSetsValid(st.infoSets) && SameChildren(h.children, st.children)
    ensures SameChildren(h.children, ChildrenFrom(g, h, k, opt, reach, iteration, entry, net, st).children)
    decreases h, 0, |h.children| - k
  {
    if k < |h.children| {
      var next := VisitChild(g, h, k, opt, reach, iteration, entry, net, st);
      var p := StrategyOf(entry, h.children[k].0);
      if h.player == opt || p > 0.0 {
        assert h.children[k] in h.children;
        var w := CfrValues(g, h.children[k].1, opt, ChildReach(reach, h.player, p), st.infoSets, iteration);
        CfrKeepsTree(g, h.children[k].1, opt, ChildReach(reach, h.player, p), st.infoSets, iteration);
        VisitChildVisited(g, h, k, opt, reach, iteration, entry, net, st, p, w);
        SameChildrenUpdate(h.children, st.children, k, w.history);
      }
      ChildrenKeepTree(g, h, k + 1, opt, reach, iteration, entry, net, next);
    }
  }

  /** Every player. */
  const AllPlayers: set<Player> := {P1, P2, Chance}

  /** The traces of the subtree's Expanded nodes whose player is in `who`. */
  function NodeTraces<S, A, T>(g: CopilotCore.Game<S, A, T>, h: History<S, A>, who: set<Player>): set<T>
    decreases h, 1
  {
    if h.Expanded? then
      (if h.player in who then {g.trace(h.game, h.player)} else {}) + ChildrenTraces(g, h, 0, who)
    else {}
  }

  /** The traces of Expanded nodes with a player in `who` under children k and later. */
  function ChildrenTraces<S, A, T>(g: CopilotCore.Game<S, A, T>, h: History<S, A>, k: nat, who: set<Player>): set<T>
    requires h.Expanded? && k <= |h.children|
    decreases h, 0, |h.children| - k
  {
    if k == |h.children| then {}
    else
      assert h.children[k] in h.children;
      NodeTraces(g, h.children[k].1, who) + ChildrenTraces(g, h, k + 1, who)
  }

  /**
   * The pass touches only the information sets of the subtree's Expanded
   * nodes, and changes regrets only in those of the optimizing player's
   * nodes; every other information set keeps its regrets (its policy is
   * only updated).
   */
  lemma {:induction false} CfrFrame<S(!new), A, T>(g: CopilotCore.Game<S, A, T>, h: History<S, A>, opt: Player, reach: Reach, inf: InfoSets<A, T>, iteration: nat)
    requires DistinctLegal(g) && InfoSetsValid(inf)
    ensures var w := CfrValues(g, h, opt, reach, inf, iteration);
      forall t :: t in inf && t !in NodeTraces(g, h, AllPlayers) ==> w.infoSets[t] == inf[t]
    ensures var w := CfrValues(g, h, opt, reach, inf, iteration);
      forall t :: t in inf && t !in NodeTraces(g, h, {opt}) ==> w.infoSets[t].policy.regrets == inf[t].policy.regrets
    decreases h, 1
  {
    if h.Expanded? {
      var w := CfrValues(g, h, opt, reach, inf, iteration);
      var own := g.trace(h.game, h.player);
      var inf1 := InfoSetFor(g, h.game, h.player, inf);
      var entry := inf1[own].policy;
      var net := NetReach(reach, h.player);
      var start := Loop(0.0, h.children, entry, inf1);
      var l := ChildrenFrom(g, h, 0, opt, reach, iteration, entry, net, start);
      ChildrenFrame(g, h, 0, opt, reach, iteration, entry, net, start);
      assert w.infoSets == l.infoSets[own := inf1[own].(policy := Updated(l.policy, iteration))];
      forall t | t in inf && t !in NodeTraces(g, h, AllPlayers)
        ensures w.infoSets[t] == inf[t]
      {
        assert t != own && t in inf1 && inf1[t] == inf[t];
      }
      forall t | t in inf && t !in NodeTraces(g, h, {opt})
        ensures w.infoSets[t].policy.regrets == inf[t].policy.regrets
      {
        if t != own {
          assert t in inf1 && inf1[t] == inf[t];
        }
      }
    }
  }

  lemma {:induction false} ChildrenFrame<S(!new), A, T>(g: CopilotCore.Game<S, A, T>, h: History<S, A>, k: nat, opt: Player, reach: Reach, iteration: nat,
                                     entry: PolicyState<A>, net: real, st: Loop<S, A, T>)
    requires DistinctLegal(g) && h.Expanded? && k <= |h.children|
    requires Valid(entry) && Valid(st.policy) && st.policy.actions == entry.actions
    requires InfoSetsValid(st.infoSets) && |st.children| == |h.children|
    ensures var l := ChildrenFrom(g, h, k, opt, reach, iteration, entry, net, st);
      forall t :: t in st.infoSets && t !in ChildrenTraces(g, h, k, AllPlayers) ==> l.infoSets[t] == st.infoSets[t]
    ensures var l := ChildrenFrom(g, h, k, opt, reach, iteration, entry, net, st);
      forall t :: t in st.infoSets && t !in ChildrenTraces(g, h, k, {opt}) ==> l.infoSets[t].policy.regrets == st.infoSets[t].policy.regrets
    ensures h.player != opt ==> ChildrenFrom(g, h, k, opt, reach, iteration, entry, net, st).policy == st.policy
    decreases h, 0, |h.children| - k
  {
    if k < |h.children| {
      var next := VisitChild(g, h, k, opt, reach, iteration, entry, net, st);
      var p := StrategyOf(entry, h.children[k].0);
      if h.player == opt || p > 0.0 {
        assert h.children[k] in h.children;
        var w := CfrValues(g, h.children[k].1, opt, ChildReach(reach, h.player, p), st.infoSets, iteration);
        CfrFrame(g, h.children[k].1, opt, ChildReach(reach, h.player, p), st.infoSets, iteration);
        VisitChildVisited(g, h, k, opt, reach, iteration, entry, net, st, p, w);
      }
      ChildrenFrame(g, h, k + 1, opt, reach, iteration, entry, net, next);
    }
  }

  /** The probability an Expanded node's entry strategy gives action a (the policy of its information set when the pass reaches it). */
  function EntryProb<S(!new), A(==), T>(g: CopilotCore.Game<S, A, T>, h: History<S, A>, inf: InfoSets<A, T>, a: A): real
    requires DistinctLegal(g) && InfoSetsValid(inf) && h.Expanded?
  {
    StrategyOf(InfoSetFor(g, h.game, h.player, inf)[g.trace(h.game, h.player)].policy, a)
  }

  /**
   * Child i of an Expanded node is left exactly as it was when the node's
   * player is not optimizing and the action's entry probability is 0;
   * otherwise the child is visited, and unless it is Terminal it stores the
   * reach map with the actor's entry multiplied by that probability.
   */
  lemma {:induction false} CfrChildOutcome<S(!new), A, T>(g: CopilotCore.Game<S, A, T>, h: History<S, A>, opt: Player, reach: Reach, inf: InfoSets<A, T>, iteration: nat, i: nat)
    requires DistinctLegal(g) && InfoSetsValid(inf) && h.Expanded? && i < |h.children|
    ensures var w := CfrValues(g, h, opt, reach, inf, iteration);
      h.player != opt && EntryProb(g, h, inf, h.children[i].0) <= 0.0 ==> w.history.children[i] == h.children[i]
    ensures var w := CfrValues(g, h, opt, reach, inf, iteration);
      (h.player == opt || EntryProb(g, h, inf, h.children[i].0) > 0.0) && !h.children[i].1.Terminal? ==>
        w.history.children[i].0 == h.children[i].0 &&
        w.history.children[i].1.reach == ChildReach(reach, h.player, EntryProb(g, h, inf, h.children[i].0))
  {
    var own := g.trace(h.game, h.player);
    var inf1 := InfoSetFor(g, h.game, h.player, inf);
    var entry := inf1[own].policy;
    var start := Loop(0.0, h.children, entry, inf1);
    ChildOutcomeFrom(g, h, 0, opt, reach, iteration, entry, NetReach(reach, h.player), start, i);
  }

  lemma {:induction false} ChildOutcomeFrom<S(!new), A, T>(g: CopilotCore.Game<S, A, T>, h: History<S, A>, k: nat, opt: Player, reach: Reach, iteration: nat,
                                     entry: PolicyState<A>, net: real, st: Loop<S, A, T>, i: nat)
    requires DistinctLegal(g) && h.Expanded? && k <= i < |h.children|
    requires Valid(entry) && Valid(st.policy) && st.policy.actions == entry.actions
    requires InfoSetsValid(st.infoSets) && |st.children| == |h.children| && st.children[i] == h.children[i]
    ensures var l := ChildrenFrom(g, h, k, opt, reach, iteration, entry, net, st);
      h.player != opt && StrategyOf(entry, h.children[i].0) <= 0.0 ==> l.children[i] == h.children[i]
    ensures var l := ChildrenFrom(g, h, k, opt, reach, iteration, entry, net, st);
      (h.player == opt || StrategyOf(entry, h.children[i].0) > 0.0) && !h.children[i].1.Terminal? ==>
        l.children[i].0 == h.children[i].0 &&
        l.children[i].1.reach == ChildReach(reach, h.player, StrategyOf(entry, h.children[i].0))
    decreases |h.children| - k
  {
    var next := VisitChild(g, h, k, opt, reach, iteration, entry, net, st);
    if k < i {
      ChildOutcomeFrom(g, h, k + 1, opt, reach, iteration, entry, net, next, i);
    } else {
      var p := StrategyOf(entry, h.children[k].0);
      if h.player == opt || p > 0.0 {
        assert h.children[k] in h.children;
        var w := CfrValues(g, h.children[k].1, opt, ChildReach(reach, h.player, p), st.infoSets, iteration);
        VisitChildVisited(g, h, k, opt, reach, iteration, entry, net, st, p, w);
      }
    }
  }

  // ---------------------------------------------------------------------
  // cfr_iteration

  /** The probability of entering each gadget, fixed at 1 in this version. */
  const PEnter: real := 1.0

  /** The reach map a sampled history starts from: the sample probability for Chance and the gadget's max-margin probability times p_enter for the opponent. */
  function SampleReach(opt: Player, sampleProb: real, resolverProb: real): (r: Reach)
    requires opt != Chance
    ensures Get(r, Chance) == sampleProb && Get(r, CopilotOther(opt)) == resolverProb && Get(r, opt) == 1.0
  {
    map[Chance := sampleProb, CopilotOther(opt) := resolverProb * PEnter]
  }

  /** The state of the loop over one gadget's histories: the enter value so far, the histories and the information sets. */
  datatype Sampled<S, A, T> = Sampled(enter: real, histories: seq<History<S, A>>, infoSets: InfoSets<A, T>)

  /** The loop over a gadget's histories from index j on. */
  function HistoriesFrom<S(!new), A(==), T>(g: CopilotCore.Game<S, A, T>, gd: Gadget<S, A, T>, j: nat, opt: Player, resolverProb: real, iteration: nat,
                                            st: Sampled<S, A, T>): (r: Sampled<S, A, T>)
    requires DistinctLegal(g) && Valid(gd.sampling) && opt != Chance && j <= |gd.histories|
    requires |st.histories| == |gd.histories| && InfoSetsValid(st.infoSets)
    ensures |r.histories| == |gd.histories| && InfoSetsValid(r.infoSets) && st.infoSets.Keys <= r.infoSets.Keys
    ensures forall i :: 0 <= i < j ==> r.histories[i] == st.histories[i]
    decreases |gd.histories| - j
  {
    if j == |gd.histories| then st
    else HistoriesFrom(g, gd, j + 1, opt, resolverProb, iteration, SampleStep(g, gd, j, opt, resolverProb, iteration, st))
  }

  /**
   * The loop body for history j: when its sample probability is positive,
   * the history gets a CFR pass from the sampling reach map and its value,
   * weighted by the sample probability, joins the enter value; otherwise
   * nothing changes.
   */
  function SampleStep<S(!new), A(==), T>(g: CopilotCore.Game<S, A, T>, gd: Gadget<S, A, T>, j: nat, opt: Player, resolverProb: real, iteration: nat,
                                         st: Sampled<S, A, T>): (r: Sampled<S, A, T>)
    requires DistinctLegal(g) && Valid(gd.sampling) && opt != Chance && j < |gd.histories|
    requires |st.histories| == |gd.histories| && InfoSetsValid(st.infoSets)
    ensures |r.histories| == |gd.histories| && InfoSetsValid(r.infoSets) && st.infoSets.Keys <= r.infoSets.Keys
    ensures forall i :: 0 <= i < |gd.histories| && i != j ==> r.histories[i] == st.histories[i]
  {
    var sp := StrategyOf(gd.sampling, j);
    if sp > 0.0 then
      var w := CfrValues(g, st.histories[j], opt, SampleReach(opt, sp, resolverProb), st.infoSets, iteration);
      Sampled(st.enter + Weighted(sp, w.value), st.histories[j := w.history], w.infoSets)
    else st
  }

  /** The state of the loop over the gadgets: the total so far, the gadgets, the max-margin policy and the information sets. */
  datatype Pass<S, A, T> = Pass(total: real, resolvers: seq<Gadget<S, A, T>>, maxmargin: PolicyState<nat>, infoSets: InfoSets<A, T>)

  predicate PassReady<S, A, T>(ps: Pass<S, A, T>)
  {
    (forall i :: 0 <= i < |ps.resolvers| ==> GadgetReady(ps.resolvers[i])) &&
    Valid(ps.maxmargin) && ps.maxmargin.actions == Indices(|ps.resolvers|)
  }

  /** The loop over the gadgets from index idx on; `entry` is the max-margin policy on entry, whose strategy gives each gadget's probability. */
  function GadgetsFrom<S(!new), A(==), T>(g: CopilotCore.Game<S, A, T>, entry: PolicyState<nat>, idx: nat, opt: Player, iteration: nat,
                                          st: Pass<S, A, T>): (r: Pass<S, A, T>)
    requires DistinctLegal(g) && opt != Chance && Valid(entry) && PassReady(st) && idx <= |st.resolvers|
    requires InfoSetsValid(st.infoSets)
    ensures PassReady(r) && |r.resolvers| == |st.resolvers| && InfoSetsValid(r.infoSets)
    ensures forall i :: 0 <= i < |st.resolvers| ==> r.resolvers[i].prior == st.resolvers[i].prior
    ensures forall i :: 0 <= i < idx ==> r.maxmargin.regrets[i] == st.maxmargin.regrets[i]
    ensures r.total == st.total + PriorWeightedGain(st.resolvers, st.maxmargin.regrets, r.maxmargin.regrets, idx)
    decreases |st.resolvers| - idx, 1
  {
    if idx == |st.resolvers| then st
    else
      GadgetsFromGain(g, entry, idx, opt, iteration, st);
      GadgetsFrom(g, entry, idx + 1, opt, iteration, GadgetStep(g, entry, idx, opt, iteration, st))
  }

  /** Gadget idx adds its prior-weighted gain to the total, and the rest of the loop adds the gains after it. */
  lemma {:induction false} GadgetsFromGain<S(!new), A, T>(g: CopilotCore.Game<S, A, T>, entry: PolicyState<nat>, idx: nat, opt: Player, iteration: nat,
                                                              st: Pass<S, A, T>)
    requires DistinctLegal(g) && opt != Chance && Valid(entry) && PassReady(st) && idx < |st.resolvers|
    requires InfoSetsValid(st.infoSets)
    ensures var r := GadgetsFrom(g, entry, idx + 1, opt, iteration, GadgetStep(g, entry, idx, opt, iteration, st));
      r.total == st.total + PriorWeightedGain(st.resolvers, st.maxmargin.regrets, r.maxmargin.regrets, idx)
    decreases |st.resolvers| - idx, 0
  {
    var next := GadgetStep(g, entry, idx, opt, iteration, st);
    PriorWeightedGainStep(st, next, GadgetsFrom(g, entry, idx + 1, opt, iteration, next), idx);
  }

  /**
   * The loop body for gadget idx: its histories are sampled, its resolver
   * is updated with the enter value and its alternative value at the
   * gadget's max-margin probability, the gadget's value (the enter value,
   * since p_enter is 1) is added as counterfactual to its max-margin index,
   * and the value times the prior joins the total.
   */
  function GadgetStep<S(!new), A(==), T>(g: CopilotCore.Game<S, A, T>, entry: PolicyState<nat>, idx: nat, opt: Player, iteration: nat,
                                         st: Pass<S, A, T>): (r: Pass<S, A, T>)
    requires DistinctLegal(g) && opt != Chance && Valid(entry) && PassReady(st) && idx < |st.resolvers|
    requires InfoSetsValid(st.infoSets)
    ensures PassReady(r) && |r.resolvers| == |st.resolvers| && InfoSetsValid(r.infoSets)
    ensures forall i :: 0 <= i < |st.resolvers| && i != idx ==> r.resolvers[i] == st.resolvers[i]
    ensures r.resolvers[idx].prior == st.resolvers[idx].prior
    ensures forall i :: 0 <= i < |st.resolvers| && i != idx ==> r.maxmargin.regrets[i] == st.maxmargin.regrets[i]
    ensures r.total == st.total + (Weighted(st.resolvers[idx].prior, r.maxmargin.regrets[idx]) - Weighted(st.resolvers[idx].prior, st.maxmargin.regrets[idx]))
  {
    var gd := st.resolvers[idx];
    var resolverProb := StrategyOf(entry, idx);
    var sm := HistoriesFrom(g, gd, 0, opt, resolverProb, iteration, Sampled(0.0, gd.histories, st.infoSets));
    var gd' := UpdateResolver(gd.(histories := sm.histories), sm.enter, gd.alt, resolverProb, iteration);
    var value := MS.Blend(PEnter, gd.alt, sm.enter);
    CounterfactualGain(st.maxmargin, idx, value, gd.prior);
    Pass(st.total + Weighted(gd.prior, value), st.resolvers[idx := gd'], WithCounterfactual(st.maxmargin, idx, value, 1.0), sm.infoSets)
  }

  /** Adding a value at reach 1 to the regret of index idx raises that regret's weighted value by the weighted value. */
  lemma {:induction false} CounterfactualGain(p: PolicyState<nat>, idx: nat, value: real, prior: real)
    requires Valid(p) && p.actions == Indices(|p.actions|) && idx < |p.actions|
    ensures var r := WithCounterfactual(p, idx, value, 1.0);
      Weighted(prior, r.regrets[idx]) - Weighted(prior, p.regrets[idx]) == Weighted(prior, value)
  {
    var r := WithCounterfactual(p, idx, value, 1.0);
    assert p.actions[idx] == idx;
    WeightedDifference(prior, p.regrets[idx], r.regrets[idx]);
  }

  /** The outcome of `cfr_iteration`: the total value, the root and the information sets. */
  datatype Iteration<S, A, T> = Iteration(total: real, root: SubgameRoot<S, A, T>, infoSets: InfoSets<A, T>)

  /** `cfr_iteration` for the optimizing player (the source panics for Chance): the loop over the gadgets, then a max-margin update. */
  function CfrIterationOf<S(!new), A(==), T>(g: CopilotCore.Game<S, A, T>, root: SubgameRoot<S, A, T>, opt: Player, inf: InfoSets<A, T>, iteration: nat): (r: Iteration<S, A, T>)
    requires DistinctLegal(g) && opt != Chance && RootReady(root) && InfoSetsValid(inf)
    ensures RootReady(r.root) && InfoSetsValid(r.infoSets) && |r.root.resolvers| == |root.resolvers|
    ensures r.root.player == root.player
  {
    var ps := GadgetsFrom(g, root.maxmargin, 0, opt, iteration, Pass(0.0, root.resolvers, root.maxmargin, inf));
    Iteration(ps.total, SubgameRoot(ps.resolvers, Updated(ps.maxmargin, iteration), root.player), ps.infoSets)
  }

  /** A sampled history with positive probability sp: its pass, weighted by sp, joins the enter value. */
  lemma {:induction false} SampleStepVisited<S(!new), A, T>(g: CopilotCore.Game<S, A, T>, gd: Gadget<S, A, T>, j: nat, opt: Player, resolverProb: real, iteration: nat,
                                         st: Sampled<S, A, T>, sp: real, w: Walk<S, A, T>)
    requires DistinctLegal(g) && Valid(gd.sampling) && opt != Chance && j < |gd.histories|
    requires |st.histories| == |gd.histories| && InfoSetsValid(st.infoSets)
    requires sp == StrategyOf(gd.sampling, j) && sp > 0.0
    requires w == CfrValues(g, st.histories[j], opt, SampleReach(opt, sp, resolverProb), st.infoSets, iteration)
    ensures SampleStep(g, gd, j, opt, resolverProb, iteration, st) == Sampled(st.enter + Weighted(sp, w.value), st.histories[j := w.history], w.infoSets)
  {
  }

  /** The prior-weighted gains b[i] - a[i] of the gadgets from index idx on. */
  function PriorWeightedGain<S, A, T>(rs: seq<Gadget<S, A, T>>, a: seq<real>, b: seq<real>, idx: nat): real
    requires |a| == |rs| && |b| == |rs| && idx <= |rs|
    decreases |rs| - idx
  {
    if idx == |rs| then 0.0 else (Weighted(rs[idx].prior, b[idx]) - Weighted(rs[idx].prior, a[idx])) + PriorWeightedGain(rs, a, b, idx + 1)
  }

  /** The weighted gains from idx on depend only on the priors and the entries from idx on. */
  lemma {:induction false} PriorWeightedGainAgree<S, A, T>(rs: seq<Gadget<S, A, T>>, a: seq<real>, rs': seq<Gadget<S, A, T>>, a': seq<real>,
                                                           b: seq<real>, idx: nat)
    requires |a| == |rs| && |b| == |rs| && |rs'| == |rs| && |a'| == |rs| && idx <= |rs|
    requires forall i :: idx <= i < |rs| ==> rs[i].prior == rs'[i].prior && a[i] == a'[i]
    ensures PriorWeightedGain(rs, a, b, idx) == PriorWeightedGain(rs', a', b, idx)
    decreases |rs| - idx
  {
    if idx < |rs| {
      PriorWeightedGainAgree(rs, a, rs', a', b, idx + 1);
    }
  }

  /**
   * What one gadget step and the rest of the loop leave: the lengths, the
   * total after gadget idx, the total after the rest, the entry at idx kept
   * by the rest, and the priors and entries after idx kept by the step.
   */
  ghost predicate GainStep<S, A, T>(st: Pass<S, A, T>, next: Pass<S, A, T>, r: Pass<S, A, T>, idx: nat)
  {
    |st.maxmargin.regrets| == |st.resolvers| && |next.maxmargin.regrets| == |st.resolvers| &&
    |r.maxmargin.regrets| == |st.resolvers| && |next.resolvers| == |st.resolvers| && idx < |st.resolvers| &&
    next.total == st.total + (Weighted(st.resolvers[idx].prior, next.maxmargin.regrets[idx]) - Weighted(st.resolvers[idx].prior, st.maxmargin.regrets[idx])) &&
    r.total == next.total + PriorWeightedGain(next.resolvers, next.maxmargin.regrets, r.maxmargin.regrets, idx + 1) &&
    r.maxmargin.regrets[idx] == next.maxmargin.regrets[idx] &&
    forall i :: idx < i < |st.resolvers| ==>
      next.resolvers[i].prior == st.resolvers[i].prior && next.maxmargin.regrets[i] == st.maxmargin.regrets[i]
  }

  /** The total after gadget idx and the total after the rest of the loop add up to the weighted gains from idx on. */
  lemma {:induction false} PriorWeightedGainStep<S, A, T>(st: Pass<S, A, T>, next: Pass<S, A, T>, r: Pass<S, A, T>, idx: nat)
    requires GainStep(st, next, r, idx)
    ensures r.total == st.total + PriorWeightedGain(st.resolvers, st.maxmargin.regrets, r.maxmargin.regrets, idx)
  {
    PriorWeightedGainAgree(next.resolvers, next.maxmargin.regrets, st.resolvers, st.maxmargin.regrets, r.maxmargin.regrets, idx + 1);
  }

  /** A history whose sample probability is 0 comes out of the loop over its gadget's histories unchanged. */
  lemma {:induction false} HistoriesFromSkips<S(!new), A, T>(g: CopilotCore.Game<S, A, T>, gd: Gadget<S, A, T>, j: nat, opt: Player, resolverProb: real,
                                                             iteration: nat, st: Sampled<S, A, T>, i: nat)
    requires DistinctLegal(g) && Valid(gd.sampling) && opt != Chance && j <= |gd.histories|
    requires |st.histories| == |gd.histories| && InfoSetsValid(st.infoSets)
    requires i < |gd.histories| && StrategyOf(gd.sampling, i) == 0.0
    ensures HistoriesFrom(g, gd, j, opt, resolverProb, iteration, st).histories[i] == st.histories[i]
    decreases |gd.histories| - j
  {
    if j < |gd.histories| {
      var next := SampleStep(g, gd, j, opt, resolverProb, iteration, st);
      HistoriesFromSkips(g, gd, j + 1, opt, resolverProb, iteration, next, i);
    }
  }

  /** The total `cfr_iteration` returns is the prior-weighted sum of the values fed to the max-margin policy. */
  lemma {:induction false} CfrIterationTotal<S(!new), A, T>(g: CopilotCore.Game<S, A, T>, root: SubgameRoot<S, A, T>, opt: Player, inf: InfoSets<A, T>, iteration: nat)
    requires DistinctLegal(g) && opt != Chance && RootReady(root) && InfoSetsValid(inf)
    ensures var r := CfrIterationOf(g, root, opt, inf, iteration);
      r.total == PriorWeightedGain(root.resolvers, root.maxmargin.regrets, r.root.maxmargin.regrets, 0)
  {
  }

  /** What `cfr_iteration` needs: distinct legal actions, a player who is not Chance, a ready root and valid information sets. */
  ghost predicate IterationReady<S(!new), A, T>(g: CopilotCore.Game<S, A, T>, root: SubgameRoot<S, A, T>, opt: Player, inf: InfoSets<A, T>)
  {
    DistinctLegal(g) && opt != Chance && RootReady(root) && InfoSetsValid(inf)
  }

  /** `cfr_iteration`: the loop over the gadgets, each with its loop over its histories, then the max-margin update; performs `CfrIterationOf`. */
  method CfrIteration<S(!new), A(==), T>(g: CopilotCore.Game<S, A, T>, root: SubgameRoot<S, A, T>, opt: Player, inf: InfoSets<A, T>, iteration: nat)
    returns (r: Iteration<S, A, T>)
    requires IterationReady(g, root, opt, inf)
    ensures r == CfrIterationOf(g, root, opt, inf, iteration)
  {
    var ps := GadgetLoop(g, root.maxmargin, opt, iteration, Pass(0.0, root.resolvers, root.maxmargin, inf));
    r := Iteration(ps.total, SubgameRoot(ps.resolvers, Updated(ps.maxmargin, iteration), root.player), ps.infoSets);
  }

  /** What the loop over the gadgets keeps: the state is ready and the rest of the loop ends where the whole loop does. */
  ghost predicate GadgetLoopInv<S(!new), A, T>(g: CopilotCore.Game<S, A, T>, entry: PolicyState<nat>, opt: Player, iteration: nat,
                                                   start: Pass<S, A, T>, idx: nat, ps: Pass<S, A, T>)
    requires DistinctLegal(g) && opt != Chance && Valid(entry) && PassReady(start) && InfoSetsValid(start.infoSets)
  {
    PassReady(ps) && |ps.resolvers| == |start.resolvers| && InfoSetsValid(ps.infoSets) && idx <= |ps.resolvers| &&
    GadgetsFrom(g, entry, idx, opt, iteration, ps) == GadgetsFrom(g, entry, 0, opt, iteration, start)
  }

  /** The loop over the gadgets, performing `GadgetsFrom` from the first gadget. */
  method GadgetLoop<S(!new), A(==), T>(g: CopilotCore.Game<S, A, T>, entry: PolicyState<nat>, opt: Player, iteration: nat,
                                       start: Pass<S, A, T>) returns (ps: Pass<S, A, T>)
    requires DistinctLegal(g) && opt != Chance && Valid(entry) && PassReady(start) && InfoSetsValid(start.infoSets)
    ensures ps == GadgetsFrom(g, entry, 0, opt, iteration, start)
  {
    ps := start;
    for idx := 0 to |start.resolvers|
      invariant GadgetLoopInv(g, entry, opt, iteration, start, idx, ps)
    {
      var next := GadgetPass(g, entry, idx, opt, iteration, ps);
      GadgetLoopStep(g, entry, opt, iteration, start, idx, ps, next);
      ps := next;
    }
  }

  /** One turn of the loop over the gadgets keeps its invariant. */
  lemma {:induction false} GadgetLoopStep<S(!new), A, T>(g: CopilotCore.Game<S, A, T>, entry: PolicyState<nat>, opt: Player, iteration: nat,
                                                         start: Pass<S, A, T>, idx: nat, st: Pass<S, A, T>, next: Pass<S, A, T>)
    requires DistinctLegal(g) && opt != Chance && Valid(entry) && PassReady(start) && InfoSetsValid(start.infoSets)
    requires GadgetLoopInv(g, entry, opt, iteration, start, idx, st) && idx < |st.resolvers|
    requires next == GadgetStep(g, entry, idx, opt, iteration, st)
    ensures GadgetLoopInv(g, entry, opt, iteration, start, idx + 1, next)
  {
  }

  /** One pass of the loop over the gadgets, performing `GadgetStep`. */
  method GadgetPass<S(!new), A(==), T>(g: CopilotCore.Game<S, A, T>, entry: PolicyState<nat>, idx: nat, opt: Player, iteration: nat,
                                       st: Pass<S, A, T>) returns (r: Pass<S, A, T>)
    requires DistinctLegal(g) && opt != Chance && Valid(entry) && PassReady(st) && idx < |st.resolvers|
    requires InfoSetsValid(st.infoSets)
    ensures r == GadgetStep(g, entry, idx, opt, iteration, st)
  {
    var gd := st.resolvers[idx];
    var resolverProb := StrategyOf(entry, idx);
    var sm := SampleHistories(g, gd, opt, resolverProb, iteration, Sampled(0.0, gd.histories, st.infoSets));
    var gd' := UpdateResolver(gd.(histories := sm.histories), sm.enter, gd.alt, resolverProb, iteration);
    var value := MS.Blend(PEnter, gd.alt, sm.enter);
    r := Pass(st.total + Weighted(gd.prior, value), st.resolvers[idx := gd'], WithCounterfactual(st.maxmargin, idx, value, 1.0), sm.infoSets);
  }

  /** The loop over one gadget's histories, performing `HistoriesFrom` from the first history. */
  method SampleHistories<S(!new), A(==), T>(g: CopilotCore.Game<S, A, T>, gd: Gadget<S, A, T>, opt: Player, resolverProb: real, iteration: nat,
                                            start: Sampled<S, A, T>) returns (st: Sampled<S, A, T>)
    requires DistinctLegal(g) && Valid(gd.sampling) && opt != Chance
    requires |start.histories| == |gd.histories| && InfoSetsValid(start.infoSets)
    ensures st == HistoriesFrom(g, gd, 0, opt, resolverProb, iteration, start)
  {
    st := start;
    for j := 0 to |gd.histories|
      invariant |st.histories| == |gd.histories| && InfoSetsValid(st.infoSets)
      invariant HistoriesFrom(g, gd, j, opt, resolverProb, iteration, st) == HistoriesFrom(g, gd, 0, opt, resolverProb, iteration, start)
    {
      var sp := StrategyOf(gd.sampling, j);
      if sp > 0.0 {
        var value, h', inf' := ComputeCfrValues(g, st.histories[j], opt, SampleReach(opt, sp, resolverProb), st.infoSets, iteration);
        var w := Walk(value, h', inf');
        SampleStepVisited(g, gd, j, opt, resolverProb, iteration, st, sp, w);
        st := Sampled(st.enter + Weighted(sp, w.value), st.histories[j := w.history], w.infoSets);
      }
    }
  }

  // ---------------------------------------------------------------------
  // apply_policy_updates

  /**
   * `apply_policy_updates`: at an Expanded node, the policy of the
   * information set for the node's trace (when the map has one) is updated,
   * and then each child in turn, in pre-order; leaves change nothing.
   */
  function ApplyPolicyUpdates<S, A(==), T>(g: CopilotCore.Game<S, A, T>, h: History<S, A>, inf: InfoSets<A, T>, iteration: nat): (r: InfoSets<A, T>)
    requires InfoSetsValid(inf)
    ensures InfoSetsValid(r) && r.Keys == inf.Keys
    decreases h, 1
  {
    if h.Expanded? then
      var t := g.trace(h.game, h.player);
      var inf1 := if t in inf then inf[t := inf[t].(policy := Updated(inf[t].policy, iteration))] else inf;
      ApplyChildrenUpdates(g, h, 0, inf1, iteration)
    else inf
  }

  /** The loop over the children of an Expanded node from child k on. */
  function ApplyChildrenUpdates<S, A(==), T>(g: CopilotCore.Game<S, A, T>, h: History<S, A>, k: nat, inf: InfoSets<A, T>, iteration: nat): (r: InfoSets<A, T>)
    requires h.Expanded? && k <= |h.children| && InfoSetsValid(inf)
    ensures InfoSetsValid(r) && r.Keys == inf.Keys
    decreases h, 0, |h.children| - k
  {
    if k == |h.children| then inf
    else
      assert h.children[k] in h.children;
      ApplyChildrenUpdates(g, h, k + 1, ApplyPolicyUpdates(g, h.children[k].1, inf, iteration), iteration)
  }

  /** The number of Expanded nodes in the tree whose own trace is t. */
  function NodesAt<S, A, T(==)>(g: CopilotCore.Game<S, A, T>, h: History<S, A>, t: T): nat
    decreases h, 1
  {
    if h.Expanded? then (if g.trace(h.game, h.player) == t then 1 else 0) + ChildrenNodesAt(g, h, 0, t)
    else 0
  }

  /** The number of Expanded nodes with trace t under children k and later. */
  function ChildrenNodesAt<S, A, T(==)>(g: CopilotCore.Game<S, A, T>, h: History<S, A>, k: nat, t: T): nat
    requires h.Expanded? && k <= |h.children|
    decreases h, 0, |h.children| - k
  {
    if k == |h.children| then 0
    else
      assert h.children[k] in h.children;
      NodesAt(g, h.children[k].1, t) + ChildrenNodesAt(g, h, k + 1, t)
  }

  /**
   * An information set after n policy updates: the same trace, player,
   * actions, regrets and exploration counts; n copies of the current
   * strategy added to the weights; the update count set to the iteration
   * when n is positive.
   */
  predicate Bumped<A(==), T(==)>(before: InfoSet<A, T>, after: InfoSet<A, T>, n: nat, iteration: nat)
    requires Valid(before.policy)
  {
    var p, q := before.policy, after.policy;
    after.trace == before.trace && after.player == before.player &&
    q.player == p.player && q.actions == p.actions && q.regrets == p.regrets && q.explorations == p.explorations &&
    |q.weights| == |p.weights| &&
    (forall i :: 0 <= i < |p.weights| ==> q.weights[i] == p.weights[i] + (n as real) * CurrentStrategy(p)[i]) &&
    q.updateCount == (if n == 0 then p.updateCount else iteration)
  }

  /** No update leaves an information set as it was. */
  lemma {:induction false} BumpedNone<A, T>(a: InfoSet<A, T>, iteration: nat)
    requires Valid(a.policy)
    ensures Bumped(a, a, 0, iteration)
  {
  }

  /** One `update` is one bump. */
  lemma {:induction false} BumpedOnce<A, T>(a: InfoSet<A, T>, iteration: nat)
    requires Valid(a.policy)
    ensures Bumped(a, a.(policy := Updated(a.policy, iteration)), 1, iteration)
  {
  }

  /** Updates compose: n1 updates and then n2 more are n1 + n2 updates, since an update keeps the regrets and so the current strategy. */
  lemma {:induction false} BumpedTrans<A, T>(a: InfoSet<A, T>, b: InfoSet<A, T>, c: InfoSet<A, T>, n1: nat, n2: nat, n: nat, iteration: nat)
    requires Valid(a.policy) && Valid(b.policy)
    requires Bumped(a, b, n1, iteration) && Bumped(b, c, n2, iteration) && n == n1 + n2
    ensures Bumped(a, c, n, iteration)
  {
    assert CurrentStrategy(b.policy) == CurrentStrategy(a.policy);
    forall i | 0 <= i < |a.policy.weights|
      ensures c.policy.weights[i] == a.policy.weights[i] + (n as real) * CurrentStrategy(a.policy)[i]
    {
      var x := CurrentStrategy(a.policy)[i];
      assert (n as real) * x == (n1 as real) * x + (n2 as real) * x;
    }
  }

  /**
   * After `apply_policy_updates`, every information set has been updated
   * once per Expanded node of the tree with its trace: its regrets are as
   * before and its weights grew by that many copies of its current
   * strategy.
   */
  lemma {:induction false} ApplyPolicyUpdatesCounts<S, A, T>(g: CopilotCore.Game<S, A, T>, h: History<S, A>, inf: InfoSets<A, T>, iteration: nat, t: T)
    requires InfoSetsValid(inf) && t in inf
    ensures Bumped(inf[t], ApplyPolicyUpdates(g, h, inf, iteration)[t], NodesAt(g, h, t), iteration)
    decreases h, 1
  {
    if h.Expanded? {
      var own := g.trace(h.game, h.player);
      var inf1 := if own in inf then inf[own := inf[own].(policy := Updated(inf[own].policy, iteration))] else inf;
      var n0 := if own == t then 1 else 0;
      if own == t {
        BumpedOnce(inf[t], iteration);
      } else {
        BumpedNone(inf[t], iteration);
      }
      ChildrenUpdatesCount(g, h, 0, inf1, iteration, t);
      BumpedTrans(inf[t], inf1[t], ApplyPolicyUpdates(g, h, inf, iteration)[t], n0, ChildrenNodesAt(g, h, 0, t), NodesAt(g, h, t), iteration);
    } else {
      BumpedNone(inf[t], iteration);
    }
  }

  /** The loop over the children from child k on updates t's information set once per Expanded node with trace t under them. */
  lemma {:induction false} ChildrenUpdatesCount<S, A, T>(g: CopilotCore.Game<S, A, T>, h: History<S, A>, k: nat, inf: InfoSets<A, T>, iteration: nat, t: T)
    requires h.Expanded? && k <= |h.children| && InfoSetsValid(inf) && t in inf
    ensures Bumped(inf[t], ApplyChildrenUpdates(g, h, k, inf, iteration)[t], ChildrenNodesAt(g, h, k, t), iteration)
    decreases h, 0, |h.children| - k
  {
    if k == |h.children| {
      BumpedNone(inf[t], iteration);
    } else {
      assert h.children[k] in h.children;
      var child := h.children[k].1;
      var inf1 := ApplyPolicyUpdates(g, child, inf, iteration);
      ApplyPolicyUpdatesCounts(g, child, inf, iteration, t);
      ChildrenUpdatesCount(g, h, k + 1, inf1, iteration, t);
      BumpedTrans(inf[t], inf1[t], ApplyChildrenUpdates(g, h, k, inf, iteration)[t], NodesAt(g, child, t), ChildrenNodesAt(g, h, k + 1, t),
                  ChildrenNodesAt(g, h, k, t), iteration);
    }
  }

  // ---------------------------------------------------------------------
  // extract_average_strategy and reset_negative_regrets

  /** `extract_average_strategy`: per trace, the average strategy of its information set. */
  function ExtractAverageStrategy<A(==), T>(inf: InfoSets<A, T>): (r: map<T, seq<real>>)
    requires InfoSetsValid(inf)
    ensures r.Keys == inf.Keys
    ensures forall t :: t in r ==> |r[t]| == |inf[t].policy.actions|
  {
    map t | t in inf :: AverageStrategy(inf[t].policy)
  }

  /** Every extracted strategy over a non-empty action list with non-negative weights is a distribution. */
  lemma {:induction false} ExtractedAreDistributions<A, T>(inf: InfoSets<A, T>)
    requires InfoSetsValid(inf)
    ensures forall t :: t in inf && |inf[t].policy.actions| > 0 && NonNegative(inf[t].policy.weights) ==>
      IsDistribution(ExtractAverageStrategy(inf)[t])
  {
    forall t | t in inf && |inf[t].policy.actions| > 0 && NonNegative(inf[t].policy.weights)
      ensures IsDistribution(ExtractAverageStrategy(inf)[t])
    {
      AverageStrategyProperties(inf[t].policy);
    }
  }

  /** One information set with every negative regret set to 0. */
  function ResetInfoSet<A(==), T>(i: InfoSet<A, T>): (r: InfoSet<A, T>)
    requires Valid(i.policy)
    ensures Valid(r.policy)
  {
    i.(policy := i.policy.(regrets := Positives(i.policy.regrets)))
  }

  /** `reset_negative_regrets` as a value: every information set reset. */
  function ResetAll<A(==), T>(inf: InfoSets<A, T>): (r: InfoSets<A, T>)
    requires InfoSetsValid(inf)
    ensures InfoSetsValid(r) && r.Keys == inf.Keys
  {
    map t | t in inf :: ResetInfoSet(inf[t])
  }

  /**
   * Resetting makes every regret non-negative, keeps the non-negative ones,
   * touches nothing but the regrets, and leaves the current strategy (which
   * only sees the positive parts) as it was.
   */
  lemma {:induction false} ResetInfoSetProperties<A, T>(i: InfoSet<A, T>)
    requires Valid(i.policy)
    ensures var r := ResetInfoSet(i);
      NonNegative(r.policy.regrets) &&
      (forall k :: 0 <= k < |i.policy.regrets| && i.policy.regrets[k] >= 0.0 ==> r.policy.regrets[k] == i.policy.regrets[k]) &&
      r == i.(policy := i.policy.(regrets := r.policy.regrets)) &&
      CurrentStrategy(r.policy) == CurrentStrategy(i.policy)
  {
    var rs := i.policy.regrets;
    assert Positives(Positives(rs)) == Positives(rs);
  }

  /** Resetting twice is resetting once, and the average strategies do not notice a reset. */
  lemma {:induction false} ResetAllProperties<A, T>(inf: InfoSets<A, T>)
    requires InfoSetsValid(inf)
    ensures ResetAll(ResetAll(inf)) == ResetAll(inf)
    ensures ExtractAverageStrategy(ResetAll(inf)) == ExtractAverageStrategy(inf)
  {
    forall t | t in inf
      ensures ResetAll(ResetAll(inf))[t] == ResetAll(inf)[t]
    {
      var rs := inf[t].policy.regrets;
      assert Positives(Positives(rs)) == Positives(rs);
    }
  }

  /** The inner loop of `reset_negative_regrets` over one policy's regrets. */
  method ClampRegrets(rs: seq<real>) returns (ps: seq<real>)
    ensures ps == Positives(rs)
  {
    ps := rs;
    for k := 0 to |rs|
      invariant |ps| == |rs|
      invariant forall i :: 0 <= i < k ==> ps[i] == Positives(rs)[i]
      invariant forall i :: k <= i < |rs| ==> ps[i] == rs[i]
    {
      if ps[k] < 0.0 {
        ps := ps[k := 0.0];
      }
    }
  }

  /** `reset_negative_regrets`: the loop over the information sets, in any order, performing `ResetAll`. */
  method ResetNegativeRegrets<A(==), T>(inf: InfoSets<A, T>) returns (r: InfoSets<A, T>)
    requires InfoSetsValid(inf)
    ensures r == ResetAll(inf)
  {
    r := inf;
    var pending := inf.Keys;
    while pending != {}
      invariant pending <= inf.Keys && r.Keys == inf.Keys
      invariant forall t :: t in inf ==> r[t] == (if t in pending then inf[t] else ResetInfoSet(inf[t]))
      decreases |pending|
    {
      var t :| t in pending;
      var ps := ClampRegrets(r[t].policy.regrets);
      r := r[t := r[t].(policy := r[t].policy.(regrets := ps))];
      pending := pending - {t};
    }
  }
}
