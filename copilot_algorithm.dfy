// The top level of the copilot generation (copilot/obscuro_algorithm.rs):
// the configuration, the descent that grows the search tree by one node,
// and the `Obscuro` object that owns the information sets, the subgame
// root and the tree saved for the next move.
//
// A panic of the source (a policy with no actions asked for an action, no
// legal action to fall back on) is a `None` result here.
module CopilotAlgorithm {
  import opened Wrappers
  import opened Players
  import opened Reals
  import opened Seqs
  import opened CopilotCore
  import opened CopilotResolving
  import opened CopilotCfr
  import CS = CopilotSubgame

  // ---------------------------------------------------------------------
  // ObscuroConfig

  /** The search parameters: seconds per move, positions at the subgame root, k-cover depth, CFR iterations per expansion, tree-size cap. */
  datatype Config = Config(timePerMove: real, minPositions: nat, kDepth: nat, cfrIterationsPerExpansion: nat, maxTreeSize: nat)

  /** `ObscuroConfig::default`: 5 seconds, 64 positions, depth 3, 10 iterations, a million nodes. */
  function DefaultConfig(): (c: Config)
    ensures c.timePerMove > 0.0 && c.minPositions > 0 && c.kDepth > 0
    ensures c.cfrIterationsPerExpansion > 0 && c.maxTreeSize > 0
  {
    Config(5.0, 64, 3, 10, 1000000)
  }

  // ---------------------------------------------------------------------
  // expand_history_static: one Expanded node

  /** The action chosen at an Expanded node, and the information sets after its exploration was recorded. */
  datatype Choice<A, T> = Choice(action: A, infoSets: InfoSets<A, T>)

  /**
   * The work at an Expanded node whose game is `s` and whose player is
   * `player`: the information set of its trace is fetched or created; its
   * policy explores (for the target player) or plays its best action (for
   * the other players), and that action's exploration is recorded. A
   * policy without actions panics.
   */
  function ExploreNode<S(!new), A(==), T>(g: CopilotCore.Game<S, A, T>, s: S, player: Player, target: Player,
                                          inf: InfoSets<A, T>, ln: nat -> real): (r: Option<Choice<A, T>>)
    requires DistinctLegal(g) && InfoSetsValid(inf)
    ensures r.Some? ==> InfoSetsValid(r.value.infoSets)
  {
    var inf1 := InfoSetFor(g, s, player, inf);
    var t := g.trace(s, player);
    var p := inf1[t].policy;
    if |p.actions| == 0 then None
    else
      var a := Chosen(p, player, target, ln);
      Some(Choice(a, Recorded(inf1, t, a)))
  }

  /** The action a policy of `player` picks: an exploration for the target player, its best action otherwise. */
  function Chosen<A(==)>(p: PolicyState<A>, player: Player, target: Player, ln: nat -> real): (a: A)
    requires Valid(p) && |p.actions| > 0
    ensures a in p.actions
  {
    ChosenActionIsLegal(p, ln);
    if player == target then SelectExploration(p, ln) else BestAction(p)
  }

  /** The information sets with one exploration of `a` recorded in the policy at trace t. */
  function Recorded<A(==), T>(inf: InfoSets<A, T>, t: T, a: A): (r: InfoSets<A, T>)
    requires InfoSetsValid(inf) && t in inf && a in inf[t].policy.actions
    ensures InfoSetsValid(r) && t in r && r[t].policy == WithExploration(inf[t].policy, a)
    ensures r - {t} == inf - {t}
  {
    inf[t := inf[t].(policy := WithExploration(inf[t].policy, a))]
  }

  /**
   * The node's policy panics exactly when it has no actions; otherwise the
   * chosen action is one of its actions, an exploration for the target
   * player and the best action for any other, and only the information
   * set of the node's trace changes.
   */
  lemma {:induction false} ExploreNodeChoice<S(!new), A, T>(g: CopilotCore.Game<S, A, T>, s: S, player: Player, target: Player,
                                         inf: InfoSets<A, T>, ln: nat -> real)
    requires DistinctLegal(g) && InfoSetsValid(inf)
    ensures var t := g.trace(s, player); var inf1 := InfoSetFor(g, s, player, inf); var p := inf1[t].policy;
      var r := ExploreNode(g, s, player, target, inf, ln);
      (r.None? <==> |p.actions| == 0) &&
      (r.Some? ==>
        r.value.action in p.actions &&
        r.value.action == (if player == target then SelectExploration(p, ln) else BestAction(p)) &&
        r.value.infoSets == Recorded(inf1, t, r.value.action))
  {
  }

  lemma {:induction false} ChosenActionIsLegal<A>(p: PolicyState<A>, ln: nat -> real)
    requires Valid(p) && |p.actions| > 0
    ensures SelectExploration(p, ln) in p.actions && BestAction(p) in p.actions
  {
    SelectExplorationProperties(p, ln);
    BestActionMaximizes(p);
  }

  /**
   * At an Expanded node, the exploration count of the chosen action grows
   * by one and no other count, regret or strategy weight of that policy
   * changes: the total number of explorations grows by exactly one.
   */
  lemma {:induction false} ExploreNodeCounts<S(!new), A, T>(g: CopilotCore.Game<S, A, T>, s: S, player: Player, target: Player,
                                                            inf: InfoSets<A, T>, ln: nat -> real)
    requires DistinctLegal(g) && InfoSetsValid(inf)
    requires ExploreNode(g, s, player, target, inf, ln).Some?
    ensures var t := g.trace(s, player); var p := InfoSetFor(g, s, player, inf)[t].policy;
      var c := ExploreNode(g, s, player, target, inf, ln).value; var q := c.infoSets[t].policy;
      q.actions == p.actions && q.regrets == p.regrets && q.weights == p.weights &&
      (forall i :: 0 <= i < |p.actions| ==>
        q.explorations[i] == p.explorations[i] + (if p.actions[i] == c.action then 1 else 0)) &&
      TotalExplorations(q) == TotalExplorations(p) + 1 &&
      c.infoSets - {t} == inf - {t}
  {
    var t := g.trace(s, player);
    var inf1 := InfoSetFor(g, s, player, inf);
    ExploreNodeChoice(g, s, player, target, inf, ln);
    var c := ExploreNode(g, s, player, target, inf, ln).value;
    RecordedCounts(inf1, t, c.action);
    assert inf1 - {t} == inf - {t};
  }

  lemma {:induction false} RecordedCounts<A, T>(inf: InfoSets<A, T>, t: T, a: A)
    requires InfoSetsValid(inf) && t in inf && a in inf[t].policy.actions
    ensures var p := inf[t].policy; var q := Recorded(inf, t, a)[t].policy;
      q.actions == p.actions && q.regrets == p.regrets && q.weights == p.weights &&
      (forall i :: 0 <= i < |p.actions| ==>
        q.explorations[i] == p.explorations[i] + (if p.actions[i] == a then 1 else 0)) &&
      TotalExplorations(q) == TotalExplorations(p) + 1
  {
    var p := inf[t].policy;
    var i := Position(p.actions, a);
    assert Recorded(inf, t, a)[t].policy.explorations == p.explorations[i := p.explorations[i] + 1];
    NatSumIncrement(p.explorations, i);
  }

  lemma {:induction false} NatSumIncrement(s: seq<nat>, i: nat)
    requires i < |s|
    ensures NatSum(s[i := s[i] + 1]) == NatSum(s) + 1
    decreases |s|
  {
    var s' := s[i := s[i] + 1];
    if i < |s| - 1 {
      NatSumIncrement(s[..|s| - 1], i);
      assert s'[..|s| - 1] == s[..|s| - 1][i := s[i] + 1];
    } else {
      assert s'[..|s| - 1] == s[..|s| - 1];
    }
  }

  /** The first child reached by the action, or the number of children when none is. */
  function ChildIndex<S, A(==)>(children: seq<(A, History<S, A>)>, a: A): (i: nat)
    ensures i <= |children|
    ensures i < |children| ==> children[i].0 == a
    ensures forall j :: 0 <= j < i ==> children[j].0 != a
  {
    if |children| == 0 then 0
    else if children[0].0 == a then 0
    else 1 + ChildIndex(children[1..], a)
  }

  /** The source's search over the children, stopping at the first one reached by the action. */
  method FindChild<S, A(==)>(children: seq<(A, History<S, A>)>, a: A) returns (i: nat)
    ensures i == ChildIndex(children, a)
  {
    i := 0;
    while i < |children| && children[i].0 != a
      invariant i <= |children|
      invariant forall j :: 0 <= j < i ==> children[j].0 != a
    {
      i := i + 1;
    }
    FirstChildUnique(children, a, i);
  }

  lemma {:induction false} FirstChildUnique<S, A>(children: seq<(A, History<S, A>)>, a: A, i: nat)
    requires i <= |children| && (i < |children| ==> children[i].0 == a)
    requires forall j :: 0 <= j < i ==> children[j].0 != a
    ensures i == ChildIndex(children, a)
  {
  }

  // ---------------------------------------------------------------------
  // expand_history_static: the descent

  /** A grown history and the information sets after the descent. */
  datatype Grown<S, A, T> = Grown(history: History<S, A>, infoSets: InfoSets<A, T>)

  /** One child per action, in order: the history of the game after that action. */
  function ChildrenFor<S, A, T>(g: CopilotCore.Game<S, A, T>, s: S, actions: seq<A>): (cs: seq<(A, History<S, A>)>)
    ensures |cs| == |actions|
    ensures forall i :: 0 <= i < |actions| ==> cs[i] == (actions[i], NewHistory(g, g.apply(s, actions[i])))
  {
    seq(|actions|, i requires 0 <= i < |actions| => (actions[i], NewHistory(g, g.apply(s, actions[i]))))
  }

  /** The Expanded node with its i-th subtree replaced. */
  function Replace<S, A>(h: History<S, A>, i: nat, c: History<S, A>): (r: History<S, A>)
    requires h.Expanded? && i < |h.children|
  {
    h.(children := h.children[i := (h.children[i].0, c)])
  }

  /**
   * `expand_history_static`: from the history, walk down Expanded nodes,
   * each choosing an action as `ExploreNode` does and moving to the first
   * child for it; stop unchanged at a Terminal node or when no child has
   * the action; turn the Visited node reached into an Expanded node with
   * one fresh child per legal action of its active player, with an empty
   * reach map, creating that player's information set if missing.
   */
  function Expand<S(!new), A(==), T>(g: CopilotCore.Game<S, A, T>, h: History<S, A>, target: Player,
                                     inf: InfoSets<A, T>, ln: nat -> real): (r: Option<Grown<S, A, T>>)
    requires DistinctLegal(g) && InfoSetsValid(inf)
    ensures r.Some? ==> InfoSetsValid(r.value.infoSets) && r.value.history.game == h.game
    ensures r.Some? && h.Expanded? ==> (r.value.history.Expanded? && r.value.history.player == h.player &&
      r.value.history.reach == h.reach && |r.value.history.children| == |h.children|)
    decreases h
  {
    match h
    case Terminal(_, _, _) => Some(Grown(h, inf))
    case Visited(s, _, _) =>
      var player := g.activePlayer(s);
      Some(Grown(Expanded(s, player, ChildrenFor(g, s, g.legalActions(s)), map[]), InfoSetFor(g, s, player, inf)))
    case Expanded(s, player, children, _) =>
      match ExploreNode(g, s, player, target, inf, ln)
      case None => None
      case Some(c) =>
        var i := ChildIndex(children, c.action);
        if i == |children| then Some(Grown(h, c.infoSets))
        else
          var child := children[i];
          assert child in children && child.1 < child;
          Within(h, i, Expand(g, child.1, target, c.infoSets, ln))
  }

  /** A descent's outcome from the i-th child, seen from its parent. */
  function Within<S, A, T>(h: History<S, A>, i: nat, r: Option<Grown<S, A, T>>): (r': Option<Grown<S, A, T>>)
    requires h.Expanded? && i < |h.children|
    ensures r'.Some? <==> r.Some?
    ensures r.Some? ==> r'.value.infoSets == r.value.infoSets && r'.value.history == Replace(h, i, r.value.history)
  {
    match r
    case None => None
    case Some(x) => Some(Grown(Replace(h, i, x.history), x.infoSets))
  }

  /**
   * The descent stops without touching the tree at a Terminal node, and at
   * an Expanded node whose chosen action has no child; there only the
   * chosen action's exploration is recorded.
   */
  lemma {:induction false} ExpandStops<S(!new), A, T>(g: CopilotCore.Game<S, A, T>, h: History<S, A>, target: Player,
                                   inf: InfoSets<A, T>, ln: nat -> real)
    requires DistinctLegal(g) && InfoSetsValid(inf)
    ensures h.Terminal? ==> Expand(g, h, target, inf, ln) == Some(Grown(h, inf))
    ensures h.Expanded? ==>
      var c := ExploreNode(g, h.game, h.player, target, inf, ln);
      (c.Some? && ChildIndex(h.children, c.value.action) == |h.children| ==>
        Expand(g, h, target, inf, ln) == Some(Grown(h, c.value.infoSets)))
  {
  }

  /**
   * A Visited node becomes Expanded: same game, the active player, an
   * empty reach map, and one child per legal action, in order, each the
   * fresh history of the game after that action.
   */
  lemma {:induction false} ExpandVisited<S(!new), A, T>(g: CopilotCore.Game<S, A, T>, h: History<S, A>, target: Player,
                                     inf: InfoSets<A, T>, ln: nat -> real)
    requires DistinctLegal(g) && InfoSetsValid(inf) && h.Visited?
    ensures var r := Expand(g, h, target, inf, ln); var acts := g.legalActions(h.game);
      r.Some? && r.value.history.Expanded? && r.value.history.game == h.game &&
      r.value.history.player == g.activePlayer(h.game) && r.value.history.reach == map[] &&
      |r.value.history.children| == |acts| &&
      (forall i :: 0 <= i < |acts| ==>
        r.value.history.children[i].0 == acts[i] && r.value.history.children[i].1 == NewHistory(g, g.apply(h.game, acts[i]))) &&
      g.trace(h.game, g.activePlayer(h.game)) in r.value.infoSets
  {
  }

  /** Replacing one subtree changes the node count by the difference of the two subtrees' counts. */
  lemma {:induction false} ReplaceSize<S, A>(h: History<S, A>, i: nat, c: History<S, A>, k: nat)
    requires h.Expanded? && i < |h.children| && k <= |h.children|
    ensures var h' := Replace(h, i, c);
      ChildrenSize(h', k) == ChildrenSize(h, k) + (if k <= i then Size(c) - Size(h.children[i].1) else 0)
    decreases |h.children| - k
  {
    if k < |h.children| {
      ReplaceSize(h, i, c, k + 1);
    }
  }

  /** Leaf children count one node each. */
  lemma {:induction false} LeafChildrenSize<S, A>(h: History<S, A>, k: nat)
    requires h.Expanded? && k <= |h.children|
    requires forall j :: 0 <= j < |h.children| ==> !h.children[j].1.Expanded?
    ensures ChildrenSize(h, k) == |h.children| - k
    decreases |h.children| - k
  {
    if k < |h.children| {
      LeafChildrenSize(h, k + 1);
    }
  }

  /**
   * One descent adds nothing to the tree, or exactly one node per legal
   * action of the game at the one Visited node it expands.
   */
  lemma {:induction false} ExpandGrows<S(!new), A, T>(g: CopilotCore.Game<S, A, T>, h: History<S, A>, target: Player,
                                                      inf: InfoSets<A, T>, ln: nat -> real)
    requires DistinctLegal(g) && InfoSetsValid(inf)
    requires Expand(g, h, target, inf, ln).Some?
    ensures var n := Size(Expand(g, h, target, inf, ln).value.history);
      n == Size(h) || exists s :: n == Size(h) + |g.legalActions(s)|
    decreases h
  {
    match h
    case Terminal(_, _, _) =>
    case Visited(s, _, _) =>
      ExpandVisitedSize(g, h, target, inf, ln);
    case Expanded(s, player, children, _) =>
      var c := ExploreNode(g, s, player, target, inf, ln).value;
      var i := ChildIndex(children, c.action);
      if i < |children| {
        var child := children[i];
        assert child in children && child.1 < child;
        ExpandDescends(g, h, target, inf, ln, c, i);
        var rest := Expand(g, child.1, target, c.infoSets, ln).value;
        ExpandGrows(g, child.1, target, c.infoSets, ln);
        ReplaceSize(h, i, rest.history, 0);
      }
  }

  /** Expanding a Visited node adds one node per legal action of its game. */
  lemma {:induction false} ExpandVisitedSize<S(!new), A, T>(g: CopilotCore.Game<S, A, T>, h: History<S, A>, target: Player,
                                                            inf: InfoSets<A, T>, ln: nat -> real)
    requires DistinctLegal(g) && InfoSetsValid(inf) && h.Visited?
    requires Expand(g, h, target, inf, ln).Some?
    ensures Size(Expand(g, h, target, inf, ln).value.history) == Size(h) + |g.legalActions(h.game)|
  {
    LeafChildrenSize(Expand(g, h, target, inf, ln).value.history, 0);
  }

  /** The ancestors of the current node on the descent: each Expanded, with the index of the child taken. */
  predicate PathReady<S, A>(path: seq<(History<S, A>, nat)>)
  {
    forall k :: 0 <= k < |path| ==> path[k].0.Expanded? && path[k].1 < |path[k].0.children|
  }

  /** The tree rebuilt from the deepest ancestor up, with `c` in place of the current node. */
  function Plug<S, A>(path: seq<(History<S, A>, nat)>, c: History<S, A>): History<S, A>
    requires PathReady(path)
    decreases |path|
  {
    if |path| == 0 then c
    else
      var last := path[|path| - 1];
      Plug(path[..|path| - 1], Replace(last.0, last.1, c))
  }

  /** A descent's outcome from the current node, seen from the root. */
  function Lift<S, A, T>(path: seq<(History<S, A>, nat)>, r: Option<Grown<S, A, T>>): Option<Grown<S, A, T>>
    requires PathReady(path)
  {
    match r
    case None => None
    case Some(x) => Some(Grown(Plug(path, x.history), x.infoSets))
  }

  /** Lifting from one level deeper is lifting what the parent sees. */
  lemma {:induction false} LiftSnoc<S, A, T>(path: seq<(History<S, A>, nat)>, h: History<S, A>, i: nat, r: Option<Grown<S, A, T>>)
    requires PathReady(path) && h.Expanded? && i < |h.children|
    ensures PathReady(path + [(h, i)])
    ensures Lift(path + [(h, i)], r) == Lift(path, Within(h, i, r))
  {
    assert (path + [(h, i)])[..|path|] == path;
  }

  /** The descent through an Expanded node whose chosen action has a child continues in that child. */
  lemma {:induction false} ExpandDescends<S(!new), A, T>(g: CopilotCore.Game<S, A, T>, h: History<S, A>, target: Player,
                                                         inf: InfoSets<A, T>, ln: nat -> real, c: Choice<A, T>, i: nat)
    requires DistinctLegal(g) && InfoSetsValid(inf) && h.Expanded?
    requires ExploreNode(g, h.game, h.player, target, inf, ln) == Some(c)
    requires i == ChildIndex(h.children, c.action) && i < |h.children|
    ensures InfoSetsValid(c.infoSets)
    ensures Expand(g, h, target, inf, ln) == Within(h, i, Expand(g, h.children[i].1, target, c.infoSets, ln))
  {
  }

  /**
   * `expand_history_static` as the source runs it: a loop down the
   * Expanded nodes, then the expansion of the node reached, written back
   * into the tree in place.
   */
  method ExpandHistory<S(!new), A(==), T>(g: CopilotCore.Game<S, A, T>, h: History<S, A>, target: Player,
                                          inf0: InfoSets<A, T>, ln: nat -> real)
    returns (r: Option<Grown<S, A, T>>)
    requires DistinctLegal(g) && InfoSetsValid(inf0)
    ensures r == Expand(g, h, target, inf0, ln)
  {
    var current := h;
    var inf := inf0;
    var path: seq<(History<S, A>, nat)> := [];
    while current.Expanded?
      invariant InfoSetsValid(inf) && PathReady(path)
      invariant Expand(g, h, target, inf0, ln) == Lift(path, Expand(g, current, target, inf, ln))
      decreases current
    {
      var choice := ExploreNode(g, current.game, current.player, target, inf, ln);
      if choice.None? {
        return None;
      }
      var i := FindChild(current.children, choice.value.action);
      if i == |current.children| {
        ExpandStops(g, current, target, inf, ln);
        return Some(Grown(Plug(path, current), choice.value.infoSets));
      }
      var child := current.children[i];
      assert child in current.children && child.1 < child;
      ExpandDescends(g, current, target, inf, ln, choice.value, i);
      LiftSnoc(path, current, i, Expand(g, child.1, target, choice.value.infoSets, ln));
      path := path + [(current, i)];
      current := child.1;
      inf := choice.value.infoSets;
    }
    if current.Visited? {
      var player := g.activePlayer(current.game);
      inf := InfoSetFor(g, current.game, player, inf);
      current := Expanded(current.game, player, ChildrenFor(g, current.game, g.legalActions(current.game)), map[]);
    }
    r := Some(Grown(Plug(path, current), inf));
  }

  // ---------------------------------------------------------------------
  // expansion_step

  /** What an expansion or a CFR step changes: the subgame root and the information sets. */
  datatype Solver<S, A, T> = Solver(root: SubgameRoot<S, A, T>, infoSets: InfoSets<A, T>)

  /** The root with history hi of gadget ri replaced. */
  function WithHistory<S, A, T>(root: SubgameRoot<S, A, T>, ri: nat, hi: nat, h: History<S, A>): SubgameRoot<S, A, T>
    requires ri < |root.resolvers| && hi < |root.resolvers[ri].histories|
  {
    var gd := root.resolvers[ri];
    root.(resolvers := root.resolvers[ri := gd.(histories := gd.histories[hi := h])])
  }

  /**
   * `expansion_step`: the root samples a gadget and one of its histories;
   * that history is grown by `expand_history_static` for the target
   * player. Nothing happens when no history is sampled.
   */
  function Expansion<S(!new), A(==), T>(g: CopilotCore.Game<S, A, T>, root: SubgameRoot<S, A, T>, target: Player,
                                        inf: InfoSets<A, T>, ln: nat -> real): (r: Option<Solver<S, A, T>>)
    requires DistinctLegal(g) && RootReady(root) && InfoSetsValid(inf)
    ensures r.Some? ==> RootReady(r.value.root) && InfoSetsValid(r.value.infoSets)
  {
    match SampleHistory(root, ln)
    case None => Some(Solver(root, inf))
    case Some(ix) =>
      match Expand(g, root.resolvers[ix.0].histories[ix.1], target, inf, ln)
      case None => None
      case Some(x) => Some(Solver(WithHistory(root, ix.0, ix.1, x.history), x.infoSets))
  }

  /** The expansion step on a subgame: one history is sampled and grown in place; performs `Expansion`. */
  method RunExpansion<S(!new), A(==), T>(g: CopilotCore.Game<S, A, T>, root: SubgameRoot<S, A, T>, target: Player,
                                         inf: InfoSets<A, T>, ln: nat -> real) returns (r: Option<Solver<S, A, T>>)
    requires DistinctLegal(g) && RootReady(root) && InfoSetsValid(inf)
    ensures r == Expansion(g, root, target, inf, ln)
  {
    var indices := SampleHistory(root, ln);
    if indices.None? {
      return Some(Solver(root, inf));
    }
    var ri, hi := indices.value.0, indices.value.1;
    var grown := ExpandHistory(g, root.resolvers[ri].histories[hi], target, inf, ln);
    if grown.None? {
      return None;
    }
    r := Some(Solver(WithHistory(root, ri, hi, grown.value.history), grown.value.infoSets));
  }

  /** Gadget by gadget, `rs` is `before` with at most history hi of gadget ri changed. */
  ghost predicate OnlyChanged<S, A, T>(before: seq<Gadget<S, A, T>>, rs: seq<Gadget<S, A, T>>, ri: nat, hi: nat)
  {
    |rs| == |before| &&
    forall i :: 0 <= i < |rs| ==>
      rs[i] == before[i].(histories := rs[i].histories) &&
      |rs[i].histories| == |before[i].histories| &&
      forall j :: 0 <= j < |rs[i].histories| && (i, j) != (ri, hi) ==> rs[i].histories[j] == before[i].histories[j]
  }

  /** Replacing one history changes nothing else, and keeps the number of histories. */
  lemma {:induction false} WithHistoryFrame<S, A, T>(root: SubgameRoot<S, A, T>, ri: nat, hi: nat, h: History<S, A>)
    requires ri < |root.resolvers| && hi < |root.resolvers[ri].histories|
    ensures var r := WithHistory(root, ri, hi, h);
      OnlyChanged(root.resolvers, r.resolvers, ri, hi) && r.maxmargin == root.maxmargin && r.player == root.player &&
      TotalHistories(r) == TotalHistories(root)
  {
    var rs := WithHistory(root, ri, hi, h).resolvers;
    forall i | 0 <= i < |rs|
      ensures rs[i] == root.resolvers[i].(histories := rs[i].histories)
      ensures |rs[i].histories| == |root.resolvers[i].histories|
      ensures forall j :: 0 <= j < |rs[i].histories| && (i, j) != (ri, hi) ==> rs[i].histories[j] == root.resolvers[i].histories[j]
    {
      if i != ri {
        assert rs[i] == root.resolvers[i];
      }
    }
    var r := WithHistory(root, ri, hi, h);
    assert seq(|r.resolvers|, i requires 0 <= i < |r.resolvers| => |r.resolvers[i].histories|)
        == seq(|root.resolvers|, i requires 0 <= i < |root.resolvers| => |root.resolvers[i].histories|);
  }

  /**
   * An expansion changes only the sampled history: every gadget keeps its
   * policies, prior, value and trace, every other history stays, the
   * max-margin policy stays, and so does the number of histories. Without
   * a sampled history nothing changes.
   */
  lemma {:induction false} ExpansionTouchesOne<S(!new), A, T>(g: CopilotCore.Game<S, A, T>, root: SubgameRoot<S, A, T>, target: Player,
                                           inf: InfoSets<A, T>, ln: nat -> real)
    requires DistinctLegal(g) && RootReady(root) && InfoSetsValid(inf)
    ensures var r := Expansion(g, root, target, inf, ln); var ix := SampleHistory(root, ln);
      (ix.None? ==> r == Some(Solver(root, inf))) &&
      (ix.Some? && r.Some? ==>
        OnlyChanged(root.resolvers, r.value.root.resolvers, ix.value.0, ix.value.1) &&
        r.value.root.maxmargin == root.maxmargin && r.value.root.player == root.player &&
        TotalHistories(r.value.root) == TotalHistories(root))
  {
    var ix := SampleHistory(root, ln);
    if ix.Some? {
      var h := root.resolvers[ix.value.0].histories[ix.value.1];
      var e := Expand(g, h, target, inf, ln);
      if e.Some? {
        WithHistoryFrame(root, ix.value.0, ix.value.1, e.value.history);
      }
    }
  }

  // ---------------------------------------------------------------------
  // cfr_step

  /** What a CFR step reads and writes: the information sets, the subgame, the iteration count and the expected value. */
  datatype StudyState<S, A, T> = StudyState(infoSets: InfoSets<A, T>, subgameRoot: Option<SubgameRoot<S, A, T>>,
                                            totalIterations: nat, expectedValue: real)

  ghost predicate StudyReady<S, A, T>(st: StudyState<S, A, T>)
  {
    InfoSetsValid(st.infoSets) && (st.subgameRoot.Some? ==> RootReady(st.subgameRoot.value))
  }

  /** The value `cfr_step` reports: P1's total for P1, minus P2's total otherwise. */
  function Reported(player: Player, totalOne: real, totalTwo: real): real
  {
    if player == P1 then totalOne else -totalTwo
  }

  /**
   * `cfr_step` on the solver state: without a subgame nothing changes.
   * Otherwise the iteration count grows by one, one `cfr_iteration` runs
   * for P1 and then one for P2 on what it left, both with the new count,
   * and the expected value is P1's total for P1 and the negation of P2's
   * total otherwise.
   */
  function CfrStepState<S(!new), A(==), T>(g: CopilotCore.Game<S, A, T>, st: StudyState<S, A, T>, player: Player): (r: StudyState<S, A, T>)
    requires DistinctLegal(g) && StudyReady(st)
    ensures StudyReady(r) && r.subgameRoot.Some? == st.subgameRoot.Some?
    ensures r.totalIterations == st.totalIterations + (if st.subgameRoot.Some? then 1 else 0)
    ensures st.subgameRoot.Some? ==> |r.subgameRoot.value.resolvers| == |st.subgameRoot.value.resolvers|
    ensures st.subgameRoot.Some? ==> r.subgameRoot.value.player == st.subgameRoot.value.player
  {
    if st.subgameRoot.None? then st
    else
      var one := CfrIterationOf(g, st.subgameRoot.value, P1, st.infoSets, st.totalIterations + 1);
      var two := CfrIterationOf(g, one.root, P2, one.infoSets, st.totalIterations + 1);
      StudyState(two.infoSets, Some(two.root), st.totalIterations + 1, Reported(player, one.total, two.total))
  }

  /** `cfr_step`'s work on the solver state: the two iterations, one after the other. */
  method RunCfrStep<S(!new), A(==), T>(g: CopilotCore.Game<S, A, T>, st: StudyState<S, A, T>, player: Player) returns (r: StudyState<S, A, T>)
    requires DistinctLegal(g) && StudyReady(st)
    ensures r == CfrStepState(g, st, player)
  {
    if st.subgameRoot.None? {
      return st;
    }
    var iteration := st.totalIterations + 1;
    var one := CfrIteration(g, st.subgameRoot.value, P1, st.infoSets, iteration);
    r := FinishCfrStep(g, st, player, one);
  }

  /** The second half of a CFR step: P2's iteration on what P1's left. */
  method FinishCfrStep<S(!new), A(==), T>(g: CopilotCore.Game<S, A, T>, st: StudyState<S, A, T>, player: Player, one: Iteration<S, A, T>)
    returns (r: StudyState<S, A, T>)
    requires DistinctLegal(g) && StudyReady(st) && st.subgameRoot.Some?
    requires one == CfrIterationOf(g, st.subgameRoot.value, P1, st.infoSets, st.totalIterations + 1)
    ensures r == CfrStepState(g, st, player)
  {
    var two := CfrIteration(g, one.root, P2, one.infoSets, st.totalIterations + 1);
    r := StudyState(two.infoSets, Some(two.root), st.totalIterations + 1, Reported(player, one.total, two.total));
    CfrStepIs(g, st, player);
  }

  /** The value a CFR step reports is one of its two iterations' totals. */
  lemma {:induction false} CfrStepTotals<S(!new), A, T>(g: CopilotCore.Game<S, A, T>, st: StudyState<S, A, T>, player: Player)
    requires DistinctLegal(g) && StudyReady(st) && st.subgameRoot.Some?
    ensures var one := CfrIterationOf(g, st.subgameRoot.value, P1, st.infoSets, st.totalIterations + 1);
      var two := CfrIterationOf(g, one.root, P2, one.infoSets, st.totalIterations + 1);
      var v := CfrStepState(g, st, player).expectedValue;
      (player == P1 ==> v == one.total) && (player != P1 ==> v == -two.total)
  {
  }

  /** With a subgame, a CFR step leaves the root and information sets of P2's iteration. */
  lemma {:induction false} CfrStepLeaves<S(!new), A, T>(g: CopilotCore.Game<S, A, T>, st: StudyState<S, A, T>, player: Player)
    requires DistinctLegal(g) && StudyReady(st) && st.subgameRoot.Some?
    ensures var one := CfrIterationOf(g, st.subgameRoot.value, P1, st.infoSets, st.totalIterations + 1);
      var two := CfrIterationOf(g, one.root, P2, one.infoSets, st.totalIterations + 1);
      var r := CfrStepState(g, st, player);
      r.infoSets == two.infoSets && r.subgameRoot == Some(two.root)
  {
  }

  /** With a subgame, a CFR step's state is read off its two iterations. */
  lemma {:induction false} CfrStepIs<S(!new), A, T>(g: CopilotCore.Game<S, A, T>, st: StudyState<S, A, T>, player: Player)
    requires DistinctLegal(g) && StudyReady(st) && st.subgameRoot.Some?
    ensures var one := CfrIterationOf(g, st.subgameRoot.value, P1, st.infoSets, st.totalIterations + 1);
      var two := CfrIterationOf(g, one.root, P2, one.infoSets, st.totalIterations + 1);
      CfrStepState(g, st, player) ==
        StudyState(two.infoSets, Some(two.root), st.totalIterations + 1, Reported(player, one.total, two.total))
  {
    CfrStepTotals(g, st, player);
    CfrStepLeaves(g, st, player);
  }

  /**
   * The value a CFR step reports for P1 is P1's prior-weighted gain over
   * the gadgets; for any other player it is minus P2's gain, taken on the
   * root P1's iteration left.
   */
  lemma {:induction false} CfrStepValue<S(!new), A, T>(g: CopilotCore.Game<S, A, T>, st: StudyState<S, A, T>, player: Player)
    requires DistinctLegal(g) && StudyReady(st) && st.subgameRoot.Some?
    ensures var root := st.subgameRoot.value;
      var one := CfrIterationOf(g, root, P1, st.infoSets, st.totalIterations + 1);
      var two := CfrIterationOf(g, one.root, P2, one.infoSets, st.totalIterations + 1);
      var v := CfrStepState(g, st, player).expectedValue;
      (player == P1 ==> v == PriorWeightedGain(root.resolvers, root.maxmargin.regrets, one.root.maxmargin.regrets, 0)) &&
      (player != P1 ==> v == -PriorWeightedGain(one.root.resolvers, one.root.maxmargin.regrets, two.root.maxmargin.regrets, 0))
  {
    var root := st.subgameRoot.value;
    var one := CfrIterationOf(g, root, P1, st.infoSets, st.totalIterations + 1);
    CfrStepTotals(g, st, player);
    if player == P1 {
      CfrIterationTotal(g, root, P1, st.infoSets, st.totalIterations + 1);
    } else {
      CfrIterationTotal(g, one.root, P2, one.infoSets, st.totalIterations + 1);
    }
  }

  // ---------------------------------------------------------------------
  // select_action, get_policy, save_tree

  /**
   * `select_action`: with an information set for the observation, the last
   * action of largest average probability (Rust's `max_by`), a panic when
   * it has no actions; without one, the first legal action of a new game,
   * a panic when there is none.
   */
  function SelectActionOf<S, A(==), T>(g: CopilotCore.Game<S, A, T>, inf: InfoSets<A, T>, observation: T): (r: Option<A>)
    requires InfoSetsValid(inf)
  {
    if observation in inf then
      var p := inf[observation].policy;
      if |p.actions| == 0 then None else Some(p.actions[LastArgMax(AverageStrategy(p))])
    else
      var acts := g.legalActions(g.start);
      if |acts| == 0 then None else Some(acts[0])
  }

  /**
   * The selected action of a known information set is one of its actions,
   * no action has a larger average probability and every later action a
   * smaller one; for an unknown observation it is the first legal action
   * of a new game; a panic happens exactly when the list to choose from is
   * empty.
   */
  lemma {:induction false} SelectActionProperties<S, A, T>(g: CopilotCore.Game<S, A, T>, inf: InfoSets<A, T>, observation: T)
    requires InfoSetsValid(inf)
    ensures var r := SelectActionOf(g, inf, observation);
      (observation in inf ==>
        var p := inf[observation].policy; var avg := AverageStrategy(p);
        (r.None? <==> |p.actions| == 0) &&
        (r.Some? ==> exists k :: 0 <= k < |p.actions| && r.value == p.actions[k] && IsLastArgMax(avg, k))) &&
      (observation !in inf ==>
        var acts := g.legalActions(g.start);
        (r.None? <==> |acts| == 0) && (r.Some? ==> r.value == acts[0]))
  {
    if observation in inf && |inf[observation].policy.actions| > 0 {
      var p := inf[observation].policy;
      var k := LastArgMax(AverageStrategy(p));
      assert SelectActionOf(g, inf, observation) == Some(p.actions[k]);
    }
  }

  /** `get_policy`: the average strategy of the trace's information set, if there is one. */
  function PolicyOf<A(==), T>(inf: InfoSets<A, T>, t: T): (r: Option<seq<real>>)
    requires InfoSetsValid(inf)
    ensures r.Some? <==> t in inf
    ensures r.Some? ==> |r.value| == |inf[t].policy.actions|
  {
    if t in inf then Some(AverageStrategy(inf[t].policy)) else None
  }

  /** A known information set with actions and non-negative strategy weights yields a distribution over its actions. */
  lemma {:induction false} PolicyOfIsDistribution<A, T>(inf: InfoSets<A, T>, t: T)
    requires InfoSetsValid(inf) && t in inf && |inf[t].policy.actions| > 0 && NonNegative(inf[t].policy.weights)
    ensures IsDistribution(PolicyOf(inf, t).value)
  {
    AverageStrategyProperties(inf[t].policy);
  }

  /** The histories of all gadgets, gadget by gadget, in order (`flat_map`). */
  function AllHistories<S, A, T>(rs: seq<Gadget<S, A, T>>): seq<History<S, A>>
    decreases |rs|
  {
    if |rs| == 0 then [] else AllHistories(rs[..|rs| - 1]) + rs[|rs| - 1].histories
  }

  function HistoryCounts<S, A, T>(rs: seq<Gadget<S, A, T>>): (ns: seq<nat>)
    ensures |ns| == |rs| && forall i :: 0 <= i < |rs| ==> ns[i] == |rs[i].histories|
  {
    seq(|rs|, i requires 0 <= i < |rs| => |rs[i].histories|)
  }

  /** The saved tree holds exactly as many histories as the gadgets. */
  lemma {:induction false} AllHistoriesCount<S, A, T>(rs: seq<Gadget<S, A, T>>)
    ensures |AllHistories(rs)| == NatSum(HistoryCounts(rs))
    decreases |rs|
  {
    if |rs| > 0 {
      AllHistoriesCount(rs[..|rs| - 1]);
      assert HistoryCounts(rs)[..|rs| - 1] == HistoryCounts(rs[..|rs| - 1]);
    }
  }

  /** Every history of every gadget is in the saved tree, at the offset of its gadget. */
  lemma {:induction false} AllHistoriesMembers<S, A, T>(rs: seq<Gadget<S, A, T>>, i: nat, j: nat)
    requires i < |rs| && j < |rs[i].histories|
    ensures NatSum(HistoryCounts(rs[..i])) + j < |AllHistories(rs)|
    ensures AllHistories(rs)[NatSum(HistoryCounts(rs[..i])) + j] == rs[i].histories[j]
    decreases |rs|
  {
    var n := |rs|;
    if i < n - 1 {
      AllHistoriesMembers(rs[..n - 1], i, j);
      assert rs[..n - 1][..i] == rs[..i];
    } else {
      AllHistoriesCount(rs[..i]);
      assert rs[..i] == rs[..n - 1];
    }
  }

  /** The saved tree of a root holds `total_histories` histories. */
  lemma {:induction false} SavedTreeSize<S, A, T>(root: SubgameRoot<S, A, T>)
    ensures |AllHistories(root.resolvers)| == TotalHistories(root)
  {
    AllHistoriesCount(root.resolvers);
    assert HistoryCounts(root.resolvers)
        == seq(|root.resolvers|, i requires 0 <= i < |root.resolvers| => |root.resolvers[i].histories|);
  }

  // ---------------------------------------------------------------------
  // Obscuro

  /**
   * The search object. `infoSets` is the map of shared information sets,
   * `subgameRoot` the current subgame if one was built, `savedTree` the
   * histories kept for the next move.
   */
  class Obscuro<S(!new), A(==), T(==)> {
    const game: CopilotCore.Game<S, A, T>
    var config: Config
    var infoSets: InfoSets<A, T>
    var subgameRoot: Option<SubgameRoot<S, A, T>>
    var totalIterations: nat
    var savedTree: seq<History<S, A>>
    var expectedValue: real

    /** The policies are well formed, and so is the subgame root if there is one. */
    ghost predicate Valid()
      reads this
    {
      DistinctLegal(game) && InfoSetsValid(infoSets) && (subgameRoot.Some? ==> RootReady(subgameRoot.value))
    }

    /** The part of the solver a CFR step changes. */
    ghost function Study(): StudyState<S, A, T>
      reads this
    {
      StudyState(infoSets, subgameRoot, totalIterations, expectedValue)
    }

    /** `Obscuro::with_config`: no information sets, no subgame, no iterations, the saved tree the root of a new game. */
    constructor WithConfig(g: CopilotCore.Game<S, A, T>, config: Config)
      requires DistinctLegal(g)
      ensures Valid() && game == g && this.config == config
      ensures infoSets == map[] && subgameRoot == None && totalIterations == 0
      ensures savedTree == [NewHistory(g, g.start)] && expectedValue == 0.0
    {
      game := g;
      this.config := config;
      infoSets := map[];
      subgameRoot := None;
      totalIterations := 0;
      savedTree := [NewHistory(g, g.start)];
      expectedValue := 0.0;
    }

    /** `Obscuro::new`: the default configuration. */
    constructor (g: CopilotCore.Game<S, A, T>)
      requires DistinctLegal(g)
      ensures Valid() && game == g && config == DefaultConfig()
      ensures infoSets == map[] && subgameRoot == None && totalIterations == 0
      ensures savedTree == [NewHistory(g, g.start)] && expectedValue == 0.0
    {
      game := g;
      config := DefaultConfig();
      infoSets := map[];
      subgameRoot := None;
      totalIterations := 0;
      savedTree := [NewHistory(g, g.start)];
      expectedValue := 0.0;
    }

    /**
     * The method `construct_subgame`: the saved tree is taken (leaving it
     * empty), pruned to the histories comparable with the observation, and
     * turned into positions and then into a new subgame root.
     */
    method ConstructSubgame(observation: T, player: Player, samples: seq<S>)
      requires Valid() && player != Chance
      modifies this
      ensures Valid() && savedTree == []
      ensures subgameRoot == Some(NewRoot(CS.SubgamePositions(game, CS.PruneOldTree(game, old(savedTree), observation, player),
                                                              observation, player, config.minPositions, config.kDepth, samples), player))
      ensures config == old(config) && infoSets == old(infoSets) && totalIterations == old(totalIterations)
      ensures expectedValue == old(expectedValue)
    {
      var oldTree := savedTree;
      savedTree := [];
      var filtered := CS.PruneOldTree(game, oldTree, observation, player);
      var positions := CS.ConstructSubgame(game, filtered, observation, player, config.minPositions, config.kDepth, samples);
      subgameRoot := Some(NewRoot(positions, player));
    }

    /**
     * `expansion_step` for the studying player: without a subgame nothing
     * happens; otherwise the sampled history is grown in place. `ok` is
     * false where the source panics, and then nothing changes.
     */
    method ExpansionStep(player: Player, ln: nat -> real) returns (ok: bool)
      requires Valid()
      modifies this
      ensures Valid()
      ensures old(subgameRoot).None? ==> ok && subgameRoot == old(subgameRoot) && infoSets == old(infoSets)
      ensures old(subgameRoot).Some? ==>
        var r := Expansion(game, old(subgameRoot).value, player, old(infoSets), ln);
        ok == r.Some? &&
        (ok ==> subgameRoot == Some(r.value.root) && infoSets == r.value.infoSets) &&
        (!ok ==> subgameRoot == old(subgameRoot) && infoSets == old(infoSets))
      ensures config == old(config) && totalIterations == old(totalIterations) && savedTree == old(savedTree)
      ensures expectedValue == old(expectedValue)
    {
      ok := true;
      if subgameRoot.None? {
        return;
      }
      var r := RunExpansion(game, subgameRoot.value, player, infoSets, ln);
      if r.None? {
        ok := false;
        return;
      }
      subgameRoot := Some(r.value.root);
      infoSets := r.value.infoSets;
    }

    /**
     * `cfr_step`: without a subgame nothing happens; otherwise the
     * iteration count grows by one and both players' iterations run with
     * it, and the expected value becomes P1's total for P1 and minus P2's
     * total otherwise.
     */
    method CfrStep(player: Player)
      requires Valid()
      modifies this
      ensures Valid()
      ensures Study() == CfrStepState(game, old(Study()), player)
      ensures config == old(config) && savedTree == old(savedTree)
    {
      var st := StudyState(infoSets, subgameRoot, totalIterations, expectedValue);
      st := RunCfrStep(game, st, player);
      infoSets, subgameRoot, totalIterations, expectedValue := st.infoSets, st.subgameRoot, st.totalIterations, st.expectedValue;
    }

    /**
     * One round of the `study_position` loop: an expansion step, then the
     * configured number of CFR steps; `stop` says the tree outgrew the
     * configured size. `ok` is false where the expansion panics.
     */
    method StudyRound(player: Player, ln: nat -> real) returns (ok: bool, stop: bool)
      requires Valid()
      modifies this
      ensures Valid()
      ensures ok ==> totalIterations == old(totalIterations) + (if old(subgameRoot).Some? then config.cfrIterationsPerExpansion else 0)
      ensures ok ==> (stop <==> subgameRoot.Some? && TreeSize(subgameRoot.value) > config.maxTreeSize)
      ensures subgameRoot.Some? == old(subgameRoot).Some?
      ensures config == old(config) && savedTree == old(savedTree)
    {
      stop := false;
      ok := ExpansionStep(player, ln);
      if !ok {
        return;
      }
      for n := 0 to config.cfrIterationsPerExpansion
        invariant Valid() && config == old(config) && savedTree == old(savedTree)
        invariant subgameRoot.Some? == old(subgameRoot).Some?
        invariant totalIterations == old(totalIterations) + (if subgameRoot.Some? then n else 0)
      {
        CfrStep(player);
      }
      stop := subgameRoot.Some? && TreeSize(subgameRoot.value) > config.maxTreeSize;
    }

    /** `select_action`, scanning the average strategy for its last maximum. */
    method SelectAction(observation: T) returns (r: Option<A>)
      requires Valid()
      ensures r == SelectActionOf(game, infoSets, observation)
    {
      if observation !in infoSets {
        var acts := game.legalActions(game.start);
        r := if |acts| == 0 then None else Some(acts[0]);
        return;
      }
      var p := infoSets[observation].policy;
      if |p.actions| == 0 {
        return None;
      }
      var avg := AverageStrategy(p);
      var best := 0;
      for i := 1 to |avg|
        invariant IsLastArgMax(avg[..i], best)
      {
        assert avg[..i + 1][..i] == avg[..i];
        if avg[i] >= avg[best] {
          best := i;
        }
      }
      assert avg[..|avg|] == avg;
      LastArgMaxUnique(avg, best);
      r := Some(p.actions[best]);
    }

    /** `save_tree`: with a subgame, the saved tree becomes every gadget's histories, gadget by gadget. */
    method SaveTree()
      requires Valid()
      modifies this
      ensures Valid()
      ensures old(subgameRoot).Some? ==> savedTree == AllHistories(old(subgameRoot).value.resolvers)
      ensures old(subgameRoot).None? ==> savedTree == old(savedTree)
      ensures config == old(config) && infoSets == old(infoSets) && subgameRoot == old(subgameRoot)
      ensures totalIterations == old(totalIterations) && expectedValue == old(expectedValue)
    {
      if subgameRoot.None? {
        return;
      }
      var rs := subgameRoot.value.resolvers;
      var all: seq<History<S, A>> := [];
      for i := 0 to |rs|
        invariant all == AllHistories(rs[..i])
      {
        assert rs[..i + 1][..i] == rs[..i];
        all := all + rs[i].histories;
      }
      assert rs[..|rs|] == rs;
      savedTree := all;
    }
  }
}
