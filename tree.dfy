// The game tree of the current Rust solver (src/history.rs) and its
// information sets (src/info.rs).
//
// A history is Terminal (a payoff), Visited (a state with its static
// evaluation and reach map), or Expanded (children per action, the acting
// player, and the infoset it belongs to). Infosets are shared between
// histories through `Rc<RefCell<Info>>` in a map keyed by the hero's trace;
// here a history names its infoset by that key, and the map of infoset
// states is passed beside the tree. Operations that replace `*self` return
// the new node.
module SolverTree {
  import opened Wrappers
  import opened Players
  import opened Reals
  import CP = CfrPolicy

  /** The probability each player contributes to reaching a node; an absent player contributes nothing yet. */
  type Reach = map<Player, real>

  /** `reach.get(p).unwrap_or(d)`. */
  function Get(r: Reach, p: Player, d: real): real
  {
    if p in r then r[p] else d
  }

  datatype History<S, A, T> =
    | Terminal(payoff: real)
    | Visited(state: S, payoff: real, reach: Reach)
    | Expanded(info: T, reach: Reach, children: seq<(A, History<S, A, T>)>, player: Player, villainTrace: T)

  /** The state of one infoset: its policy, trace, acting player, summed reach and cached gift. */
  datatype InfoState<A, T> = InfoState(policy: CP.PolicyState<A>, trace: T, player: Player, reach: Reach, giftCached: Option<real>)

  /** The infoset map, keyed by the hero's trace. */
  type Infosets<A, T> = map<T, InfoState<A, T>>

  /** Every infoset is stored under its own trace and has a well-formed policy. */
  predicate WellKeyed<A, T>(infosets: Infosets<A, T>)
  {
    forall t :: t in infosets ==> infosets[t].trace == t && infosets[t].policy.Valid()
  }

  // ---------------------------------------------------------------------
  // Construction and queries

  /** `History::new`: Terminal exactly when the game is over, else Visited with the given reach; the payoff is the evaluation. */
  function New<S, A, T>(g: Game<S, A, T>, s: S, reach: Reach): (h: History<S, A, T>)
    ensures h.Terminal? <==> g.isOver(s)
    ensures h.Terminal? || h.Visited?
    ensures h.payoff == g.evaluate(s)
    ensures h.Visited? ==> h.state == s && h.reach == reach
  {
    if g.isOver(s) then Terminal(g.evaluate(s)) else Visited(s, g.evaluate(s), reach)
  }

  /** `reach_prob(p)`: the player's entry, 1 when absent; Terminal histories have none (the source panics). */
  function ReachProb<S, A, T>(h: History<S, A, T>, p: Player): real
    requires !h.Terminal?
  {
    Get(h.reach, p, 1.0)
  }

  /** The product of the entries of the players in `ps` that are present in the map. */
  function PresentProduct(r: Reach, ps: seq<Player>): real
  {
    if |ps| == 0 then 1.0
    else (if ps[0] in r then r[ps[0]] else 1.0) * PresentProduct(r, ps[1..])
  }

  /** `net_reach_prob`: the product of the reach map's values, 1 for an empty map. */
  function NetReachProb<S, A, T>(h: History<S, A, T>): real
    requires !h.Terminal?
  {
    PresentProduct(h.reach, [P1, P2, Chance])
  }

  /** The net reach is the product of the three players' reach probabilities; it is 1 with an empty map and non-negative with non-negative entries. */
  lemma {:induction false} NetReachIsProduct<S, A, T>(h: History<S, A, T>)
    requires !h.Terminal?
    ensures NetReachProb(h) == ReachProb(h, P1) * ReachProb(h, P2) * ReachProb(h, Chance)
    ensures h.reach == map[] ==> NetReachProb(h) == 1.0
    ensures (forall p :: p in h.reach ==> h.reach[p] >= 0.0) ==> NetReachProb(h) >= 0.0
  {
    var r := h.reach;
    ThreeProduct(r);
    if forall p :: p in r ==> r[p] >= 0.0 {
      ThreeNonNegative(Get(r, P1, 1.0), Get(r, P2, 1.0), Get(r, Chance, 1.0));
    }
  }

  /** Unfolding the product over the three players. */
  lemma {:induction false} ThreeProduct(r: Reach)
    ensures PresentProduct(r, [P1, P2, Chance]) == Get(r, P1, 1.0) * Get(r, P2, 1.0) * Get(r, Chance, 1.0)
  {
    assert [P1, P2, Chance][1..] == [P2, Chance];
    assert [P2, Chance][1..] == [Chance];
    assert [Chance][1..] == [];
    assert PresentProduct(r, [Chance]) == Get(r, Chance, 1.0) * PresentProduct(r, []);
    assert PresentProduct(r, [P2, Chance]) == Get(r, P2, 1.0) * PresentProduct(r, [Chance]);
    assert PresentProduct(r, [P1, P2, Chance]) == Get(r, P1, 1.0) * PresentProduct(r, [P2, Chance]);
  }

  lemma {:induction false} ThreeNonNegative(a: real, b: real, c: real)
    requires a >= 0.0 && b >= 0.0 && c >= 0.0
    ensures a * b * c >= 0.0
  {
    assert a * b >= 0.0;
  }

  /** `size`: 1 for a leaf, 1 + the children's sizes for an Expanded node. */
  function Size<S, A, T>(h: History<S, A, T>): (n: nat)
    ensures n >= 1
    ensures !h.Expanded? ==> n == 1
    decreases h, 1
  {
    if h.Expanded? then 1 + ChildrenSize(h, 0) else 1
  }

  /** The summed sizes of the children from index `k` on. */
  function ChildrenSize<S, A, T>(h: History<S, A, T>, k: nat): (n: nat)
    requires h.Expanded? && k <= |h.children|
    ensures n >= |h.children| - k
    decreases h, 0, |h.children| - k
  {
    if k == |h.children| then 0
    else
      assert h.children[k] in h.children;
      Size(h.children[k].1) + ChildrenSize(h, k + 1)
  }

  /** The acting player's trace: a Visited state's trace for its active player; an Expanded node's infoset trace. Terminal histories have none. */
  function Trace<S, A, T>(g: Game<S, A, T>, h: History<S, A, T>): T
    requires !h.Terminal?
  {
    match h
    case Visited(s, _, _) => g.trace(s, g.activePlayer(s))
    case Expanded(info, _, _, _, _) => info
  }

  /** `History::identifier`: the acting player's and the other player's traces; Terminal histories have none. */
  function HistoryIdentifier<S, A, T>(g: Game<S, A, T>, h: History<S, A, T>): (id: (T, T))
    requires !h.Terminal?
    ensures id.0 == Trace(g, h)
  {
    match h
    case Visited(s, _, _) => (g.trace(s, g.activePlayer(s)), g.trace(s, Other(g.activePlayer(s))))
    case Expanded(info, _, _, _, villain) => (info, villain)
  }

  /** `payoff`: the stored payoff of a leaf, the expectation of the infoset's policy for an Expanded node. */
  function Payoff<S, A, T>(h: History<S, A, T>, infosets: Infosets<A, T>): real
    requires h.Expanded? ==> h.info in infosets && infosets[h.info].policy.Valid()
  {
    match h
    case Expanded(info, _, _, _, _) => CP.Expectation(infosets[info].policy)
    case _ => h.payoff
  }

  // ---------------------------------------------------------------------
  // Expansion

  /** A child's reach: the mover's entry is multiplied by 1/n, or set to 1/n when absent; the rest is copied. */
  function ChildReach(reach: Reach, me: Player, n: nat): (r: Reach)
    requires n > 0
    ensures r.Keys == reach.Keys + {me}
    ensures forall p :: p in reach && p != me ==> r[p] == reach[p]
  {
    reach[me := Get(reach, me, 1.0) * (1.0 / (n as real))]
  }

  /** The mover's reach probability is divided by the number of actions; every other player's is kept. */
  lemma {:induction false} ChildReachDivides(reach: Reach, me: Player, n: nat, p: Player)
    requires n > 0
    ensures Get(ChildReach(reach, me, n), p, 1.0) * (if p == me then n as real else 1.0) == Get(reach, p, 1.0)
  {
    if p == me {
      var x := Get(reach, me, 1.0);
      assert x * (1.0 / (n as real)) * (n as real) == x;
    }
  }

  /** The children of a Visited state: one per available action, in order, each a new history with the child reach. */
  function Kids<S, A, T>(g: Game<S, A, T>, s: S, reach: Reach): (kids: seq<(A, History<S, A, T>)>)
    ensures |kids| == |g.availableActions(s)|
    ensures forall i :: 0 <= i < |kids| ==>
      kids[i] == (g.availableActions(s)[i], New(g, g.play(s, g.availableActions(s)[i]), ChildReach(reach, g.activePlayer(s), |kids|)))
    ensures forall i :: 0 <= i < |kids| ==> !kids[i].1.Expanded?
  {
    var actions := g.availableActions(s);
    seq(|actions|, i requires 0 <= i < |actions| =>
      (actions[i], New(g, g.play(s, actions[i]), ChildReach(reach, g.activePlayer(s), |actions|))))
  }

  /** The (action, payoff) pairs a new infoset's policy starts from. */
  function KidRewards<S, A, T>(kids: seq<(A, History<S, A, T>)>): (items: seq<(A, real)>)
    requires forall i :: 0 <= i < |kids| ==> !kids[i].1.Expanded?
    ensures |items| == |kids| && forall i :: 0 <= i < |kids| ==> items[i] == (kids[i].0, kids[i].1.payoff)
  {
    seq(|kids|, i requires 0 <= i < |kids| && !kids[i].1.Expanded? => (kids[i].0, kids[i].1.payoff))
  }

  /** The evaluations after every action lie in [-5, 5], the range `from_rewards` asserts. */
  predicate ChildEvaluationsInRange<S, A, T>(g: Game<S, A, T>, s: S)
  {
    forall i :: 0 <= i < |g.availableActions(s)| ==> -5.0 <= g.evaluate(g.play(s, g.availableActions(s)[i])) <= 5.0
  }

  /** The hero's trace and the villain's trace of the state, as `Game::identifier` gives them. */
  function HeroTrace<S, A, T>(g: Game<S, A, T>, s: S): T
  {
    Identifier(g, s).0
  }

  /**
   * `expand` of a Visited node: the children as above; the infoset stored
   * under the hero's trace is reused, or a new one is inserted whose
   * policy starts from the children's payoffs; the node becomes Expanded
   * with an empty reach map. Any other node makes the source panic.
   */
  function ExpandSpec<S, A, T>(g: Game<S, A, T>, h: History<S, A, T>, infosets: Infosets<A, T>): (r: (History<S, A, T>, Infosets<A, T>))
    requires h.Visited?
    requires HeroTrace(g, h.state) !in infosets ==> ChildEvaluationsInRange(g, h.state)
  {
    var s := h.state;
    var hero := g.activePlayer(s);
    var id := Identifier(g, s);
    var kids := Kids(g, s, h.reach);
    var infosets' :=
      if id.0 in infosets then infosets
      else
        assert CP.RewardsInRange(KidRewards(kids)) by {
          forall i | 0 <= i < |kids|
            ensures -5.0 <= KidRewards(kids)[i].1 <= 5.0
          {
            assert kids[i].0 == g.availableActions(s)[i];
          }
        }
        infosets[id.0 := InfoState(CP.RewardPolicy(KidRewards(kids), hero), id.0, hero, map[], None)];
    (Expanded(id.0, map[], kids, hero, id.1), infosets')
  }

  /**
   * `expand`, with the loop that builds the children. The node and the
   * infoset map are returned instead of being replaced in place.
   */
  method Expand<S, A, T>(g: Game<S, A, T>, h: History<S, A, T>, infosets: Infosets<A, T>)
    returns (h': History<S, A, T>, infosets': Infosets<A, T>)
    requires h.Visited?
    requires HeroTrace(g, h.state) !in infosets ==> ChildEvaluationsInRange(g, h.state)
    ensures (h', infosets') == ExpandSpec(g, h, infosets)
  {
    var s := h.state;
    var me := g.activePlayer(s);
    var actions := g.availableActions(s);
    var id := Identifier(g, s);
    var kids: seq<(A, History<S, A, T>)> := [];
    for i := 0 to |actions|
      invariant kids == Kids(g, s, h.reach)[..i]
    {
      var next := g.play(s, actions[i]);
      var nextReach := ChildReach(h.reach, me, |actions|);
      assert Kids(g, s, h.reach)[..i + 1] == Kids(g, s, h.reach)[..i] + [(actions[i], New(g, next, nextReach))];
      kids := kids + [(actions[i], New(g, next, nextReach))];
    }
    assert kids == Kids(g, s, h.reach);
    if id.0 in infosets {
      infosets' := infosets;
    } else {
      var items := KidRewards(kids);
      assert CP.RewardsInRange(items) by {
        forall i | 0 <= i < |kids|
          ensures -5.0 <= items[i].1 <= 5.0
        {
          assert kids[i].0 == g.availableActions(s)[i];
        }
      }
      infosets' := infosets[id.0 := InfoState(CP.RewardPolicy(items, me), id.0, me, map[], None)];
    }
    h' := Expanded(id.0, map[], kids, me, id.1);
  }

  /**
   * After `expand`: one child per available action, in order, each the new
   * history of the played state with the mover's reach divided by the
   * number of actions; the node is Expanded with an empty reach map and
   * the hero's trace as infoset; an existing infoset is reused unchanged,
   * else exactly one is inserted; the tree grows by one node per action.
   */
  lemma {:induction false} ExpandProperties<S, A, T>(g: Game<S, A, T>, h: History<S, A, T>, infosets: Infosets<A, T>)
    requires h.Visited? && WellKeyed(infosets)
    requires HeroTrace(g, h.state) !in infosets ==> ChildEvaluationsInRange(g, h.state)
    ensures var (h', inf') := ExpandSpec(g, h, infosets);
      var acts := g.availableActions(h.state);
      h'.Expanded? && h'.reach == map[] && h'.info == HeroTrace(g, h.state) &&
      h'.player == g.activePlayer(h.state) && h'.villainTrace == Identifier(g, h.state).1 &&
      |h'.children| == |acts| &&
      (forall i :: 0 <= i < |acts| ==> (h'.children[i].0 == acts[i] &&
        h'.children[i].1 == New(g, g.play(h.state, acts[i]), ChildReach(h.reach, g.activePlayer(h.state), |acts|)))) &&
      inf'.Keys == infosets.Keys + {h'.info} &&
      (forall t :: t in infosets ==> inf'[t] == infosets[t]) &&
      WellKeyed(inf') && Size(h') == 1 + |acts|
  {
    var (h', inf') := ExpandSpec(g, h, infosets);
    LeavesSize(h', 0);
  }

  /** Children that are all leaves have one node each. */
  lemma {:induction false} LeavesSize<S, A, T>(h: History<S, A, T>, k: nat)
    requires h.Expanded? && k <= |h.children|
    requires forall i :: 0 <= i < |h.children| ==> !h.children[i].1.Expanded?
    ensures ChildrenSize(h, k) == |h.children| - k
    decreases |h.children| - k
  {
    if k < |h.children| {
      LeavesSize(h, k + 1);
    }
  }

  /**
   * Right after an expansion that created its infoset, an Expanded node is
   * worth the mean of its children's payoffs: the new policy plays
   * uniformly.
   */
  lemma {:induction false} FreshExpansionPayoffIsMean<S, A, T>(g: Game<S, A, T>, h: History<S, A, T>, infosets: Infosets<A, T>)
    requires h.Visited? && HeroTrace(g, h.state) !in infosets && ChildEvaluationsInRange(g, h.state)
    ensures var (h', inf') := ExpandSpec(g, h, infosets);
      Payoff(h', inf') == Mean(seq(|h'.children|, i requires 0 <= i < |h'.children| && !h'.children[i].1.Expanded? => h'.children[i].1.payoff))
  {
    var (h', inf') := ExpandSpec(g, h, infosets);
    var kids := h'.children;
    var items := KidRewards(kids);
    var p := inf'[h'.info].policy;
    assert CP.RewardsInRange(items) by {
      forall i | 0 <= i < |kids|
        ensures -5.0 <= items[i].1 <= 5.0
      {
        assert kids[i].0 == g.availableActions(h.state)[i];
      }
    }
    assert p == CP.RewardPolicy(items, g.activePlayer(h.state));
    var v := seq(|kids|, i requires 0 <= i < |kids| && !kids[i].1.Expanded? => kids[i].1.payoff);
    assert p.counterfactuals == v;
    if |kids| > 0 {
      CP.InitialStrategyUniform(items, g.activePlayer(h.state));
      DotUniformIsMean(v);
    }
  }

  /** Weighting every entry by 1/n gives the mean. */
  lemma {:induction false} DotUniformIsMean(v: seq<real>)
    requires |v| > 0
    ensures Dot(Uniform(|v|), v) == Mean(v)
  {
    var n := |v|;
    var c := 1.0 / (n as real);
    assert forall i :: 0 <= i < n ==> Times(Uniform(n), v)[i] == Scale(v, c)[i];
    assert Times(Uniform(n), v) == Scale(v, c);
    SumScale(v, 1.0 / (n as real));
  }

  /**
   * `full_expand` with a depth bound: a Visited node is expanded, then
   * every child of an Expanded node is fully expanded in turn. The source
   * recurses until the tree is complete; `fuel` bounds the depth here.
   */
  function FullExpand<S(!new), A, T>(g: Game<S, A, T>, h: History<S, A, T>, infosets: Infosets<A, T>, fuel: nat): (r: (History<S, A, T>, Infosets<A, T>))
    requires forall s :: ChildEvaluationsInRange(g, s)
    requires WellKeyed(infosets)
    ensures WellKeyed(r.1) && infosets.Keys <= r.1.Keys
    ensures forall t :: t in infosets ==> r.1[t] == infosets[t]
    ensures fuel > 0 && h.Visited? ==> r.0.Expanded?
    ensures h.Terminal? ==> r == (h, infosets)
    decreases fuel, 0
  {
    if fuel == 0 then (h, infosets)
    else
      var (h1, inf1) := if h.Visited? then ExpandGrowing(g, h, infosets) else (h, infosets);
      match h1
      case Expanded(info, reach, children, player, villain) =>
        var (children', inf2) := FullExpandChildren(g, children, inf1, fuel - 1);
        (Expanded(info, reach, children', player, villain), inf2)
      case _ => (h1, inf1)
  }

  function FullExpandChildren<S(!new), A, T>(g: Game<S, A, T>, children: seq<(A, History<S, A, T>)>, infosets: Infosets<A, T>, fuel: nat): (r: (seq<(A, History<S, A, T>)>, Infosets<A, T>))
    requires forall s :: ChildEvaluationsInRange(g, s)
    requires WellKeyed(infosets)
    ensures |r.0| == |children| && forall i :: 0 <= i < |children| ==> r.0[i].0 == children[i].0
    ensures WellKeyed(r.1) && infosets.Keys <= r.1.Keys
    ensures forall t :: t in infosets ==> r.1[t] == infosets[t]
    decreases fuel, 1, |children|
  {
    if |children| == 0 then ([], infosets)
    else
      var (h', inf1) := FullExpand(g, children[0].1, infosets, fuel);
      var (rest, inf2) := FullExpandChildren(g, children[1..], inf1, fuel);
      ([(children[0].0, h')] + rest, inf2)
  }

  /** `expand` keeps the infoset map well keyed and never alters an infoset already there. */
  function ExpandGrowing<S(!new), A, T>(g: Game<S, A, T>, h: History<S, A, T>, infosets: Infosets<A, T>): (r: (History<S, A, T>, Infosets<A, T>))
    requires h.Visited? && WellKeyed(infosets)
    requires forall s :: ChildEvaluationsInRange(g, s)
    ensures r == ExpandSpec(g, h, infosets)
    ensures r.0.Expanded? && WellKeyed(r.1) && infosets.Keys <= r.1.Keys
    ensures forall t :: t in infosets ==> r.1[t] == infosets[t]
  {
    ExpandProperties(g, h, infosets);
    ExpandSpec(g, h, infosets)
  }

  // ---------------------------------------------------------------------
  // Renormalisation

  /** Every entry of a reach map divided by `total`. */
  function Divided(reach: Reach, total: real): (r: Reach)
    requires total != 0.0
    ensures r.Keys == reach.Keys
  {
    map p | p in reach :: reach[p] / total
  }

  /**
   * `renormalize_reach(total)`: every entry of the node's reach map is
   * divided by `total` in place; nothing else changes. Terminal histories
   * have no reach (the source panics), and a zero total is excluded
   * because real division by zero is undefined.
   */
  method RenormalizeReach<S, A, T>(h: History<S, A, T>, total: real) returns (h': History<S, A, T>)
    requires !h.Terminal? && total != 0.0
    ensures h' == h.(reach := Divided(h.reach, total))
  {
    var r := h.reach;
    var todo := h.reach.Keys;
    while todo != {}
      invariant todo <= h.reach.Keys && r.Keys == h.reach.Keys
      invariant forall p :: p in h.reach ==> r[p] == if p in todo then h.reach[p] else h.reach[p] / total
      decreases todo
    {
      var p :| p in todo;
      r := r[p := r[p] / total];
      todo := todo - {p};
    }
    assert r == Divided(h.reach, total);
    h' := h.(reach := r);
  }

  /** Renormalising by `total` and then by 1/total gives the node back. */
  lemma {:induction false} RenormalizeRoundTrip<S, A, T>(h: History<S, A, T>, total: real)
    requires !h.Terminal? && total != 0.0
    ensures Divided(Divided(h.reach, total), 1.0 / total) == h.reach
    ensures forall p :: p in h.reach ==> Divided(h.reach, total)[p] * total == h.reach[p]
  {
    var d := Divided(Divided(h.reach, total), 1.0 / total);
    forall p | p in h.reach
      ensures d[p] == h.reach[p]
    {
      assert h.reach[p] / total / (1.0 / total) == h.reach[p];
    }
  }

  // ---------------------------------------------------------------------
  // Information sets (src/info.rs)

  /** `from_policy`: the given policy, trace and player, an empty reach map and no cached gift. */
  function InfoFromPolicy<A, T>(policy: CP.PolicyState<A>, trace: T, player: Player): (i: InfoState<A, T>)
    ensures i.reach == map[] && i.giftCached.None?
    ensures i.policy == policy && i.trace == trace && i.player == player
  {
    InfoState(policy, trace, player, map[], None)
  }

  /** The reach map after adding the entries of `r`: each player's entry is the sum, a missing one counting as 0. */
  function AddedReach(acc: Reach, r: Reach): (s: Reach)
    ensures s.Keys == acc.Keys + r.Keys
    ensures forall p :: p in s ==> s[p] == Get(acc, p, 0.0) + Get(r, p, 0.0)
  {
    map p | p in acc.Keys + r.Keys :: Get(acc, p, 0.0) + Get(r, p, 0.0)
  }

  /** Adding the reach of two histories gives the same map in either order, and adding an empty map changes nothing. */
  lemma {:induction false} AddedReachCommutes(acc: Reach, r1: Reach, r2: Reach)
    ensures AddedReach(AddedReach(acc, r1), r2) == AddedReach(AddedReach(acc, r2), r1)
    ensures AddedReach(acc, map[]) == acc
  {
    var x := AddedReach(AddedReach(acc, r1), r2);
    var y := AddedReach(AddedReach(acc, r2), r1);
    forall p | p in x
      ensures x[p] == y[p]
    {
      assert x[p] == Get(acc, p, 0.0) + Get(r1, p, 0.0) + Get(r2, p, 0.0);
    }
    assert x == y;
  }

  /** The reach a history brings to `add_history`: its map for Visited and Expanded nodes, nothing for a Terminal one. */
  function HistoryReach<S, A, T>(h: History<S, A, T>): Reach
  {
    if h.Terminal? then map[] else h.reach
  }

  /** The infoset object behind an `InfoPtr`. */
  class Info<A, T> {
    var policy: CP.PolicyState<A>
    var trace: T
    var player: Player
    var reach: Reach
    var giftCached: Option<real>

    function State(): InfoState<A, T>
      reads this
    {
      InfoState(policy, trace, player, reach, giftCached)
    }

    constructor FromPolicy(policy: CP.PolicyState<A>, trace: T, player: Player)
      ensures State() == InfoFromPolicy(policy, trace, player)
    {
      this.policy := policy;
      this.trace := trace;
      this.player := player;
      reach := map[];
      giftCached := None;
    }

    /**
     * `gift`: the cached value when there is one; otherwise `gift_inner`
     * (which is 0 in this generation) is computed and cached.
     */
    method Gift() returns (v: real)
      modifies this
      ensures old(giftCached).Some? ==> v == old(giftCached).value && State() == old(State())
      ensures old(giftCached).None? ==> v == 0.0 && State() == old(State()).(giftCached := Some(0.0))
    {
      if giftCached.Some? {
        return giftCached.value;
      }
      v := 0.0;
      giftCached := Some(v);
    }

    /**
     * `add_history`: each reach entry of the history is added into the
     * infoset's reach, a missing player starting at 0; a Terminal history
     * adds nothing.
     */
    method AddHistory<S>(h: History<S, A, T>)
      modifies this
      ensures State() == old(State()).(reach := AddedReach(old(reach), HistoryReach(h)))
    {
      if h.Terminal? {
        assert AddedReach(reach, map[]) == reach;
        return;
      }
      var todo := h.reach.Keys;
      ghost var acc0 := reach;
      while todo != {}
        invariant todo <= h.reach.Keys
        invariant reach.Keys == acc0.Keys + (h.reach.Keys - todo)
        invariant forall p :: p in reach && p in h.reach && p !in todo ==> reach[p] == Get(acc0, p, 0.0) + h.reach[p]
        invariant forall p :: p in reach && (p !in h.reach || p in todo) ==> reach[p] == Get(acc0, p, 0.0)
        invariant policy == old(policy) && trace == old(trace) && player == old(player) && giftCached == old(giftCached)
        decreases todo
      {
        var p :| p in todo;
        reach := reach[p := Get(reach, p, 0.0) + h.reach[p]];
        todo := todo - {p};
      }
      assert reach == AddedReach(acc0, h.reach);
    }
  }
}
