// The solving passes over a subgame of the current Rust solver
// (src/obscuro.rs): the counterfactual-value traversal `make_utilities`,
// the post-order policy updates `apply_updates`, one CFR iteration over
// the gadgets, the solve step, and the expansion descent.
//
// The trees and the infoset map are passed in and the new ones returned.
module SubgameSolve {
  import opened Players
  import opened Reals
  import opened Seqs
  import CP = CfrPolicy
  import opened SolverTree
  import opened Subgame
  import SinglePolicy

  // ---------------------------------------------------------------------
  // Well-formed trees

  /** Every infoset's policy is well formed with non-negative regrets. */
  ghost predicate Shaped<A, T>(inf: Infosets<A, T>)
  {
    forall key :: key in inf ==> inf[key].policy.Valid() && NonNegative(inf[key].policy.accRegrets)
  }

  /** A node's policy has one action per child, in the children's order. */
  ghost predicate NodeConsistent<S, A, T>(h: History<S, A, T>, p: CP.PolicyState<A>)
    requires h.Expanded?
  {
    p.Valid() && |p.actions| == |h.children| && forall k :: 0 <= k < |h.children| ==> h.children[k].0 == p.actions[k]
  }

  /** Every Expanded node's infoset is in the map, with a policy matching the node's children. */
  ghost predicate Consistent<S, A, T>(h: History<S, A, T>, inf: Infosets<A, T>)
    decreases h, 1
  {
    h.Expanded? ==> h.info in inf && NodeConsistent(h, inf[h.info].policy) && ChildrenConsistent(h, 0, inf)
  }

  ghost predicate ChildrenConsistent<S, A, T>(h: History<S, A, T>, k: nat, inf: Infosets<A, T>)
    requires h.Expanded? && k <= |h.children|
    decreases h, 0, |h.children| - k
  {
    k < |h.children| ==>
      (assert h.children[k] in h.children; Consistent(h.children[k].1, inf)) && ChildrenConsistent(h, k + 1, inf)
  }

  /** Two maps with the same keys and, under each key, the same actions. */
  ghost predicate SameActions<A, T>(inf: Infosets<A, T>, inf': Infosets<A, T>)
  {
    inf'.Keys == inf.Keys && forall key :: key in inf ==> inf'[key].policy.actions == inf[key].policy.actions
  }

  lemma {:induction false} ConsistentKept<S, A, T>(h: History<S, A, T>, inf: Infosets<A, T>, inf': Infosets<A, T>)
    requires Consistent(h, inf) && SameActions(inf, inf') && Shaped(inf')
    ensures Consistent(h, inf')
    decreases h, 1
  {
    if h.Expanded? {
      ChildrenConsistentKept(h, 0, inf, inf');
    }
  }

  lemma {:induction false} ChildrenConsistentKept<S, A, T>(h: History<S, A, T>, k: nat, inf: Infosets<A, T>, inf': Infosets<A, T>)
    requires h.Expanded? && k <= |h.children| && ChildrenConsistent(h, k, inf) && SameActions(inf, inf') && Shaped(inf')
    ensures ChildrenConsistent(h, k, inf')
    decreases h, 0, |h.children| - k
  {
    if k < |h.children| {
      assert h.children[k] in h.children;
      ConsistentKept(h.children[k].1, inf, inf');
      ChildrenConsistentKept(h, k + 1, inf, inf');
    }
  }

  /** The two trees differ at most in their reach maps and in the payoffs stored at Visited nodes being kept: the same nodes, actions and infosets. */
  ghost predicate SameShape<S, A, T>(h: History<S, A, T>, h': History<S, A, T>)
    decreases h, 1
  {
    match h
    case Terminal(p) => h' == h
    case Visited(s, p, _) => h'.Visited? && h'.state == s && h'.payoff == p
    case Expanded(info, _, children, player, villain) =>
      h'.Expanded? && h'.info == info && h'.player == player && h'.villainTrace == villain &&
      |h'.children| == |children| && (forall i :: 0 <= i < |children| ==> h'.children[i].0 == children[i].0) &&
      SameShapeFrom(h, h', 0)
  }

  ghost predicate SameShapeFrom<S, A, T>(h: History<S, A, T>, h': History<S, A, T>, k: nat)
    requires h.Expanded? && h'.Expanded? && k <= |h.children| == |h'.children|
    decreases h, 0, |h.children| - k
  {
    k < |h.children| ==>
      (assert h.children[k] in h.children; SameShape(h.children[k].1, h'.children[k].1)) &&
      SameShapeFrom(h, h', k + 1)
  }

  /** A node rebuilt with children of the same shapes has the same shape. */
  lemma {:induction false} SameShapeFromAll<S, A, T>(h: History<S, A, T>, h': History<S, A, T>, k: nat)
    requires h.Expanded? && h'.Expanded? && k <= |h.children| == |h'.children|
    requires forall i :: k <= i < |h.children| ==> SameShape(h.children[i].1, h'.children[i].1)
    ensures SameShapeFrom(h, h', k)
    decreases |h.children| - k
  {
    if k < |h.children| {
      SameShapeFromAll(h, h', k + 1);
    }
  }

  /** Consistency depends on the shape only. */
  lemma {:induction false} ConsistentShape<S, A, T>(h: History<S, A, T>, h': History<S, A, T>, inf: Infosets<A, T>)
    requires Consistent(h, inf) && SameShape(h, h')
    ensures Consistent(h', inf)
    decreases h, 1
  {
    if h.Expanded? {
      ChildrenConsistentShape(h, h', 0, inf);
    }
  }

  lemma {:induction false} ChildrenConsistentShape<S, A, T>(h: History<S, A, T>, h': History<S, A, T>, k: nat, inf: Infosets<A, T>)
    requires h.Expanded? && h'.Expanded? && k <= |h.children| == |h'.children|
    requires ChildrenConsistent(h, k, inf) && SameShapeFrom(h, h', k)
    ensures ChildrenConsistent(h', k, inf)
    decreases h, 0, |h.children| - k
  {
    if k < |h.children| {
      assert h.children[k] in h.children;
      ConsistentShape(h.children[k].1, h'.children[k].1, inf);
      ChildrenConsistentShape(h, h', k + 1, inf);
    }
  }

  // ---------------------------------------------------------------------
  // make_utilities

  /** The second state differs from the first only in its counterfactual values. */
  ghost predicate CounterfactualsOnly<A, T>(s: InfoState<A, T>, s': InfoState<A, T>)
  {
    |s'.policy.counterfactuals| == |s.policy.counterfactuals| &&
    s' == s.(policy := s.policy.(counterfactuals := s'.policy.counterfactuals))
  }

  /** The second map differs from the first only in counterfactual values. */
  ghost predicate OnlyCounterfactuals<A, T>(inf: Infosets<A, T>, inf': Infosets<A, T>)
  {
    inf'.Keys == inf.Keys && forall key :: key in inf ==> CounterfactualsOnly(inf[key], inf'[key])
  }

  /** A child's reach map: the mover's entry multiplied by the action's probability, or set to it when absent. */
  function ActionReach(reach: Reach, mover: Player, p: real): (r: Reach)
    ensures r.Keys == reach.Keys + {mover}
    ensures r[mover] == Get(reach, mover, 1.0) * p
    ensures forall q :: q in reach && q != mover ==> r[q] == reach[q]
  {
    reach[mover := Get(reach, mover, 1.0) * p]
  }

  /** Two maps with the same keys and, under each key, the same accumulated regrets. */
  ghost predicate SameRegrets<A, T>(inf: Infosets<A, T>, inf': Infosets<A, T>)
  {
    inf'.Keys == inf.Keys && forall key :: key in inf ==> inf'[key].policy.accRegrets == inf[key].policy.accRegrets
  }

  /**
   * The expected payoff of a tree when every Expanded node plays the
   * instantaneous policy of its infoset: the reference value of
   * `make_utilities`, with no reach maps and no counterfactuals.
   */
  function Value<S, A, T>(h: History<S, A, T>, inf: Infosets<A, T>): real
    decreases h, 1
  {
    match h
    case Expanded(info, _, _, _, _) =>
      if info in inf then ValueFrom(h, 0, CP.InstPolicy(inf[info].policy.accRegrets), inf) else 0.0
    case _ => h.payoff
  }

  /** The probability-weighted values of the children from index k on. */
  function ValueFrom<S, A, T>(h: History<S, A, T>, k: nat, dist: seq<real>, inf: Infosets<A, T>): real
    requires h.Expanded? && k <= |h.children|
    decreases h, 0, |h.children| - k
  {
    if k == |h.children| then 0.0
    else
      (assert h.children[k] in h.children; Weight(dist, k) * Value(h.children[k].1, inf)) + ValueFrom(h, k + 1, dist, inf)
  }

  /** One step of the loop's sum, with the rest valued against a map with the same regrets. */
  lemma {:induction false} ValueFromStep<S, A, T>(h: History<S, A, T>, k: nat, dist: seq<real>, inf: Infosets<A, T>, inf': Infosets<A, T>, x: real, y: real)
    requires h.Expanded? && k < |h.children| && k < |dist| && SameRegrets(inf, inf')
    requires x == Value(h.children[k].1, inf) && y == ValueFrom(h, k + 1, dist, inf')
    ensures dist[k] * x + y == ValueFrom(h, k, dist, inf)
  {
    ValueFromKept(h, k + 1, dist, inf, inf');
  }

  /** The weight of child k: its probability, or 0 past the end of the distribution (`zip` stops there). */
  function Weight(dist: seq<real>, k: nat): real
  {
    if k < |dist| then dist[k] else 0.0
  }

  /** The value depends on the regrets only. */
  lemma {:induction false} ValueKept<S, A, T>(h: History<S, A, T>, inf: Infosets<A, T>, inf': Infosets<A, T>)
    requires SameRegrets(inf, inf')
    ensures Value(h, inf') == Value(h, inf)
    decreases h, 1
  {
    if h.Expanded? && h.info in inf {
      ValueFromKept(h, 0, CP.InstPolicy(inf[h.info].policy.accRegrets), inf, inf');
    }
  }

  lemma {:induction false} ValueFromKept<S, A, T>(h: History<S, A, T>, k: nat, dist: seq<real>, inf: Infosets<A, T>, inf': Infosets<A, T>)
    requires h.Expanded? && k <= |h.children| && SameRegrets(inf, inf')
    ensures ValueFrom(h, k, dist, inf') == ValueFrom(h, k, dist, inf)
    decreases h, 0, |h.children| - k
  {
    if k < |h.children| {
      assert h.children[k] in h.children;
      ValueKept(h.children[k].1, inf, inf');
      ValueFromKept(h, k + 1, dist, inf, inf');
    }
  }

  /**
   * `make_utilities(h, optimizing_player, reach_prob)`: a Terminal
   * history is worth its payoff; a Visited one stores the reach map and is
   * worth its evaluation; an Expanded one stores the reach map, values
   * every child under the instantaneous policy with the mover's reach
   * multiplied by the action's probability, adds each child's value into
   * its action's counterfactual weighted by the chance and opponent reach,
   * and is worth the probability-weighted sum of its children's values.
   * Only counterfactuals change in the infosets, and the tree keeps its
   * shape.
   */
  function MakeUtilities<S, A(==), T(==)>(h: History<S, A, T>, inf: Infosets<A, T>, opt: Player, reach: Reach): (r: (real, History<S, A, T>, Infosets<A, T>))
    requires Consistent(h, inf) && Shaped(inf)
    ensures r.0 == Value(h, inf)
    ensures OnlyCounterfactuals(inf, r.2) && Shaped(r.2) && SameShape(h, r.1) && Consistent(r.1, r.2)
    ensures !h.Terminal? ==> r.1.reach == reach
    decreases h, 1
  {
    match h
    case Terminal(payoff) => (payoff, h, inf)
    case Visited(s, payoff, _) => (payoff, Visited(s, payoff, reach), inf)
    case Expanded(info, _, children, player, villain) =>
      var dist := CP.InstPolicy(inf[info].policy.accRegrets);
      var net := Get(reach, Chance, 1.0) * Get(reach, Other(player), 1.0);
      var r := UtilitiesFrom(h, 0, inf, opt, reach, dist, net);
      ExpandedStep(h, inf, reach, r);
      (r.0, Expanded(info, reach, r.1, player, villain), r.2)
  }

  /** The facts an Expanded node draws from the loop over its children. */
  lemma {:induction false} ExpandedStep<S, A, T>(h: History<S, A, T>, inf: Infosets<A, T>, reach: Reach, r: (real, seq<(A, History<S, A, T>)>, Infosets<A, T>))
    requires h.Expanded? && h.info in inf && NodeConsistent(h, inf[h.info].policy)
    requires r.0 == ValueFrom(h, 0, CP.InstPolicy(inf[h.info].policy.accRegrets), inf)
    requires OnlyCounterfactuals(inf, r.2) && Shaped(r.2) && KidsFit(h, 0, r.1, r.2)
    ensures var h' := Expanded(h.info, reach, r.1, h.player, h.villainTrace);
      r.0 == Value(h, inf) && SameShape(h, h') && Consistent(h', r.2)
  {
    var h' := Expanded(h.info, reach, r.1, h.player, h.villainTrace);
    SameShapeFromAll(h, h', 0);
    ChildrenConsistentFromAll(h', 0, r.2);
  }

  /** A node whose every child is consistent has consistent children. */
  lemma {:induction false} ChildrenConsistentFromAll<S, A, T>(h: History<S, A, T>, k: nat, inf: Infosets<A, T>)
    requires h.Expanded? && k <= |h.children|
    requires forall i :: k <= i < |h.children| ==> Consistent(h.children[i].1, inf)
    ensures ChildrenConsistent(h, k, inf)
    decreases |h.children| - k
  {
    if k < |h.children| {
      ChildrenConsistentFromAll(h, k + 1, inf);
    }
  }

  /**
   * One turn of the loop of `make_utilities`: child k is valued with its
   * action's probability folded into the mover's reach, and its value,
   * weighted by `net`, is added into that action's counterfactual.
   */
  function ChildUtility<S, A(==), T(==)>(h: History<S, A, T>, k: nat, inf: Infosets<A, T>, opt: Player, reach: Reach, p: real, net: real)
    : (r: (real, History<S, A, T>, Infosets<A, T>))
    requires h.Expanded? && k < |h.children|
    requires h.info in inf && NodeConsistent(h, inf[h.info].policy) && ChildrenConsistent(h, k, inf) && Shaped(inf)
    ensures OnlyCounterfactuals(inf, r.2) && Shaped(r.2)
    ensures h.info in r.2 && NodeConsistent(h, r.2[h.info].policy) && ChildrenConsistent(h, k + 1, r.2)
    ensures r.0 == Value(h.children[k].1, inf)
    ensures SameShape(h.children[k].1, r.1) && Consistent(r.1, r.2)
    decreases h, 0, |h.children| - k, 0
  {
    assert h.children[k] in h.children;
    var a := h.children[k].0;
    var c := MakeUtilities(h.children[k].1, inf, opt, ActionReach(reach, h.player, p));
    CounterfactualStep(h, k, inf, c, net);
    (c.0, c.1, AddCounterfactual(c.2, h.info, a, c.0, net))
  }

  /** `add_counterfactual(a, v, net)` on the policy of the infoset under `key`. */
  function AddCounterfactual<A(==), T(==)>(inf: Infosets<A, T>, key: T, a: A, v: real, net: real): Infosets<A, T>
    requires key in inf && inf[key].policy.Valid() && a in inf[key].policy.actions
  {
    inf[key := inf[key].(policy := CP.WithCounterfactual(inf[key].policy, a, v, net))]
  }

  /** The facts one turn of the loop of `make_utilities` draws from its child's traversal and the counterfactual it adds. */
  lemma {:induction false} CounterfactualStep<S, A, T>(h: History<S, A, T>, k: nat, inf: Infosets<A, T>, c: (real, History<S, A, T>, Infosets<A, T>), net: real)
    requires h.Expanded? && k < |h.children|
    requires h.info in inf && NodeConsistent(h, inf[h.info].policy) && ChildrenConsistent(h, k + 1, inf) && Shaped(inf)
    requires OnlyCounterfactuals(inf, c.2) && Shaped(c.2) && Consistent(c.1, c.2)
    ensures h.info in c.2 && c.2[h.info].policy.Valid() && h.children[k].0 in c.2[h.info].policy.actions
    ensures var inf' := AddCounterfactual(c.2, h.info, h.children[k].0, c.0, net);
      OnlyCounterfactuals(inf, inf') && Shaped(inf') && h.info in inf' && NodeConsistent(h, inf'[h.info].policy) &&
      ChildrenConsistent(h, k + 1, inf') && Consistent(c.1, inf')
  {
    assert h.children[k].0 == c.2[h.info].policy.actions[k];
    var inf' := AddCounterfactual(c.2, h.info, h.children[k].0, c.0, net);
    OnlyCounterfactualsTrans(inf, c.2, inf');
    ChildrenConsistentKept(h, k + 1, inf, inf');
    ConsistentKept(c.1, c.2, inf');
  }

  /**
   * The loop of `make_utilities` over the children from index k on: the
   * weighted sum of their values, their new subtrees and the infoset map
   * after their counterfactuals are added.
   */
  function UtilitiesFrom<S, A(==), T(==)>(h: History<S, A, T>, k: nat, inf: Infosets<A, T>, opt: Player, reach: Reach, dist: seq<real>, net: real)
    : (r: (real, seq<(A, History<S, A, T>)>, Infosets<A, T>))
    requires h.Expanded? && k <= |h.children| && |dist| == |h.children|
    requires h.info in inf && NodeConsistent(h, inf[h.info].policy) && ChildrenConsistent(h, k, inf) && Shaped(inf)
    ensures r.0 == ValueFrom(h, k, dist, inf)
    ensures OnlyCounterfactuals(inf, r.2) && Shaped(r.2)
    ensures KidsFit(h, k, r.1, r.2)
    decreases h, 0, |h.children| - k, 2
  {
    if k == |h.children| then (0.0, [], inf)
    else UtilitiesCons(h, k, inf, opt, reach, dist, net, ChildUtility(h, k, inf, opt, reach, dist[k], net))
  }

  /** The turn of the loop of `make_utilities` at child k, given what child k's traversal returned, and the turns after it. */
  function UtilitiesCons<S, A(==), T(==)>(h: History<S, A, T>, k: nat, inf: Infosets<A, T>, opt: Player, reach: Reach, dist: seq<real>, net: real,
                                          c: (real, History<S, A, T>, Infosets<A, T>))
    : (r: (real, seq<(A, History<S, A, T>)>, Infosets<A, T>))
    requires h.Expanded? && k < |h.children| && |dist| == |h.children|
    requires OnlyCounterfactuals(inf, c.2) && Shaped(c.2)
    requires h.info in c.2 && NodeConsistent(h, c.2[h.info].policy) && ChildrenConsistent(h, k + 1, c.2)
    requires c.0 == Value(h.children[k].1, inf)
    requires SameShape(h.children[k].1, c.1) && Consistent(c.1, c.2)
    ensures r.0 == ValueFrom(h, k, dist, inf)
    ensures OnlyCounterfactuals(inf, r.2) && Shaped(r.2)
    ensures KidsFit(h, k, r.1, r.2)
    decreases h, 0, |h.children| - k, 1
  {
    var rest := UtilitiesFrom(h, k + 1, c.2, opt, reach, dist, net);
    UtilitiesFromStep(h, k, inf, dist, c, rest);
    (dist[k] * c.0 + rest.0, [(h.children[k].0, c.1)] + rest.1, rest.2)
  }

  /** The facts one turn of the loop of `make_utilities` adds to those of the rest of the loop. */
  lemma {:induction false} UtilitiesFromStep<S, A, T>(h: History<S, A, T>, k: nat, inf: Infosets<A, T>, dist: seq<real>,
                                                     c: (real, History<S, A, T>, Infosets<A, T>), rest: (real, seq<(A, History<S, A, T>)>, Infosets<A, T>))
    requires h.Expanded? && k < |h.children| && |dist| == |h.children|
    requires c.0 == Value(h.children[k].1, inf) && OnlyCounterfactuals(inf, c.2)
    requires SameShape(h.children[k].1, c.1) && Consistent(c.1, c.2)
    requires rest.0 == ValueFrom(h, k + 1, dist, c.2) && OnlyCounterfactuals(c.2, rest.2) && Shaped(rest.2)
    requires KidsFit(h, k + 1, rest.1, rest.2)
    ensures dist[k] * c.0 + rest.0 == ValueFrom(h, k, dist, inf)
    ensures OnlyCounterfactuals(inf, rest.2)
    ensures KidsFit(h, k, [(h.children[k].0, c.1)] + rest.1, rest.2)
  {
    CounterfactualsKeepRegrets(inf, c.2);
    ValueFromStep(h, k, dist, inf, c.2, c.0, rest.0);
    OnlyCounterfactualsTrans(inf, c.2, rest.2);
    ConsistentKept(c.1, c.2, rest.2);
    PrependChild(h, k, (h.children[k].0, c.1), rest.1, rest.2);
  }

  /** The new children from index k on: the same actions, subtrees of the same shapes, each consistent with the map. */
  ghost predicate KidsFit<S, A, T>(h: History<S, A, T>, k: nat, kids: seq<(A, History<S, A, T>)>, inf: Infosets<A, T>)
    requires h.Expanded? && k <= |h.children|
  {
    |kids| == |h.children| - k &&
    (forall i :: 0 <= i < |kids| ==> kids[i].0 == h.children[k + i].0) &&
    (forall i :: 0 <= i < |kids| ==> SameShape(h.children[k + i].1, kids[i].1)) &&
    (forall i :: 0 <= i < |kids| ==> Consistent(kids[i].1, inf))
  }

  lemma {:induction false} PrependChild<S, A, T>(h: History<S, A, T>, k: nat, first: (A, History<S, A, T>), rest: seq<(A, History<S, A, T>)>, inf: Infosets<A, T>)
    requires h.Expanded? && k < |h.children| && KidsFit(h, k + 1, rest, inf)
    requires first.0 == h.children[k].0 && SameShape(h.children[k].1, first.1) && Consistent(first.1, inf)
    ensures KidsFit(h, k, [first] + rest, inf)
  {
    forall i | 0 < i < |rest| + 1
      ensures ([first] + rest)[i] == rest[i - 1] && k + i == k + 1 + (i - 1)
    {
    }
  }

  lemma {:induction false} CounterfactualsKeepRegrets<A, T>(inf: Infosets<A, T>, inf': Infosets<A, T>)
    requires OnlyCounterfactuals(inf, inf')
    ensures SameRegrets(inf, inf')
  {
  }

  lemma {:induction false} OnlyCounterfactualsTrans<A, T>(inf: Infosets<A, T>, inf1: Infosets<A, T>, inf2: Infosets<A, T>)
    requires OnlyCounterfactuals(inf, inf1) && OnlyCounterfactuals(inf1, inf2)
    ensures OnlyCounterfactuals(inf, inf2) && SameActions(inf, inf2) && SameActions(inf1, inf2)
  {
  }

  // ---------------------------------------------------------------------
  // The value of make_utilities

  /** Every leaf payoff of the tree lies in [lo, hi]. */
  ghost predicate PayoffsIn<S, A, T>(h: History<S, A, T>, lo: real, hi: real)
  {
    match h
    case Expanded(_, _, children, _, _) => forall c :: c in children ==> PayoffsIn(c.1, lo, hi)
    case _ => lo <= h.payoff <= hi
  }

  /** The sum of the entries from index k on is the entry at k plus the sum after it. */
  lemma {:induction false} SumFrom(s: seq<real>, k: nat)
    requires k < |s|
    ensures Sum(s[k..]) == s[k] + Sum(s[k + 1..])
  {
    assert s[k..] == [s[k]] + s[k + 1..];
    SumAppend([s[k]], s[k + 1..]);
    SumSingle(s[k]);
  }

  /**
   * The value `make_utilities` returns is a convex combination of leaf
   * payoffs: with every payoff in [lo, hi] (an interval holding 0, the
   * value of a node without children), so is the value.
   */
  lemma {:induction false} ValueBounded<S, A, T>(h: History<S, A, T>, inf: Infosets<A, T>, lo: real, hi: real)
    requires Shaped(inf) && PayoffsIn(h, lo, hi) && lo <= 0.0 <= hi
    ensures lo <= Value(h, inf) <= hi
    decreases h, 1
  {
    if h.Expanded? && h.info in inf {
      var acc := inf[h.info].policy.accRegrets;
      var dist := CP.InstPolicy(acc);
      if |acc| > 0 {
        CP.InstPolicyIsDistribution(acc);
      }
      ValueFromBounded(h, 0, dist, inf, lo, hi);
      WeightsAtMost(dist, 0, |h.children|);
      assert dist[0..] == dist;
      InUnitScale(lo, hi, Weights(dist, 0, |h.children|), ValueFrom(h, 0, dist, inf));
    }
  }

  /** A value between lo and hi times a weight in [0, 1] lies in [lo, hi] when lo <= 0 <= hi. */
  lemma {:induction false} InUnitScale(lo: real, hi: real, w: real, v: real)
    requires lo <= 0.0 <= hi && 0.0 <= w <= 1.0 && lo * w <= v <= hi * w
    ensures lo <= v <= hi
  {
    MulMonotone(-lo, w, 1.0);
    MulMonotone(hi, w, 1.0);
  }

  /** Weights of a non-negative vector are non-negative, at most the rest of its sum, and 0 past its end. */
  lemma {:induction false} WeightsAtMost(dist: seq<real>, k: nat, n: nat)
    requires k <= n && NonNegative(dist)
    ensures 0.0 <= Weights(dist, k, n)
    ensures k <= |dist| ==> Weights(dist, k, n) <= Sum(dist[k..])
    ensures k >= |dist| ==> Weights(dist, k, n) == 0.0
    decreases n - k
  {
    if k < n {
      WeightsAtMost(dist, k + 1, n);
      if k < |dist| {
        SumFrom(dist, k);
      }
    } else if k <= |dist| {
      assert NonNegative(dist[k..]);
      SumNonNegative(dist[k..]);
    }
  }

  /** The children from index k on are worth between lo and hi times their total weight. */
  lemma {:induction false} ValueFromBounded<S, A, T>(h: History<S, A, T>, k: nat, dist: seq<real>, inf: Infosets<A, T>, lo: real, hi: real)
    requires h.Expanded? && k <= |h.children|
    requires Shaped(inf) && NonNegative(dist) && PayoffsIn(h, lo, hi) && lo <= 0.0 <= hi
    ensures lo * Weights(dist, k, |h.children|) <= ValueFrom(h, k, dist, inf) <= hi * Weights(dist, k, |h.children|)
    decreases h, 0, |h.children| - k
  {
    if k < |h.children| {
      assert h.children[k] in h.children;
      ValueBounded(h.children[k].1, inf, lo, hi);
      ValueFromBounded(h, k + 1, dist, inf, lo, hi);
      ValueFromBoundStep(h, k, dist, inf, lo, hi);
    }
  }

  /** The step of ValueFromBounded: child k's weighted value joins the bound on the rest. */
  lemma {:induction false} ValueFromBoundStep<S, A, T>(h: History<S, A, T>, k: nat, dist: seq<real>, inf: Infosets<A, T>, lo: real, hi: real)
    requires h.Expanded? && k < |h.children| && NonNegative(dist)
    requires lo <= Value(h.children[k].1, inf) <= hi
    requires lo * Weights(dist, k + 1, |h.children|) <= ValueFrom(h, k + 1, dist, inf) <= hi * Weights(dist, k + 1, |h.children|)
    ensures lo * Weights(dist, k, |h.children|) <= ValueFrom(h, k, dist, inf) <= hi * Weights(dist, k, |h.children|)
  {
    ValueFromUnfold(h, k, dist, inf);
    BoundStep(Weight(dist, k), Value(h.children[k].1, inf), ValueFrom(h, k + 1, dist, inf), lo, hi,
      Weights(dist, k + 1, |h.children|), Weights(dist, k, |h.children|));
  }

  /** One unfolding of the children's weighted sum and of their total weight. */
  lemma {:induction false} ValueFromUnfold<S, A, T>(h: History<S, A, T>, k: nat, dist: seq<real>, inf: Infosets<A, T>)
    requires h.Expanded? && k < |h.children|
    ensures ValueFrom(h, k, dist, inf) == Weight(dist, k) * Value(h.children[k].1, inf) + ValueFrom(h, k + 1, dist, inf)
    ensures Weights(dist, k, |h.children|) == Weight(dist, k) + Weights(dist, k + 1, |h.children|)
  {
  }

  /** The total weight of the children from index k to n. */
  function Weights(dist: seq<real>, k: nat, n: nat): real
    requires k <= n
    decreases n - k
  {
    if k == n then 0.0 else Weight(dist, k) + Weights(dist, k + 1, n)
  }

  /** Adding a weighted value in [lo, hi] to a sum bounded by lo and hi times the weight so far. */
  lemma {:induction false} BoundStep(d: real, x: real, y: real, lo: real, hi: real, w: real, total: real)
    requires d >= 0.0 && lo <= x <= hi && lo * w <= y <= hi * w && total == d + w
    ensures lo * total <= d * x + y <= hi * total
  {
    MulMonotone(d, lo, x);
    MulMonotone(d, x, hi);
  }

  // ---------------------------------------------------------------------
  // apply_updates

  /** The infosets of a tree's Expanded nodes. */
  function InfosOf<S, A, T>(h: History<S, A, T>): set<T>
    decreases h, 1
  {
    if h.Expanded? then {h.info} + InfosFrom(h, 0) else {}
  }

  function InfosFrom<S, A, T>(h: History<S, A, T>, k: nat): set<T>
    requires h.Expanded? && k <= |h.children|
    decreases h, 0, |h.children| - k
  {
    if k == |h.children| then {}
    else (assert h.children[k] in h.children; InfosOf(h.children[k].1)) + InfosFrom(h, k + 1)
  }

  /** No infoset's first update lies after iteration t, so `update(t')` is allowed for every t' >= t with t' > 0. */
  ghost predicate Clocked<A, T>(inf: Infosets<A, T>, t: nat)
  {
    forall key :: key in inf ==> inf[key].policy.firstUpdate.None? || inf[key].policy.firstUpdate.value <= t
  }

  /** An infoset after `policy.update(t)`. */
  function UpdatedInfo<A, T>(s: InfoState<A, T>, t: nat): (s': InfoState<A, T>)
    requires s.policy.Valid() && CP.CanUpdate(s.policy, t)
    ensures s'.policy.actions == s.policy.actions && s'.policy.lastSet == t
    ensures s' == s.(policy := s'.policy)
  {
    s.(policy := CP.Updated(s.policy, t))
  }

  /** The second map is the first with exactly the infosets under `keys` updated at t. */
  ghost predicate UpdatedOn<A, T>(inf: Infosets<A, T>, inf': Infosets<A, T>, keys: set<T>, t: nat)
    requires Shaped(inf) && t > 0 && Clocked(inf, t)
  {
    inf'.Keys == inf.Keys &&
    forall key :: key in inf ==> inf'[key] == if key in keys then UpdatedInfo(inf[key], t) else inf[key]
  }

  /** An allowed update keeps the policy well formed, its regrets non-negative and its clock; a second one at the same t changes nothing. */
  lemma {:induction false} UpdatedStep<A>(p: CP.PolicyState<A>, t: nat)
    requires p.Valid() && NonNegative(p.accRegrets) && t > 0 && (p.firstUpdate.None? || p.firstUpdate.value <= t)
    ensures CP.CanUpdate(p, t)
    ensures var q := CP.Updated(p, t);
      NonNegative(q.accRegrets) && (q.firstUpdate.None? || q.firstUpdate.value <= t) &&
      CP.CanUpdate(q, t) && CP.Updated(q, t) == q
  {
    CP.UpdateIdempotent(p, t);
    if t != p.lastSet {
      if |p.actions| > 0 {
        CP.UpdatedProperties(p, t);
      } else {
        CP.UpdateWithoutActions(p, t);
      }
    }
  }

  /** Updating the keys of k1, then those of k2, updates those of k1 + k2: a repeated update at the same t does nothing. */
  lemma {:induction false} UpdatedOnCompose<A, T>(inf: Infosets<A, T>, mid: Infosets<A, T>, r: Infosets<A, T>, k1: set<T>, k2: set<T>, k: set<T>, t: nat)
    requires Shaped(inf) && t > 0 && Clocked(inf, t) && UpdatedOn(inf, mid, k1, t)
    requires Shaped(mid) && Clocked(mid, t) && UpdatedOn(mid, r, k2, t) && k == k1 + k2
    ensures UpdatedOn(inf, r, k, t)
  {
    forall key | key in inf
      ensures r[key] == if key in k then UpdatedInfo(inf[key], t) else inf[key]
    {
      if key in k1 {
        UpdatedStep(inf[key].policy, t);
      }
    }
  }

  /**
   * `apply_updates(h, t)`: every Expanded node calls `update(t)` on its
   * infoset after its children have; leaves change nothing. As every
   * update touches only its own infoset and a second `update(t)` is a
   * no-op, the result is the map with each infoset of the tree updated
   * once at t and every other infoset unchanged.
   */
  function ApplyUpdates<S, A, T>(h: History<S, A, T>, inf: Infosets<A, T>, t: nat): (r: Infosets<A, T>)
    requires Consistent(h, inf) && Shaped(inf) && t > 0 && Clocked(inf, t)
    ensures Shaped(r) && Clocked(r, t) && SameActions(inf, r)
    ensures UpdatedOn(inf, r, InfosOf(h), t)
    decreases h, 1
  {
    if !h.Expanded? then inf
    else
      var c := UpdatesFrom(h, 0, inf, t);
      UpdateNodeStep(h, inf, c, t);
      c[h.info := UpdatedInfo(c[h.info], t)]
  }

  /** The node's own update after its children's. */
  lemma {:induction false} UpdateNodeStep<S, A, T>(h: History<S, A, T>, inf: Infosets<A, T>, c: Infosets<A, T>, t: nat)
    requires h.Expanded? && h.info in inf && Shaped(inf) && t > 0 && Clocked(inf, t)
    requires Shaped(c) && Clocked(c, t) && SameActions(inf, c) && UpdatedOn(inf, c, InfosFrom(h, 0), t)
    ensures h.info in c && c[h.info].policy.Valid() && CP.CanUpdate(c[h.info].policy, t)
    ensures var r := c[h.info := UpdatedInfo(c[h.info], t)];
      Shaped(r) && Clocked(r, t) && SameActions(inf, r) && UpdatedOn(inf, r, InfosOf(h), t)
  {
    UpdatedStep(c[h.info].policy, t);
    var r := c[h.info := UpdatedInfo(c[h.info], t)];
    assert UpdatedOn(c, r, {h.info}, t);
    UpdatedOnCompose(inf, c, r, InfosFrom(h, 0), {h.info}, InfosOf(h), t);
  }

  function UpdatesFrom<S, A, T>(h: History<S, A, T>, k: nat, inf: Infosets<A, T>, t: nat): (r: Infosets<A, T>)
    requires h.Expanded? && k <= |h.children| && ChildrenConsistent(h, k, inf) && Shaped(inf) && t > 0 && Clocked(inf, t)
    ensures Shaped(r) && Clocked(r, t) && SameActions(inf, r)
    ensures UpdatedOn(inf, r, InfosFrom(h, k), t)
    decreases h, 0, |h.children| - k
  {
    if k == |h.children| then inf
    else
      assert h.children[k] in h.children;
      var c := ApplyUpdates(h.children[k].1, inf, t);
      ChildrenConsistentKept(h, k + 1, inf, c);
      var r := UpdatesFrom(h, k + 1, c, t);
      UpdatedOnCompose(inf, c, r, InfosOf(h.children[k].1), InfosFrom(h, k + 1), InfosFrom(h, k), t);
      r
  }

  /** Every infoset of a consistent tree is in the map. */
  lemma {:induction false} InfosOfPresent<S, A, T>(h: History<S, A, T>, inf: Infosets<A, T>)
    requires Consistent(h, inf)
    ensures InfosOf(h) <= inf.Keys
    decreases h, 1
  {
    if h.Expanded? {
      InfosFromPresent(h, 0, inf);
    }
  }

  lemma {:induction false} InfosFromPresent<S, A, T>(h: History<S, A, T>, k: nat, inf: Infosets<A, T>)
    requires h.Expanded? && k <= |h.children| && ChildrenConsistent(h, k, inf)
    ensures InfosFrom(h, k) <= inf.Keys
    decreases h, 0, |h.children| - k
  {
    if k < |h.children| {
      assert h.children[k] in h.children;
      InfosOfPresent(h.children[k].1, inf);
      InfosFromPresent(h, k + 1, inf);
    }
  }

  /**
   * What `apply_updates(h, t)` leaves behind: the same infosets; each one
   * of the tree updated at t, so marked as set at t, with the same
   * actions; every other one unchanged; a leaf changes nothing.
   */
  lemma {:induction false} ApplyUpdatesProperties<S, A, T>(h: History<S, A, T>, inf: Infosets<A, T>, t: nat)
    requires Consistent(h, inf) && Shaped(inf) && t > 0 && Clocked(inf, t)
    ensures var r := ApplyUpdates(h, inf, t);
      r.Keys == inf.Keys && InfosOf(h) <= inf.Keys &&
      (forall key :: key in InfosOf(h) ==> r[key].policy == CP.Updated(inf[key].policy, t) && r[key].policy.lastSet == t) &&
      (forall key :: key in inf && key !in InfosOf(h) ==> r[key] == inf[key]) &&
      (!h.Expanded? ==> r == inf)
  {
    InfosOfPresent(h, inf);
  }

  // ---------------------------------------------------------------------
  // cfr_iterations

  /** Every history of the list is consistent with the map. */
  ghost predicate AllConsistent<S, A, T>(hs: seq<History<S, A, T>>, inf: Infosets<A, T>)
  {
    forall i :: 0 <= i < |hs| ==> Consistent(hs[i], inf)
  }

  /** Two lists of histories of the same shapes, position by position. */
  ghost predicate SameShapes<S, A, T>(hs: seq<History<S, A, T>>, hs': seq<History<S, A, T>>)
  {
    |hs'| == |hs| && forall i :: 0 <= i < |hs| ==> SameShape(hs[i], hs'[i])
  }

  /** The reach map a gadget's history starts from: its sampling chance for chance, and the root's probability of the gadget (times an entry probability fixed at 1) for the opponent. */
  function HistoryReach(chance: real, opt: Player, rProb: real): (r: Reach)
    ensures Get(r, Chance, 1.0) == chance || Other(opt) == Chance
    ensures Get(r, Other(opt), 1.0) == rProb
  {
    map[Chance := chance, Other(opt) := rProb * 1.0]
  }

  lemma {:induction false} SameActionsTrans<A, T>(inf: Infosets<A, T>, inf1: Infosets<A, T>, inf2: Infosets<A, T>)
    requires SameActions(inf, inf1) && SameActions(inf1, inf2)
    ensures SameActions(inf, inf2)
  {
  }

  /** Counterfactual changes keep every first update. */
  lemma {:induction false} ClockedKept<A, T>(inf: Infosets<A, T>, inf': Infosets<A, T>, t: nat)
    requires Clocked(inf, t) && OnlyCounterfactuals(inf, inf')
    ensures Clocked(inf', t)
  {
    forall key | key in inf'
      ensures inf'[key].policy.firstUpdate == inf[key].policy.firstUpdate
    {
      assert CounterfactualsOnly(inf[key], inf'[key]);
    }
  }

  /** The trees of the list stay consistent under a map with the same actions. */
  lemma {:induction false} AllConsistentKept<S, A, T>(hs: seq<History<S, A, T>>, inf: Infosets<A, T>, inf': Infosets<A, T>)
    requires AllConsistent(hs, inf) && SameActions(inf, inf') && Shaped(inf')
    ensures AllConsistent(hs, inf')
  {
    forall i | 0 <= i < |hs|
      ensures Consistent(hs[i], inf')
    {
      ConsistentKept(hs[i], inf, inf');
    }
  }

  /** Every tree has its own shape. */
  lemma {:induction false} SameShapeRefl<S, A, T>(h: History<S, A, T>)
    ensures SameShape(h, h)
    decreases h, 1
  {
    if h.Expanded? {
      forall i | 0 <= i < |h.children|
        ensures SameShape(h.children[i].1, h.children[i].1)
      {
        assert h.children[i] in h.children;
        SameShapeRefl(h.children[i].1);
      }
      SameShapeFromAll(h, h, 0);
    }
  }

  /** The trees after j histories: the same shapes, the rest untouched, the visited ones holding their reach maps. */
  ghost predicate TreesInv<S, A, T>(hs: seq<History<S, A, T>>, dist: seq<real>, opt: Player, rProb: real, j: nat, hs': seq<History<S, A, T>>)
  {
    j <= |hs| && j <= |dist| && SameShapes(hs, hs') && (forall i :: j <= i < |hs| ==> hs'[i] == hs[i]) &&
    forall i :: 0 <= i < j && !hs[i].Terminal? ==> hs'[i].reach == HistoryReach(dist[i], opt, rProb)
  }

  lemma {:induction false} TreesInvStep<S, A, T>(hs: seq<History<S, A, T>>, dist: seq<real>, opt: Player, rProb: real, j: nat, hs': seq<History<S, A, T>>, h: History<S, A, T>)
    requires TreesInv(hs, dist, opt, rProb, j, hs') && j < |hs| && j < |dist|
    requires SameShape(hs'[j], h) && (!hs'[j].Terminal? ==> h.reach == HistoryReach(dist[j], opt, rProb))
    ensures TreesInv(hs, dist, opt, rProb, j + 1, hs'[j := h])
  {
  }

  /** The infoset half of one turn of the history loop: the map after `apply_updates` is consistent with the trees and keeps its shape and clock. */
  lemma {:induction false} MapsStep<S, A, T>(hs': seq<History<S, A, T>>, j: nat, inf: Infosets<A, T>, inf': Infosets<A, T>, r: (real, History<S, A, T>, Infosets<A, T>), t: nat)
    requires j < |hs'| && AllConsistent(hs', inf') && Shaped(inf') && t > 0 && Clocked(inf', t) && SameActions(inf, inf')
    requires OnlyCounterfactuals(inf', r.2) && Shaped(r.2) && Consistent(r.1, r.2)
    ensures Clocked(r.2, t)
    ensures var inf2 := ApplyUpdates(r.1, r.2, t);
      AllConsistent(hs'[j := r.1], inf2) && Shaped(inf2) && Clocked(inf2, t) && SameActions(inf, inf2)
  {
    ClockedKept(inf', r.2, t);
    var inf2 := ApplyUpdates(r.1, r.2, t);
    OnlyCounterfactualsTrans(inf', r.2, r.2);
    SameActionsTrans(inf', r.2, inf2);
    SameActionsTrans(inf, inf', inf2);
    AllConsistentKept(hs', inf', inf2);
    ConsistentKept(r.1, r.2, inf2);
  }

  /**
   * One turn of the history loop of `cfr_iterations`: history j is valued
   * by `make_utilities` from the reach map of its sampling chance and the
   * gadget's root probability, `apply_updates(t)` runs on it, and its
   * chance-weighted value is added to the entry value. Only history j
   * changes, keeping its shape and holding its reach map; the entry value
   * grows by dist[j] times the history's value; the infosets of its tree
   * end marked as set at t, and every other infoset changes in its
   * counterfactual values at most.
   */
  function EnterStep<S, A(==), T(==)>(hs: seq<History<S, A, T>>, dist: seq<real>, opt: Player, rProb: real, t: nat,
                                      j: nat, inf: Infosets<A, T>, enter: real): (r: (seq<History<S, A, T>>, Infosets<A, T>, real))
    requires j < |hs| && j < |dist| && AllConsistent(hs, inf) && Shaped(inf) && t > 0 && Clocked(inf, t)
    ensures |r.0| == |hs| && r.0 == hs[j := r.0[j]] && SameShape(hs[j], r.0[j])
    ensures !hs[j].Terminal? ==> r.0[j].reach == HistoryReach(dist[j], opt, rProb)
    ensures AllConsistent(r.0, r.1) && Shaped(r.1) && Clocked(r.1, t) && SameActions(inf, r.1)
    ensures r.2 == enter + dist[j] * Value(hs[j], inf)
    ensures UpdatedWithin(inf, r.1, InfosOf(hs[j]), t)
  {
    var m := MakeUtilities(hs[j], inf, opt, HistoryReach(dist[j], opt, rProb));
    StepFrame(hs, j, inf, m, t);
    (hs[j := m.1], ApplyUpdates(m.1, m.2, t), AddWeighted(enter, dist[j], m.0))
  }

  /** Every infoset under `keys` ends marked as set at t; every other one changes in its counterfactual values at most. */
  ghost predicate UpdatedWithin<A, T>(inf: Infosets<A, T>, inf': Infosets<A, T>, keys: set<T>, t: nat)
  {
    (forall key :: key in inf && key !in keys ==> key in inf' && CounterfactualsOnly(inf[key], inf'[key])) &&
    (forall key :: key in keys ==> key in inf' && inf'[key].policy.lastSet == t)
  }

  /** What `make_utilities` and then `apply_updates(t)` on history j do to the list and to the infosets inside and outside its tree. */
  lemma {:induction false} StepFrame<S, A, T>(hs: seq<History<S, A, T>>, j: nat, inf: Infosets<A, T>, m: (real, History<S, A, T>, Infosets<A, T>), t: nat)
    requires j < |hs| && AllConsistent(hs, inf) && Shaped(inf) && t > 0 && Clocked(inf, t)
    requires OnlyCounterfactuals(inf, m.2) && Shaped(m.2) && SameShape(hs[j], m.1) && Consistent(m.1, m.2)
    ensures Clocked(m.2, t)
    ensures var r := ApplyUpdates(m.1, m.2, t);
      AllConsistent(hs[j := m.1], r) && Shaped(r) && Clocked(r, t) && SameActions(inf, r) && UpdatedWithin(inf, r, InfosOf(hs[j]), t)
  {
    MapsStep(hs, j, inf, inf, m, t);
    SameShapeInfos(hs[j], m.1);
    ApplyUpdatesProperties(m.1, m.2, t);
  }

  /** EnterFrom at a zipped position is EnterStep there followed by EnterFrom at the next one. */
  lemma {:induction false} EnterFromUnfold<S, A, T>(hs: seq<History<S, A, T>>, dist: seq<real>, opt: Player, rProb: real, t: nat,
                                                   j: nat, inf: Infosets<A, T>, enter: real)
    requires j < |hs| && j < |dist| && AllConsistent(hs, inf) && Shaped(inf) && t > 0 && Clocked(inf, t)
    ensures var s := EnterStep(hs, dist, opt, rProb, t, j, inf, enter);
      EnterFrom(hs, dist, opt, rProb, t, j, inf, enter) == EnterFrom(s.0, dist, opt, rProb, t, j + 1, s.1, s.2)
  {
  }

  /** Trees of the same shape have the same infosets. */
  lemma {:induction false} SameShapeInfos<S, A, T>(h: History<S, A, T>, h': History<S, A, T>)
    requires SameShape(h, h')
    ensures InfosOf(h') == InfosOf(h)
    decreases h, 1
  {
    if h.Expanded? {
      SameShapeInfosFrom(h, h', 0);
    }
  }

  lemma {:induction false} SameShapeInfosFrom<S, A, T>(h: History<S, A, T>, h': History<S, A, T>, k: nat)
    requires h.Expanded? && h'.Expanded? && k <= |h.children| == |h'.children| && SameShapeFrom(h, h', k)
    ensures InfosFrom(h', k) == InfosFrom(h, k)
    decreases h, 0, |h.children| - k
  {
    if k < |h.children| {
      assert h.children[k] in h.children;
      SameShapeInfos(h.children[k].1, h'.children[k].1);
      SameShapeInfosFrom(h, h', k + 1);
    }
  }

  /**
   * The history loop of `cfr_iterations` from history j on, over the
   * histories zipped with the sampling distribution: EnterStep on each
   * remaining pair in order.
   */
  function EnterFrom<S, A(==), T(==)>(hs: seq<History<S, A, T>>, dist: seq<real>, opt: Player, rProb: real, t: nat,
                                      j: nat, inf: Infosets<A, T>, enter: real): (r: (seq<History<S, A, T>>, Infosets<A, T>, real))
    requires AllConsistent(hs, inf) && Shaped(inf) && t > 0 && Clocked(inf, t)
    ensures |r.0| == |hs| && AllConsistent(r.0, r.1) && Shaped(r.1) && Clocked(r.1, t) && SameActions(inf, r.1)
    decreases |hs| - j
  {
    if j >= |hs| || j >= |dist| then (hs, inf, enter)
    else
      var s := EnterStep(hs, dist, opt, rProb, t, j, inf, enter);
      var r := EnterFrom(s.0, dist, opt, rProb, t, j + 1, s.1, s.2);
      SameActionsTrans(inf, s.1, r.1);
      r
  }

  /** The number of pairs `zip` yields from sequences of lengths m and n. */
  function Zip(m: nat, n: nat): (z: nat)
    ensures z <= m && z <= n && (z == m || z == n)
  {
    if m < n then m else n
  }

  /** The infosets of the trees at positions j to n - 1. */
  function InfosBetween<S, A, T>(hs: seq<History<S, A, T>>, j: nat, n: nat): set<T>
    requires n <= |hs|
    decreases n - j
  {
    if j >= n then {} else InfosOf(hs[j]) + InfosBetween(hs, j + 1, n)
  }

  /** An infoset of the trees at positions j to n - 1 is an infoset of one of them. */
  lemma {:induction false} InfosBetweenMember<S, A, T>(hs: seq<History<S, A, T>>, j: nat, n: nat, key: T) returns (i: nat)
    requires n <= |hs| && key in InfosBetween(hs, j, n)
    ensures j <= i < n && key in InfosOf(hs[i])
    decreases n - j
  {
    if key in InfosOf(hs[j]) {
      i := j;
    } else {
      i := InfosBetweenMember(hs, j + 1, n, key);
    }
  }

  /** Lists agreeing at positions j to n - 1 have the same infosets there. */
  lemma {:induction false} InfosBetweenSame<S, A, T>(hs: seq<History<S, A, T>>, hs': seq<History<S, A, T>>, j: nat, n: nat)
    requires n <= |hs| && n <= |hs'| && forall i :: j <= i < n ==> hs'[i] == hs[i]
    ensures InfosBetween(hs', j, n) == InfosBetween(hs, j, n)
    decreases n - j
  {
    if j < n {
      InfosBetweenSame(hs, hs', j + 1, n);
    }
  }

  /**
   * What the history loop does to the infosets: every infoset of the
   * visited trees ends marked as set at t, and every other infoset changes
   * in its counterfactual values at most.
   */
  lemma {:induction false} EnterFromUpdates<S, A, T>(hs: seq<History<S, A, T>>, dist: seq<real>, opt: Player, rProb: real, t: nat,
                                                    j: nat, inf: Infosets<A, T>, enter: real)
    requires AllConsistent(hs, inf) && Shaped(inf) && t > 0 && Clocked(inf, t)
    ensures UpdatedWithin(inf, EnterFrom(hs, dist, opt, rProb, t, j, inf, enter).1, InfosBetween(hs, j, Zip(|hs|, |dist|)), t)
    decreases |hs| - j
  {
    if j < Zip(|hs|, |dist|) {
      var s := EnterStep(hs, dist, opt, rProb, t, j, inf, enter);
      EnterFromUpdates(s.0, dist, opt, rProb, t, j + 1, s.1, s.2);
      EnterUpdatesStep(hs, dist, opt, rProb, t, j, inf, enter);
    } else {
      EnterFromDone(hs, dist, opt, rProb, t, j, inf, enter);
    }
  }

  /** Past the end of the zip the loop changes nothing. */
  lemma {:induction false} EnterFromDone<S, A, T>(hs: seq<History<S, A, T>>, dist: seq<real>, opt: Player, rProb: real, t: nat,
                                                 j: nat, inf: Infosets<A, T>, enter: real)
    requires AllConsistent(hs, inf) && Shaped(inf) && t > 0 && Clocked(inf, t) && Zip(|hs|, |dist|) <= j
    ensures UpdatedWithin(inf, EnterFrom(hs, dist, opt, rProb, t, j, inf, enter).1, InfosBetween(hs, j, Zip(|hs|, |dist|)), t)
  {
    UpdatedWithinNothing(inf, t);
  }

  /** One turn of the history loop composes with the updates of the turns after it. */
  lemma {:induction false} EnterUpdatesStep<S, A, T>(hs: seq<History<S, A, T>>, dist: seq<real>, opt: Player, rProb: real, t: nat,
                                                    j: nat, inf: Infosets<A, T>, enter: real)
    requires j < |hs| && j < |dist| && AllConsistent(hs, inf) && Shaped(inf) && t > 0 && Clocked(inf, t)
    requires var s := EnterStep(hs, dist, opt, rProb, t, j, inf, enter);
      UpdatedWithin(s.1, EnterFrom(s.0, dist, opt, rProb, t, j + 1, s.1, s.2).1, InfosBetween(s.0, j + 1, Zip(|s.0|, |dist|)), t)
    ensures UpdatedWithin(inf, EnterFrom(hs, dist, opt, rProb, t, j, inf, enter).1, InfosBetween(hs, j, Zip(|hs|, |dist|)), t)
  {
    var s := EnterStep(hs, dist, opt, rProb, t, j, inf, enter);
    EnterFromUnfold(hs, dist, opt, rProb, t, j, inf, enter);
    UpdatedWithinChain(hs, s.0, j, Zip(|hs|, |dist|), inf, s.1, EnterFrom(s.0, dist, opt, rProb, t, j + 1, s.1, s.2).1, t);
  }

  /** The updates of tree j followed by those of the trees after it are the updates of trees j onwards. */
  lemma {:induction false} UpdatedWithinChain<S, A, T>(hs: seq<History<S, A, T>>, hs': seq<History<S, A, T>>, j: nat, n: nat,
                                                      inf: Infosets<A, T>, mid: Infosets<A, T>, fin: Infosets<A, T>, t: nat)
    requires j < n <= |hs| && |hs'| == |hs| && hs' == hs[j := hs'[j]]
    requires UpdatedWithin(inf, mid, InfosOf(hs[j]), t)
    requires UpdatedWithin(mid, fin, InfosBetween(hs', j + 1, n), t)
    ensures UpdatedWithin(inf, fin, InfosBetween(hs, j, n), t)
  {
    InfosBetweenSame(hs, hs', j + 1, n);
    UpdatedWithinCompose(inf, mid, fin, InfosOf(hs[j]), InfosBetween(hs, j + 1, n), InfosBetween(hs, j, n), t);
  }

  /** Changing nothing is an update within no keys. */
  lemma {:induction false} UpdatedWithinNothing<A, T>(inf: Infosets<A, T>, t: nat)
    ensures UpdatedWithin(inf, inf, {}, t)
  {
    forall key | key in inf
      ensures CounterfactualsOnly(inf[key], inf[key])
    {
      var s := inf[key];
      assert s.policy.(counterfactuals := s.policy.counterfactuals) == s.policy;
    }
  }

  /** Two rounds of updates within k1 and then k2 are updates within k1 + k2. */
  lemma {:induction false} UpdatedWithinCompose<A, T>(inf: Infosets<A, T>, mid: Infosets<A, T>, r: Infosets<A, T>, k1: set<T>, k2: set<T>, k: set<T>, t: nat)
    requires UpdatedWithin(inf, mid, k1, t) && UpdatedWithin(mid, r, k2, t) && k == k1 + k2
    ensures UpdatedWithin(inf, r, k, t)
  {
    forall key | key in inf && key !in k
      ensures key in r && CounterfactualsOnly(inf[key], r[key])
    {
      assert CounterfactualsOnly(mid[key], r[key]);
    }
    forall key | key in k1 && key !in k2
      ensures key in r && r[key].policy.lastSet == t
    {
      assert CounterfactualsOnly(mid[key], r[key]);
    }
  }

  /** Under `keys`, the two maps hold the same infosets with the same accumulated regrets. */
  ghost predicate RegretsAgreeOn<A, T>(inf: Infosets<A, T>, inf': Infosets<A, T>, keys: set<T>)
  {
    forall key :: key in keys ==>
      (key in inf <==> key in inf') && (key in inf ==> inf'[key].policy.accRegrets == inf[key].policy.accRegrets)
  }

  /** A tree's value reads the regrets of its own infosets only. */
  lemma {:induction false} ValueLocal<S, A, T>(h: History<S, A, T>, inf: Infosets<A, T>, inf': Infosets<A, T>, keys: set<T>)
    requires InfosOf(h) <= keys && RegretsAgreeOn(inf, inf', keys)
    ensures Value(h, inf') == Value(h, inf)
    decreases h, 1
  {
    if h.Expanded? && h.info in inf {
      ValueFromLocal(h, 0, CP.InstPolicy(inf[h.info].policy.accRegrets), inf, inf', keys);
    }
  }

  lemma {:induction false} ValueFromLocal<S, A, T>(h: History<S, A, T>, k: nat, dist: seq<real>, inf: Infosets<A, T>, inf': Infosets<A, T>, keys: set<T>)
    requires h.Expanded? && k <= |h.children| && InfosFrom(h, k) <= keys && RegretsAgreeOn(inf, inf', keys)
    ensures ValueFrom(h, k, dist, inf') == ValueFrom(h, k, dist, inf)
    decreases h, 0, |h.children| - k
  {
    if k < |h.children| {
      assert h.children[k] in h.children;
      ValueLocal(h.children[k].1, inf, inf', keys);
      ValueFromLocal(h, k + 1, dist, inf, inf', keys);
    }
  }

  /** No two trees of the list share an infoset. */
  ghost predicate Disjoint<S, A, T>(hs: seq<History<S, A, T>>)
  {
    forall i, k :: 0 <= i < k < |hs| ==> InfosOf(hs[i]) !! InfosOf(hs[k])
  }

  /** In a list of trees sharing no infoset, tree j shares none with the trees after it. */
  lemma {:induction false} DisjointFromLater<S, A, T>(hs: seq<History<S, A, T>>, j: nat)
    requires Disjoint(hs) && j < |hs|
    ensures InfosOf(hs[j]) !! InfosBetween(hs, j + 1, |hs|)
  {
    forall key | key in InfosBetween(hs, j + 1, |hs|)
      ensures key !in InfosOf(hs[j])
    {
      var i := InfosBetweenMember(hs, j + 1, |hs|, key);
      assert InfosOf(hs[j]) !! InfosOf(hs[i]);
    }
  }

  /** Regrets agreeing on `all` still agree on the part of it that an update within `own` leaves out. */
  lemma {:induction false} RegretsAgreeStep<A, T>(inf0: Infosets<A, T>, inf: Infosets<A, T>, inf': Infosets<A, T>, all: set<T>, next: set<T>, own: set<T>, t: nat)
    requires RegretsAgreeOn(inf0, inf, all) && next <= all && next !! own
    requires UpdatedWithin(inf, inf', own, t) && inf'.Keys == inf.Keys
    ensures RegretsAgreeOn(inf0, inf', next)
  {
    forall key | key in next && key in inf
      ensures inf'[key].policy.accRegrets == inf[key].policy.accRegrets
    {
      assert CounterfactualsOnly(inf[key], inf'[key]);
    }
  }

  /** The sum of dist[i]·Value(hs[i], inf) over the zipped positions i from j on. */
  function WeightedValues<S, A, T>(hs: seq<History<S, A, T>>, dist: seq<real>, inf: Infosets<A, T>, j: nat): real
    decreases |hs| - j
  {
    if j >= |hs| || j >= |dist| then 0.0 else dist[j] * Value(hs[j], inf) + WeightedValues(hs, dist, inf, j + 1)
  }

  /**
   * The entry value of a gadget whose histories share no infoset is the
   * sampling-chance-weighted sum of the histories' values against the
   * infosets as they were before the loop: each history's updates touch
   * the infosets of its own tree only, and a value reads only those.
   * (`hs0` is the list before the loop and `inf0` the map; j histories are
   * done.)
   */
  lemma {:induction false} EnterFromValue<S, A, T>(hs0: seq<History<S, A, T>>, hs: seq<History<S, A, T>>, dist: seq<real>, opt: Player, rProb: real,
                                                  t: nat, j: nat, inf0: Infosets<A, T>, inf: Infosets<A, T>, enter: real)
    requires |hs| == |hs0| && AllConsistent(hs, inf) && Shaped(inf) && t > 0 && Clocked(inf, t)
    requires Disjoint(hs0) && (forall i :: j <= i < |hs| ==> hs[i] == hs0[i])
    requires RegretsAgreeOn(inf0, inf, InfosBetween(hs0, j, |hs0|))
    ensures EnterFrom(hs, dist, opt, rProb, t, j, inf, enter).2 == enter + WeightedValues(hs0, dist, inf0, j)
    decreases |hs| - j
  {
    if j < |hs| && j < |dist| {
      var s := EnterStep(hs, dist, opt, rProb, t, j, inf, enter);
      EnterValueStep(hs0, hs, dist, opt, rProb, t, j, inf0, inf, enter);
      EnterFromValue(hs0, s.0, dist, opt, rProb, t, j + 1, inf0, s.1, s.2);
      EnterValueChain(hs0, hs, dist, opt, rProb, t, j, inf0, inf, enter);
    } else {
      EnterValueDone(hs0, hs, dist, opt, rProb, t, j, inf0, inf, enter);
    }
  }

  /** The value added by turn j followed by the values of the turns after it. */
  lemma {:induction false} EnterValueChain<S, A, T>(hs0: seq<History<S, A, T>>, hs: seq<History<S, A, T>>, dist: seq<real>, opt: Player, rProb: real,
                                                   t: nat, j: nat, inf0: Infosets<A, T>, inf: Infosets<A, T>, enter: real)
    requires j < |hs| && j < |dist| && AllConsistent(hs, inf) && Shaped(inf) && t > 0 && Clocked(inf, t)
    requires var s := EnterStep(hs, dist, opt, rProb, t, j, inf, enter);
      s.2 + WeightedValues(hs0, dist, inf0, j + 1) == enter + WeightedValues(hs0, dist, inf0, j) &&
      EnterFrom(s.0, dist, opt, rProb, t, j + 1, s.1, s.2).2 == s.2 + WeightedValues(hs0, dist, inf0, j + 1)
    ensures EnterFrom(hs, dist, opt, rProb, t, j, inf, enter).2 == enter + WeightedValues(hs0, dist, inf0, j)
  {
    EnterFromUnfold(hs, dist, opt, rProb, t, j, inf, enter);
  }

  /** Past the end of the zip the entry value is what it was. */
  lemma {:induction false} EnterValueDone<S, A, T>(hs0: seq<History<S, A, T>>, hs: seq<History<S, A, T>>, dist: seq<real>, opt: Player, rProb: real,
                                                  t: nat, j: nat, inf0: Infosets<A, T>, inf: Infosets<A, T>, enter: real)
    requires |hs| == |hs0| && AllConsistent(hs, inf) && Shaped(inf) && t > 0 && Clocked(inf, t) && (j >= |hs| || j >= |dist|)
    ensures EnterFrom(hs, dist, opt, rProb, t, j, inf, enter).2 == enter && WeightedValues(hs0, dist, inf0, j) == 0.0
  {
  }

  /** One turn of EnterFromValue: history j adds its chance-weighted value against the original regrets, and the regrets of the later trees stay as they were. */
  lemma {:induction false} EnterValueStep<S, A, T>(hs0: seq<History<S, A, T>>, hs: seq<History<S, A, T>>, dist: seq<real>, opt: Player, rProb: real,
                                                  t: nat, j: nat, inf0: Infosets<A, T>, inf: Infosets<A, T>, enter: real)
    requires j < |hs| == |hs0| && j < |dist| && AllConsistent(hs, inf) && Shaped(inf) && t > 0 && Clocked(inf, t)
    requires Disjoint(hs0) && (forall i :: j <= i < |hs| ==> hs[i] == hs0[i])
    requires RegretsAgreeOn(inf0, inf, InfosBetween(hs0, j, |hs0|))
    ensures var s := EnterStep(hs, dist, opt, rProb, t, j, inf, enter);
      s.2 + WeightedValues(hs0, dist, inf0, j + 1) == enter + WeightedValues(hs0, dist, inf0, j) &&
      RegretsAgreeOn(inf0, s.1, InfosBetween(hs0, j + 1, |hs0|)) &&
      (forall i :: j + 1 <= i < |hs| ==> s.0[i] == hs0[i])
  {
    var s := EnterStep(hs, dist, opt, rProb, t, j, inf, enter);
    ValueLocal(hs0[j], inf0, inf, InfosBetween(hs0, j, |hs0|));
    DisjointFromLater(hs0, j);
    RegretsAgreeStep(inf0, inf, s.1, InfosBetween(hs0, j, |hs0|), InfosBetween(hs0, j + 1, |hs0|), InfosOf(hs[j]), t);
  }

  /**
   * The loop of `cfr_iterations` over one gadget's histories, zipped with
   * the instantaneous policy of the gadget's chance infoset: its result is
   * EnterFrom from the first history, so each history is valued by
   * `make_utilities` from the reach map of its sampling chance and the
   * gadget's root probability, then `apply_updates(t)` runs on it, and
   * `enter_value` sums the chance-weighted values. What that means for the
   * trees, the entry value and the infosets is stated by EnterFromShapes,
   * EnterFromBound, EnterFromValue and EnterFromUpdates.
   */
  method EnterGadget<S, A(==), T(==)>(hs: seq<History<S, A, T>>, dist: seq<real>, inf: Infosets<A, T>, opt: Player, rProb: real, t: nat)
    returns (hs': seq<History<S, A, T>>, inf': Infosets<A, T>, enter: real)
    requires AllConsistent(hs, inf) && Shaped(inf) && t > 0 && Clocked(inf, t)
    ensures (hs', inf', enter) == EnterFrom(hs, dist, opt, rProb, t, 0, inf, 0.0)
  {
    hs', inf', enter := hs, inf, 0.0;
    for j := 0 to Zip(|hs|, |dist|)
      invariant |hs'| == |hs| && AllConsistent(hs', inf') && Shaped(inf') && Clocked(inf', t)
      invariant EnterFrom(hs', dist, opt, rProb, t, j, inf', enter) == EnterFrom(hs, dist, opt, rProb, t, 0, inf, 0.0)
    {
      var s := EnterStep(hs', dist, opt, rProb, t, j, inf', enter);
      EnterFromUnfold(hs', dist, opt, rProb, t, j, inf', enter);
      hs', inf', enter := s.0, s.1, s.2;
    }
  }

  /**
   * The trees the history loop leaves: every history keeps its shape, each
   * one zipped with the distribution holds the reach map of its sampling
   * chance and the root probability, and the ones past the end of the zip
   * are untouched. (j histories are done, from the list hs0.)
   */
  lemma {:induction false} EnterFromShapes<S, A, T>(hs0: seq<History<S, A, T>>, hs: seq<History<S, A, T>>, dist: seq<real>, opt: Player, rProb: real,
                                                   t: nat, j: nat, inf: Infosets<A, T>, enter: real)
    requires AllConsistent(hs, inf) && Shaped(inf) && t > 0 && Clocked(inf, t) && TreesInv(hs0, dist, opt, rProb, j, hs)
    ensures TreesInv(hs0, dist, opt, rProb, Zip(|hs0|, |dist|), EnterFrom(hs, dist, opt, rProb, t, j, inf, enter).0)
    decreases |hs| - j
  {
    if j < |hs| && j < |dist| {
      var s := EnterStep(hs, dist, opt, rProb, t, j, inf, enter);
      EnterFromUnfold(hs, dist, opt, rProb, t, j, inf, enter);
      TreesInvStep(hs0, dist, opt, rProb, j, hs, s.0[j]);
      EnterFromShapes(hs0, s.0, dist, opt, rProb, t, j + 1, s.1, s.2);
    }
  }

  /**
   * With leaf payoffs in [lo, hi] (holding 0) and a non-negative
   * distribution, the entry value stays between lo and hi times the
   * probability mass visited.
   */
  lemma {:induction false} EnterFromBound<S, A, T>(hs0: seq<History<S, A, T>>, hs: seq<History<S, A, T>>, dist: seq<real>, opt: Player, rProb: real,
                                                  t: nat, j: nat, inf: Infosets<A, T>, enter: real, lo: real, hi: real)
    requires AllConsistent(hs, inf) && Shaped(inf) && t > 0 && Clocked(inf, t)
    requires |hs| == |hs0| && j <= |hs| && j <= |dist| && (forall i :: j <= i < |hs| ==> hs[i] == hs0[i])
    requires Bounded(hs0, dist, lo, hi) && Within(enter, lo, hi, PrefixSum(dist, j))
    ensures Within(EnterFrom(hs, dist, opt, rProb, t, j, inf, enter).2, lo, hi, PrefixSum(dist, Zip(|hs|, |dist|)))
    decreases |hs| - j
  {
    if j < |hs| && j < |dist| {
      var s := EnterStep(hs, dist, opt, rProb, t, j, inf, enter);
      EnterFromUnfold(hs, dist, opt, rProb, t, j, inf, enter);
      ValueBounded(hs[j], inf, lo, hi);
      EnterBoundStep(dist, j, Value(hs[j], inf), enter, lo, hi);
      EnterFromBound(hs0, s.0, dist, opt, rProb, t, j + 1, s.1, s.2, lo, hi);
    }
  }

  /** Leaf payoffs in [lo, hi], an interval holding 0, and non-negative sampling chances. */
  ghost predicate Bounded<S, A, T>(hs: seq<History<S, A, T>>, dist: seq<real>, lo: real, hi: real)
  {
    NonNegative(dist) && lo <= 0.0 <= hi && forall i :: 0 <= i < |hs| ==> PayoffsIn(hs[i], lo, hi)
  }

  /** Before the loop: no history visited, every one its own shape. */
  lemma {:induction false} TreesInvInit<S, A, T>(hs: seq<History<S, A, T>>, dist: seq<real>, opt: Player, rProb: real)
    ensures TreesInv(hs, dist, opt, rProb, 0, hs)
  {
    forall i | 0 <= i < |hs|
      ensures SameShape(hs[i], hs[i])
    {
      SameShapeRefl(hs[i]);
    }
  }

  /** v lies between lo and hi times the weight w. */
  ghost predicate Within(v: real, lo: real, hi: real, w: real)
  {
    lo * w <= v <= hi * w
  }

  /** `acc += p * v`. */
  function AddWeighted(acc: real, p: real, v: real): real
  {
    acc + p * v
  }

  /** The bound on `enter_value` survives one more chance-weighted value. */
  lemma {:induction false} EnterBoundStep(dist: seq<real>, j: nat, v: real, enter: real, lo: real, hi: real)
    requires j < |dist| && NonNegative(dist) && lo <= 0.0 <= hi && lo <= v <= hi
    requires Within(enter, lo, hi, PrefixSum(dist, j))
    ensures Within(AddWeighted(enter, dist[j], v), lo, hi, PrefixSum(dist, j + 1))
  {
    PrefixSumStep(dist, j);
    BoundStep(dist[j], v, enter, lo, hi, PrefixSum(dist, j), PrefixSum(dist, j + 1));
  }

  /** The prefix sum grows by the next entry. */
  lemma {:induction false} PrefixSumStep(s: seq<real>, j: nat)
    requires j < |s|
    ensures PrefixSum(s, j + 1) == PrefixSum(s, j) + s[j]
  {
    assert s[..j + 1][..j] == s[..j];
  }

  /** The sampling distribution of a gadget: the instantaneous policy of its chance infoset. */
  function GadgetDist<S, A, T>(gd: Gadget<S, A, T>): (d: seq<real>)
    ensures |d| == |gd.info.policy.accRegrets|
  {
    CP.InstPolicy(gd.info.policy.accRegrets)
  }

  /** Every gadget's histories are consistent with the map. */
  ghost predicate GadgetsConsistent<S, A, T>(gs: seq<Gadget<S, A, T>>, inf: Infosets<A, T>)
  {
    forall k :: 0 <= k < |gs| ==> AllConsistent(gs[k].children, inf)
  }

  /** The gadgets after the first i of the loop of `cfr_iterations`: only their histories change, keeping their shapes; the visited ones hold their reach maps; the rest are untouched. */
  ghost predicate GadgetTreesInv<S, A, T>(gs: seq<Gadget<S, A, T>>, rdist: seq<real>, opt: Player, i: nat, gs': seq<Gadget<S, A, T>>)
  {
    i <= |gs| && i <= |rdist| && |gs'| == |gs| &&
    (forall k :: 0 <= k < |gs| ==> gs'[k] == gs[k].(children := gs'[k].children) && SameShapes(gs[k].children, gs'[k].children)) &&
    (forall k :: i <= k < |gs| ==> gs'[k] == gs[k]) &&
    (forall k, j :: 0 <= k < i && 0 <= j < |gs[k].children| && j < |GadgetDist(gs[k])| && !gs[k].children[j].Terminal? ==>
      gs'[k].children[j].reach == HistoryReach(GadgetDist(gs[k])[j], opt, rdist[k]))
  }

  /** The invariant of the loop of `cfr_iterations` after i gadgets. */
  ghost predicate GadgetsInv<S, A, T>(gs: seq<Gadget<S, A, T>>, rdist: seq<real>, inf: Infosets<A, T>, opt: Player, t: nat,
                                      i: nat, gs': seq<Gadget<S, A, T>>, inf': Infosets<A, T>)
  {
    GadgetTreesInv(gs, rdist, opt, i, gs') && GadgetsConsistent(gs', inf') && Shaped(inf') && t > 0 && Clocked(inf', t) && SameActions(inf, inf')
  }

  /** One gadget's pass keeps the invariant: the other gadgets' trees stay consistent as only counterfactuals and updates changed. */
  lemma {:induction false} GadgetsInvStep<S, A, T>(gs: seq<Gadget<S, A, T>>, rdist: seq<real>, inf: Infosets<A, T>, opt: Player, t: nat,
                                                  i: nat, gs': seq<Gadget<S, A, T>>, inf': Infosets<A, T>, hs: seq<History<S, A, T>>, inf2: Infosets<A, T>)
    requires GadgetsInv(gs, rdist, inf, opt, t, i, gs', inf') && i < |gs| && i < |rdist|
    requires SameShapes(gs[i].children, hs) && AllConsistent(hs, inf2) && Shaped(inf2) && Clocked(inf2, t) && SameActions(inf', inf2)
    requires forall j :: 0 <= j < |gs[i].children| && j < |GadgetDist(gs[i])| && !gs[i].children[j].Terminal? ==>
      hs[j].reach == HistoryReach(GadgetDist(gs[i])[j], opt, rdist[i])
    ensures GadgetsInv(gs, rdist, inf, opt, t, i + 1, gs'[i := gs[i].(children := hs)], inf2)
  {
    var gs2 := gs'[i := gs[i].(children := hs)];
    forall k | 0 <= k < |gs2|
      ensures AllConsistent(gs2[k].children, inf2)
    {
      if k != i {
        AllConsistentKept(gs'[k].children, inf', inf2);
      }
    }
    SameActionsTrans(inf, inf', inf2);
  }

  /** Gadget i's histories replaced by hs, under a map with the same actions, leave every gadget consistent. */
  lemma {:induction false} GadgetsConsistentStep<S, A, T>(gs: seq<Gadget<S, A, T>>, i: nat, inf: Infosets<A, T>, hs: seq<History<S, A, T>>, inf2: Infosets<A, T>)
    requires i < |gs| && GadgetsConsistent(gs, inf) && AllConsistent(hs, inf2) && SameActions(inf, inf2) && Shaped(inf2)
    ensures GadgetsConsistent(gs[i := gs[i].(children := hs)], inf2)
  {
    var gs2 := gs[i := gs[i].(children := hs)];
    forall k | 0 <= k < |gs2|
      ensures AllConsistent(gs2[k].children, inf2)
    {
      if k != i {
        AllConsistentKept(gs[k].children, inf, inf2);
      }
    }
  }

  /**
   * One turn of the gadget loop of `cfr_iterations`: gadget i's histories
   * go through EnterFrom with the gadget's sampling distribution and root
   * probability `rdist[i]`; only that gadget's histories change.
   */
  function GadgetStep<S, A(==), T(==)>(gs: seq<Gadget<S, A, T>>, rdist: seq<real>, opt: Player, t: nat, i: nat, inf: Infosets<A, T>)
    : (r: (seq<Gadget<S, A, T>>, Infosets<A, T>))
    requires i < |gs| && i < |rdist| && GadgetsConsistent(gs, inf) && Shaped(inf) && t > 0 && Clocked(inf, t)
    ensures |r.0| == |gs| && r.0 == gs[i := gs[i].(children := r.0[i].children)]
    ensures GadgetsConsistent(r.0, r.1) && Shaped(r.1) && Clocked(r.1, t) && SameActions(inf, r.1)
  {
    var e := EnterFrom(gs[i].children, GadgetDist(gs[i]), opt, rdist[i], t, 0, inf, 0.0);
    GadgetsConsistentStep(gs, i, inf, e.0, e.1);
    (gs[i := gs[i].(children := e.0)], e.1)
  }

  /** The gadget loop of `cfr_iterations` from gadget i on, over the gadgets zipped with the root's distribution. */
  function CfrFrom<S, A(==), T(==)>(gs: seq<Gadget<S, A, T>>, rdist: seq<real>, opt: Player, t: nat, i: nat, inf: Infosets<A, T>)
    : (r: (seq<Gadget<S, A, T>>, Infosets<A, T>))
    requires GadgetsConsistent(gs, inf) && Shaped(inf) && t > 0 && Clocked(inf, t)
    ensures |r.0| == |gs| && GadgetsConsistent(r.0, r.1) && Shaped(r.1) && Clocked(r.1, t) && SameActions(inf, r.1)
    decreases |gs| - i
  {
    if i >= |gs| || i >= |rdist| then (gs, inf)
    else
      var s := GadgetStep(gs, rdist, opt, t, i, inf);
      var r := CfrFrom(s.0, rdist, opt, t, i + 1, s.1);
      SameActionsTrans(inf, s.1, r.1);
      r
  }

  /**
   * The whole of `cfr_iterations(opt)` at update count t on the subgame
   * root: the gadget loop under the root's instantaneous policy, with the
   * root policy itself left as it is.
   */
  function CfrPass<S, A(==), T(==)>(root: Root<S, A, T>, inf: Infosets<A, T>, opt: Player, t: nat): (r: (Root<S, A, T>, Infosets<A, T>))
    requires GadgetsConsistent(root.children, inf) && Shaped(inf) && t > 0 && Clocked(inf, t)
    ensures r.0 == root.(children := r.0.children) && |r.0.children| == |root.children|
    ensures GadgetsConsistent(r.0.children, r.1) && Shaped(r.1) && Clocked(r.1, t) && SameActions(inf, r.1)
  {
    var c := CfrFrom(root.children, CP.InstPolicy(root.policy.accRegrets), opt, t, 0, inf);
    (root.(children := c.0), c.1)
  }

  /** The infosets of the histories the gadget loop visits from gadget i on. */
  function GadgetInfos<S, A, T>(gs: seq<Gadget<S, A, T>>, rdist: seq<real>, i: nat): set<T>
    decreases |gs| - i
  {
    if i >= |gs| || i >= |rdist| then {}
    else InfosBetween(gs[i].children, 0, Zip(|gs[i].children|, |GadgetDist(gs[i])|)) + GadgetInfos(gs, rdist, i + 1)
  }

  lemma {:induction false} GadgetInfosSame<S, A, T>(gs: seq<Gadget<S, A, T>>, gs': seq<Gadget<S, A, T>>, rdist: seq<real>, i: nat)
    requires |gs'| == |gs| && forall k :: i <= k < |gs| ==> gs'[k] == gs[k]
    ensures GadgetInfos(gs', rdist, i) == GadgetInfos(gs, rdist, i)
    decreases |gs| - i
  {
    if i < |gs| && i < |rdist| {
      GadgetInfosSame(gs, gs', rdist, i + 1);
    }
  }

  /**
   * What the gadget loop does to the infosets: every infoset of a visited
   * history's tree ends marked as set at t, and every other infoset
   * changes in its counterfactual values at most, so its regrets and
   * policy stay as they were.
   */
  lemma {:induction false} CfrFromUpdates<S, A, T>(gs: seq<Gadget<S, A, T>>, rdist: seq<real>, opt: Player, t: nat, i: nat, inf: Infosets<A, T>)
    requires GadgetsConsistent(gs, inf) && Shaped(inf) && t > 0 && Clocked(inf, t)
    ensures UpdatedWithin(inf, CfrFrom(gs, rdist, opt, t, i, inf).1, GadgetInfos(gs, rdist, i), t)
    decreases |gs| - i
  {
    if i < |gs| && i < |rdist| {
      var s := GadgetStep(gs, rdist, opt, t, i, inf);
      var here := InfosBetween(gs[i].children, 0, Zip(|gs[i].children|, |GadgetDist(gs[i])|));
      EnterFromUpdates(gs[i].children, GadgetDist(gs[i]), opt, rdist[i], t, 0, inf, 0.0);
      assert s.1 == EnterFrom(gs[i].children, GadgetDist(gs[i]), opt, rdist[i], t, 0, inf, 0.0).1;
      CfrFromUpdates(s.0, rdist, opt, t, i + 1, s.1);
      GadgetInfosSame(gs, s.0, rdist, i + 1);
      assert CfrFrom(gs, rdist, opt, t, i, inf) == CfrFrom(s.0, rdist, opt, t, i + 1, s.1);
      UpdatedWithinCompose(inf, s.1, CfrFrom(s.0, rdist, opt, t, i + 1, s.1).1, here, GadgetInfos(gs, rdist, i + 1), GadgetInfos(gs, rdist, i), t);
    }
  }

  /** One turn of the loop of `cfr_iterations`: the histories of gadget i, zipped with its sampling distribution, under root probability `rdist[i]`. */
  method CfrGadget<S, A(==), T(==)>(rdist: seq<real>, opt: Player, t: nat, i: nat, gs: seq<Gadget<S, A, T>>, inf: Infosets<A, T>)
    returns (gd: Gadget<S, A, T>, inf': Infosets<A, T>)
    requires i < |gs| && i < |rdist| && GadgetsConsistent(gs, inf) && Shaped(inf) && t > 0 && Clocked(inf, t)
    ensures (gs[i := gd], inf') == GadgetStep(gs, rdist, opt, t, i, inf)
  {
    var hs, enter;
    hs, inf', enter := EnterGadget(gs[i].children, GadgetDist(gs[i]), inf, opt, rdist[i], t);
    gd := gs[i].(children := hs);
  }

  /** CfrFrom at a zipped position is GadgetStep there followed by CfrFrom at the next one. */
  lemma {:induction false} CfrFromUnfold<S, A, T>(gs: seq<Gadget<S, A, T>>, rdist: seq<real>, opt: Player, t: nat, i: nat, inf: Infosets<A, T>)
    requires i < |gs| && i < |rdist| && GadgetsConsistent(gs, inf) && Shaped(inf) && t > 0 && Clocked(inf, t)
    ensures var s := GadgetStep(gs, rdist, opt, t, i, inf);
      CfrFrom(gs, rdist, opt, t, i, inf) == CfrFrom(s.0, rdist, opt, t, i + 1, s.1)
  {
  }

  /**
   * `cfr_iterations(opt)`: the update counter grows by one and the
   * subgame root and infosets become CfrPass at the new count: every
   * gadget zipped with the root's instantaneous policy runs EnterGadget,
   * with its own chance infoset's instantaneous policy as sampling
   * distribution and the root probability as the opponent's reach. The
   * root policy and the gadgets' resolvers, alternatives, priors and
   * chance infosets stay as they were (their updates are commented out in
   * the source). CfrPassShapes and CfrFromUpdates state what the pass does
   * to the histories and to the infosets.
   */
  method CfrIterations<S, A(==), T(==)>(root: Root<S, A, T>, inf: Infosets<A, T>, opt: Player, total: nat)
    returns (root': Root<S, A, T>, inf': Infosets<A, T>, total': nat)
    requires GadgetsConsistent(root.children, inf) && Shaped(inf) && Clocked(inf, total)
    ensures total' == total + 1 && (root', inf') == CfrPass(root, inf, opt, total')
  {
    total' := total + 1;
    var rdist := CP.InstPolicy(root.policy.accRegrets);
    var gs := root.children;
    var gs' := gs;
    inf' := inf;
    ClockedLater(inf, total, total');
    for i := 0 to Zip(|gs|, |rdist|)
      invariant |gs'| == |gs| && GadgetsConsistent(gs', inf') && Shaped(inf') && Clocked(inf', total')
      invariant CfrFrom(gs', rdist, opt, total', i, inf') == CfrFrom(gs, rdist, opt, total', 0, inf)
    {
      var gd, inf2 := CfrGadget(rdist, opt, total', i, gs', inf');
      CfrFromUnfold(gs', rdist, opt, total', i, inf');
      gs', inf' := gs'[i := gd], inf2;
    }
    root' := root.(children := gs');
  }

  /**
   * What the gadget loop does to the histories: only the gadgets'
   * histories change, each keeping its shape; every history zipped with
   * its gadget's distribution, in a gadget zipped with the root's, holds
   * the reach map of its sampling chance and the root probability; the
   * gadgets past the end of the zip are untouched. (i gadgets are done,
   * from the list gs0 and the map inf0.)
   */
  lemma {:induction false} CfrFromShapes<S, A, T>(gs0: seq<Gadget<S, A, T>>, gs: seq<Gadget<S, A, T>>, rdist: seq<real>, opt: Player, t: nat,
                                                 i: nat, inf0: Infosets<A, T>, inf: Infosets<A, T>)
    requires GadgetsInv(gs0, rdist, inf0, opt, t, i, gs, inf)
    ensures GadgetTreesInv(gs0, rdist, opt, Zip(|gs0|, |rdist|), CfrFrom(gs, rdist, opt, t, i, inf).0)
    decreases |gs| - i
  {
    if i < |gs| && i < |rdist| {
      var s := GadgetStep(gs, rdist, opt, t, i, inf);
      CfrShapesStep(gs0, gs, rdist, opt, t, i, inf0, inf);
      CfrFromUnfold(gs, rdist, opt, t, i, inf);
      CfrFromShapes(gs0, s.0, rdist, opt, t, i + 1, inf0, s.1);
    } else {
      CfrShapesDone(gs0, gs, rdist, opt, t, i, inf0, inf);
    }
  }

  /** Past the zipped gadgets CfrFrom returns the gadgets unchanged, and the invariant is complete. */
  lemma {:induction false} CfrShapesDone<S, A, T>(gs0: seq<Gadget<S, A, T>>, gs: seq<Gadget<S, A, T>>, rdist: seq<real>, opt: Player, t: nat,
                                                 i: nat, inf0: Infosets<A, T>, inf: Infosets<A, T>)
    requires GadgetsInv(gs0, rdist, inf0, opt, t, i, gs, inf) && !(i < |gs| && i < |rdist|)
    ensures GadgetTreesInv(gs0, rdist, opt, Zip(|gs0|, |rdist|), CfrFrom(gs, rdist, opt, t, i, inf).0)
  {
    assert i == Zip(|gs0|, |rdist|);
  }

  /** One gadget of CfrFromShapes: the invariant moves past gadget i. */
  lemma {:induction false} CfrShapesStep<S, A, T>(gs0: seq<Gadget<S, A, T>>, gs: seq<Gadget<S, A, T>>, rdist: seq<real>, opt: Player, t: nat,
                                                 i: nat, inf0: Infosets<A, T>, inf: Infosets<A, T>)
    requires GadgetsInv(gs0, rdist, inf0, opt, t, i, gs, inf) && i < |gs| && i < |rdist|
    ensures var s := GadgetStep(gs, rdist, opt, t, i, inf);
      GadgetsInv(gs0, rdist, inf0, opt, t, i + 1, s.0, s.1)
  {
    var s := GadgetStep(gs, rdist, opt, t, i, inf);
    var e := EnterFrom(gs[i].children, GadgetDist(gs[i]), opt, rdist[i], t, 0, inf, 0.0);
    TreesInvInit(gs[i].children, GadgetDist(gs[i]), opt, rdist[i]);
    EnterFromShapes(gs[i].children, gs[i].children, GadgetDist(gs[i]), opt, rdist[i], t, 0, inf, 0.0);
    SameActionsTrans(inf0, inf, e.1);
    GadgetsInvStep(gs0, rdist, inf0, opt, t, i, gs, inf, e.0, e.1);
    assert s == (gs[i := gs0[i].(children := e.0)], e.1);
  }

  /** CfrPass on the subgame root, in the terms of CfrFromShapes: the root's gadgets zipped with its instantaneous policy. */
  lemma {:induction false} CfrPassShapes<S, A, T>(root: Root<S, A, T>, inf: Infosets<A, T>, opt: Player, t: nat)
    requires GadgetsConsistent(root.children, inf) && Shaped(inf) && t > 0 && Clocked(inf, t)
    ensures var rdist := CP.InstPolicy(root.policy.accRegrets);
      GadgetTreesInv(root.children, rdist, opt, Zip(|root.children|, |rdist|), CfrPass(root, inf, opt, t).0.children)
  {
    var rdist := CP.InstPolicy(root.policy.accRegrets);
    forall k | 0 <= k < |root.children|
      ensures SameShapes(root.children[k].children, root.children[k].children)
    {
      TreesInvInit(root.children[k].children, [], opt, 0.0);
    }
    CfrFromShapes(root.children, root.children, rdist, opt, t, 0, inf, inf);
  }

  /** A map clocked at t is clocked at any later t'. */
  lemma {:induction false} ClockedLater<A, T>(inf: Infosets<A, T>, t: nat, t': nat)
    requires Clocked(inf, t) && t <= t'
    ensures Clocked(inf, t')
  {
  }

  /** Sameness of shape is transitive. */
  lemma {:induction false} SameShapeTrans<S, A, T>(h: History<S, A, T>, h1: History<S, A, T>, h2: History<S, A, T>)
    requires SameShape(h, h1) && SameShape(h1, h2)
    ensures SameShape(h, h2)
    decreases h, 1
  {
    if h.Expanded? {
      SameShapeFromTrans(h, h1, h2, 0);
    }
  }

  lemma {:induction false} SameShapeFromTrans<S, A, T>(h: History<S, A, T>, h1: History<S, A, T>, h2: History<S, A, T>, k: nat)
    requires h.Expanded? && h1.Expanded? && h2.Expanded? && k <= |h.children| == |h1.children| == |h2.children|
    requires SameShapeFrom(h, h1, k) && SameShapeFrom(h1, h2, k)
    ensures SameShapeFrom(h, h2, k)
    decreases h, 0, |h.children| - k
  {
    if k < |h.children| {
      assert h.children[k] in h.children;
      SameShapeTrans(h.children[k].1, h1.children[k].1, h2.children[k].1);
      SameShapeFromTrans(h, h1, h2, k + 1);
    }
  }

  lemma {:induction false} SameShapesTrans<S, A, T>(hs: seq<History<S, A, T>>, hs1: seq<History<S, A, T>>, hs2: seq<History<S, A, T>>)
    requires SameShapes(hs, hs1) && SameShapes(hs1, hs2)
    ensures SameShapes(hs, hs2)
  {
    forall i | 0 <= i < |hs|
      ensures SameShape(hs[i], hs2[i])
    {
      SameShapeTrans(hs[i], hs1[i], hs2[i]);
    }
  }

  // ---------------------------------------------------------------------
  // solve_step

  /** a·b·c + (1 − a)·d stays in [0, 1] when all four do. */
  lemma {:induction false} BlendInUnit(a: real, b: real, c: real, d: real)
    requires 0.0 <= a <= 1.0 && 0.0 <= b <= 1.0 && 0.0 <= c <= 1.0 && 0.0 <= d <= 1.0
    ensures 0.0 <= a * b * c + (1.0 - a) * d <= 1.0
  {
    var bc := b * c;
    ProductAtMost(b, c);
    var abc := a * bc;
    ProductAtMost(a, bc);
    var e := 1.0 - a;
    var ed := e * d;
    ProductAtMost(e, d);
    SplitAtMost(abc, ed, a);
    assert a * b * c + (1.0 - a) * d == abc + ed;
  }

  lemma {:induction false} SplitAtMost(x: real, y: real, a: real)
    requires 0.0 <= x <= a && 0.0 <= y <= 1.0 - a
    ensures 0.0 <= x + y <= 1.0
  {
  }

  /** A product of two numbers in [0, 1] lies between 0 and the first. */
  lemma {:induction false} ProductAtMost(p: real, q: real)
    requires 0.0 <= p <= 1.0 && 0.0 <= q <= 1.0
    ensures 0.0 <= p * q <= p
  {
    MulMonotone(p, q, 1.0);
    MulMonotone(p, 0.0, q);
  }

  /** What the root policy, the resolvers and every gadget's prior need for the reach blend of `solve_step`. */
  ghost predicate BlendReady<S, A, T>(root: Root<S, A, T>)
  {
    root.policy.Valid() && EveryGadgetIndexed(root) && forall k :: 0 <= k < |root.children| ==> ResolverReady(root.children[k].resolver)
  }

  /**
   * The reach probability `solve_step` computes for gadget k:
   * p_max·prior·p_resolve + (1 − p_max)·p_maxmargin, with p_resolve the
   * resolver's `p_exploit(ENTER)` and p_maxmargin the root policy's
   * `p_exploit(k)`. With its inputs probabilities it is one.
   */
  function TargetReach<S, A, T>(root: Root<S, A, T>, pmax: real, k: nat): (r: real)
    requires BlendReady(root) && k < |root.children|
    ensures 0.0 <= pmax <= 1.0 && 0.0 <= root.children[k].prior <= 1.0 && NonNegative(root.policy.accRegrets) ==> 0.0 <= r <= 1.0
  {
    assert k in root.policy.actions;
    var gd := root.children[k];
    var margin := CP.PExploit(root.policy.accRegrets, Position(root.policy.actions, k));
    var resolve := CP.PExploit(gd.resolver.accRegrets, Position(gd.resolver.actions, Enter));
    var r := pmax * gd.prior * resolve + (1.0 - pmax) * margin;
    if 0.0 <= pmax <= 1.0 && 0.0 <= gd.prior <= 1.0 && NonNegative(root.policy.accRegrets) then
      PExploitIsProbability(root.policy.accRegrets, Position(root.policy.actions, k));
      PExploitIsProbability(gd.resolver.accRegrets, Position(gd.resolver.actions, Enter));
      BlendInUnit(pmax, gd.prior, resolve, margin);
      r
    else r
  }

  /**
   * `solve_step`: a CFR iteration for P1 and then one for P2, so the count
   * grows by two, followed by `get_pmax` and the loop that computes each
   * gadget's reach blend. The blends are returned: the source computes
   * them and drops them, as the counterfactual they would feed is
   * commented out. The root and infosets become SolvePasses of the old
   * ones; the root policy and the resolvers are unchanged over both
   * passes (SolvePassesShapes), so the blends are those of the new root,
   * each a probability when the priors are and the root's regrets are
   * non-negative.
   */
  method SolveStep<S, A(==), T(==)>(root: Root<S, A, T>, inf: Infosets<A, T>, total: nat)
    returns (root': Root<S, A, T>, inf': Infosets<A, T>, total': nat, targets: seq<real>)
    requires GadgetsConsistent(root.children, inf) && Shaped(inf) && Clocked(inf, total) && BlendReady(root)
    ensures total' == total + 2 && (root', inf') == SolvePasses(root, inf, total)
    ensures BlendReady(root') && |targets| == |root.children|
    ensures forall k :: 0 <= k < |targets| ==> targets[k] == TargetReach(root', GetPMax(root'), k)
    ensures NonNegative(root.policy.accRegrets) && (forall k :: 0 <= k < |root.children| ==> 0.0 <= root.children[k].prior <= 1.0) ==>
      forall k :: 0 <= k < |targets| ==> 0.0 <= targets[k] <= 1.0
  {
    var r1, i1, t1 := CfrIterations(root, inf, P1, total);
    root', inf', total' := CfrIterations(r1, i1, P2, t1);
    SolvePassesChain(root, inf, total, r1, i1, root', inf');
    SolvePassesShapes(root, inf, total);
    assert BlendReady(root') by {
      assert forall k :: 0 <= k < |root'.children| ==> root'.children[k].resolver == root.children[k].resolver;
    }
    targets := Blends(root');
  }

  /** The two CFR passes of `solve_step`: one for P1 at count total + 1, then one for P2 at total + 2. */
  function SolvePasses<S, A(==), T(==)>(root: Root<S, A, T>, inf: Infosets<A, T>, total: nat): (r: (Root<S, A, T>, Infosets<A, T>))
    requires GadgetsConsistent(root.children, inf) && Shaped(inf) && Clocked(inf, total)
    ensures r.0 == root.(children := r.0.children) && |r.0.children| == |root.children|
    ensures GadgetsConsistent(r.0.children, r.1) && Shaped(r.1) && Clocked(r.1, total + 2) && SameActions(inf, r.1)
  {
    var p1 := CfrPass(root, inf, P1, total + 1);
    var p2 := CfrPass(p1.0, p1.1, P2, total + 2);
    SameActionsTrans(inf, p1.1, p2.1);
    p2
  }

  /** Two CfrIterations calls in a row compute SolvePasses. */
  lemma {:induction false} SolvePassesChain<S, A, T>(root: Root<S, A, T>, inf: Infosets<A, T>, total: nat,
                                                    r1: Root<S, A, T>, i1: Infosets<A, T>, r2: Root<S, A, T>, i2: Infosets<A, T>)
    requires GadgetsConsistent(root.children, inf) && Shaped(inf) && Clocked(inf, total)
    requires (r1, i1) == CfrPass(root, inf, P1, total + 1) && (r2, i2) == CfrPass(r1, i1, P2, total + 2)
    ensures (r2, i2) == SolvePasses(root, inf, total)
  {
  }

  /**
   * Over both passes of `solve_step` only the gadgets' histories change,
   * and every history keeps its shape: the root policy and the resolvers
   * the blends read are those the step started from.
   */
  lemma {:induction false} SolvePassesShapes<S, A, T>(root: Root<S, A, T>, inf: Infosets<A, T>, total: nat)
    requires GadgetsConsistent(root.children, inf) && Shaped(inf) && Clocked(inf, total)
    ensures var r := SolvePasses(root, inf, total);
      r.0.policy == root.policy &&
      forall k :: 0 <= k < |root.children| ==>
        r.0.children[k] == root.children[k].(children := r.0.children[k].children) &&
        SameShapes(root.children[k].children, r.0.children[k].children)
  {
    var p1 := CfrPass(root, inf, P1, total + 1);
    CfrPassShapes(root, inf, P1, total + 1);
    CfrPassShapes(p1.0, p1.1, P2, total + 2);
    GadgetShapesTrans(root.children, p1.0.children, SolvePasses(root, inf, total).0.children);
  }

  /** Two rounds that change only the gadgets' histories, keeping their shapes, make one. */
  lemma {:induction false} GadgetShapesTrans<S, A, T>(gs: seq<Gadget<S, A, T>>, gs1: seq<Gadget<S, A, T>>, gs2: seq<Gadget<S, A, T>>)
    requires |gs1| == |gs| && forall k :: 0 <= k < |gs| ==> gs1[k] == gs[k].(children := gs1[k].children) && SameShapes(gs[k].children, gs1[k].children)
    requires |gs2| == |gs1| && forall k :: 0 <= k < |gs1| ==> gs2[k] == gs1[k].(children := gs2[k].children) && SameShapes(gs1[k].children, gs2[k].children)
    ensures forall k :: 0 <= k < |gs| ==> gs2[k] == gs[k].(children := gs2[k].children) && SameShapes(gs[k].children, gs2[k].children)
  {
    forall k | 0 <= k < |gs|
      ensures SameShapes(gs[k].children, gs2[k].children)
    {
      SameShapesTrans(gs[k].children, gs1[k].children, gs2[k].children);
    }
  }

  /**
   * The loop of `solve_step` after `get_pmax`: the reach blend of every
   * gadget, in order, each a probability when the priors are and the
   * root's regrets are non-negative.
   */
  method Blends<S, A, T>(root: Root<S, A, T>) returns (targets: seq<real>)
    requires BlendReady(root)
    ensures |targets| == |root.children|
    ensures forall k :: 0 <= k < |targets| ==> targets[k] == TargetReach(root, GetPMax(root), k)
    ensures NonNegative(root.policy.accRegrets) && (forall k :: 0 <= k < |root.children| ==> 0.0 <= root.children[k].prior <= 1.0) ==>
      forall k :: 0 <= k < |targets| ==> 0.0 <= targets[k] <= 1.0
  {
    var pmax := GetPMax(root);
    targets := [];
    for k := 0 to |root.children|
      invariant |targets| == k
      invariant forall j :: 0 <= j < k ==> targets[j] == TargetReach(root, pmax, j)
    {
      targets := targets + [TargetReach(root, pmax, k)];
    }
  }

  // ---------------------------------------------------------------------
  // expansion_step_inner

  /** The random inputs of one `explore` or `exploit` call: the fallback choice, the uniform draw and the exploration roots sqrt(ln n / max(expansions, 1)). */
  datatype Draw = Draw(choice: nat, u: real, roots: seq<real>)

  /** A draw usable at a node with n actions. */
  predicate DrawFits(d: Draw, n: nat)
  {
    d.choice < n && 0.0 <= d.u < 1.0 && |d.roots| == n && NonNegative(d.roots)
  }

  /** The action index the descent takes at a node: `explore` at the descending player's own nodes, `exploit` elsewhere; either way one the policy in use plays with positive probability. */
  function Pick<A>(p: CP.PolicyState<A>, explore: bool, d: Draw): (i: nat)
    requires p.Valid() && |p.actions| > 0 && DrawFits(d, |p.actions|)
    ensures i < |p.actions|
    ensures explore ==> CP.ExplorationDist(CP.QualitiesOf(p, d.roots), p.accRegrets)[i] > 0.0
    ensures !explore ==> CP.InstPolicy(p.accRegrets)[i] > 0.0
  {
    if explore then CP.ExploreIndex(p, d.roots, d.choice, d.u) else CP.ExploitIndex(p, d.choice, d.u)
  }

  /** The actions of a node's children, in order. */
  function ChildActions<S, A, T>(children: seq<(A, History<S, A, T>)>): (acts: seq<A>)
    ensures |acts| == |children| && forall k :: 0 <= k < |children| ==> acts[k] == children[k].0
  {
    seq(|children|, k requires 0 <= k < |children| => children[k].0)
  }

  /** `add_expansion(a)` on the policy of the infoset under `key`. */
  function AddExpansion<A(==), T(==)>(inf: Infosets<A, T>, key: T, a: A): (r: Infosets<A, T>)
    requires key in inf && inf[key].policy.Valid() && a in inf[key].policy.actions
  {
    inf[key := inf[key].(policy := CP.WithExpansion(inf[key].policy, a))]
  }

  /**
   * What the descent needs not to panic along the path it takes: at each
   * Expanded node an infoset with as many actions as children and at least
   * one, a draw that fits, and a child carrying the picked action; at the
   * Visited node it stops at, infoset payoffs in the range `from_rewards`
   * accepts when a new infoset is made.
   */
  ghost predicate DescentReady<S, A, T>(g: Game<S, A, T>, player: Player, h: History<S, A, T>, inf: Infosets<A, T>, draws: seq<Draw>)
    decreases h
  {
    match h
    case Terminal(_) => true
    case Visited(s, _, _) => HeroTrace(g, s) !in inf ==> ChildEvaluationsInRange(g, s)
    case Expanded(info, _, children, hp, _) =>
      |draws| > 0 && info in inf && inf[info].policy.Valid() && |inf[info].policy.actions| == |children| > 0 &&
      DrawFits(draws[0], |children|) &&
      var p := inf[info].policy;
      var a := p.actions[Pick(p, hp == player, draws[0])];
      a in ChildActions(children) &&
      var k := Position(ChildActions(children), a);
      assert children[k] in children;
      DescentReady(g, player, children[k].1, AddExpansion(inf, info, a), draws[1..])
  }

  /** The second map differs from the first only in expansion counts, which never shrink, and in keys it adds. */
  ghost predicate ExpansionsOnly<A, T>(inf: Infosets<A, T>, inf': Infosets<A, T>)
  {
    inf.Keys <= inf'.Keys &&
    forall key :: key in inf ==>
      inf'[key] == inf[key].(policy := inf[key].policy.(expansions := inf'[key].policy.expansions)) &&
      |inf'[key].policy.expansions| == |inf[key].policy.expansions| &&
      forall j :: 0 <= j < |inf[key].policy.expansions| ==> inf'[key].policy.expansions[j] >= inf[key].policy.expansions[j]
  }

  /** At most one key of the second map is new. */
  ghost predicate AtMostOneNew<A, T>(inf: Infosets<A, T>, inf': Infosets<A, T>)
  {
    forall k1, k2 :: k1 in inf' && k1 !in inf && k2 in inf' && k2 !in inf ==> k1 == k2
  }

  /**
   * `expansion_step_inner(player, h)`: down from h, at each Expanded node
   * the player's own nodes `explore` and the others `exploit`, the picked
   * action's expansion count grows by one, and the descent moves to the
   * first child carrying that action; a Visited node it reaches is
   * expanded, a Terminal one left as it is. The loop that walks down by
   * a mutable reference becomes recursion that rebuilds the path.
   */
  function ExpansionStepInner<S, A(==), T(==)>(g: Game<S, A, T>, player: Player, h: History<S, A, T>, inf: Infosets<A, T>, draws: seq<Draw>)
    : (r: (History<S, A, T>, Infosets<A, T>))
    requires DescentReady(g, player, h, inf, draws)
    ensures h.Terminal? ==> r == (h, inf)
    ensures !h.Terminal? ==> r.0.Expanded?
    ensures ExpansionsOnly(inf, r.1) && AtMostOneNew(inf, r.1)
    ensures Size(r.0) >= Size(h)
    ensures h.Expanded? ==> r.0.reach == h.reach
    ensures h.Visited? ==> r.0.reach == map[]
    decreases h
  {
    match h
    case Terminal(_) => (h, inf)
    case Visited(_, _, _) => ExpandSpec(g, h, inf)
    case Expanded(info, reach, children, hp, villain) =>
      var p := inf[info].policy;
      var a := p.actions[Pick(p, hp == player, draws[0])];
      var k := Position(ChildActions(children), a);
      assert children[k] in children;
      var inf1 := AddExpansion(inf, info, a);
      var c := ExpansionStepInner(g, player, children[k].1, inf1, draws[1..]);
      var h' := Expanded(info, reach, children[k := (a, c.0)], hp, villain);
      DescentStep(h, k, inf, info, a, c, h');
      (h', c.1)
  }

  /** One level of the descent: the expansion added here and the path below compose, and the rebuilt node grows with its child. */
  lemma {:induction false} DescentStep<S, A, T>(h: History<S, A, T>, k: nat, inf: Infosets<A, T>, info: T, a: A,
                                                      c: (History<S, A, T>, Infosets<A, T>), h': History<S, A, T>)
    requires h.Expanded? && k < |h.children| && h.children[k].0 == a
    requires info in inf && inf[info].policy.Valid() && a in inf[info].policy.actions
    requires ExpansionsOnly(AddExpansion(inf, info, a), c.1) && AtMostOneNew(AddExpansion(inf, info, a), c.1)
    requires Size(c.0) >= Size(h.children[k].1)
    requires h' == h.(children := h.children[k := (a, c.0)])
    ensures ExpansionsOnly(inf, c.1) && AtMostOneNew(inf, c.1) && Size(h') >= Size(h)
  {
    var inf1 := AddExpansion(inf, info, a);
    AddExpansionOnly(inf, info, a);
    ExpansionsOnlyTrans(inf, inf1, c.1);
    ChildrenSizeReplace(h, h', k, 0);
  }

  /** `add_expansion` changes one expansion count, by one, and nothing else. */
  lemma {:induction false} AddExpansionOnly<A, T>(inf: Infosets<A, T>, key: T, a: A)
    requires key in inf && inf[key].policy.Valid() && a in inf[key].policy.actions
    ensures var r := AddExpansion(inf, key, a);
      ExpansionsOnly(inf, r) && r.Keys == inf.Keys &&
      forall j :: 0 <= j < |inf[key].policy.actions| ==>
        r[key].policy.expansions[j] == inf[key].policy.expansions[j] + (if j == Position(inf[key].policy.actions, a) then 1 else 0)
  {
  }

  lemma {:induction false} ExpansionsOnlyTrans<A, T>(inf: Infosets<A, T>, inf1: Infosets<A, T>, inf2: Infosets<A, T>)
    requires ExpansionsOnly(inf, inf1) && ExpansionsOnly(inf1, inf2)
    ensures ExpansionsOnly(inf, inf2)
  {
    forall key | key in inf
      ensures inf2[key] == inf[key].(policy := inf[key].policy.(expansions := inf2[key].policy.expansions))
    {
      assert inf1[key] == inf[key].(policy := inf[key].policy.(expansions := inf1[key].policy.expansions));
    }
  }

  /** Replacing child k by a tree at least as large leaves the sizes of the children from j on at least as large. */
  lemma {:induction false} ChildrenSizeReplace<S, A, T>(h: History<S, A, T>, h': History<S, A, T>, k: nat, j: nat)
    requires h.Expanded? && h'.Expanded? && k < |h.children| && j <= |h.children| && |h'.children| == |h.children|
    requires forall i :: 0 <= i < |h.children| && i != k ==> h'.children[i] == h.children[i]
    requires Size(h'.children[k].1) >= Size(h.children[k].1)
    ensures ChildrenSize(h', j) >= ChildrenSize(h, j)
    decreases |h.children| - j
  {
    if j < |h.children| {
      ChildrenSizeReplace(h, h', k, j + 1);
    }
  }

  // ---------------------------------------------------------------------
  // Sampling a root history and the expansion step

  /** Every history under every gadget is non-terminal. */
  predicate NoTerminal<S, A, T>(gs: seq<Gadget<S, A, T>>)
  {
    forall i, j :: 0 <= i < |gs| && 0 <= j < |gs[i].children| ==> !gs[i].children[j].Terminal?
  }

  /** Each coordinate names a gadget and one of its histories. */
  predicate ValidCoords<S, A, T>(gs: seq<Gadget<S, A, T>>, cs: seq<(nat, nat)>)
  {
    forall k :: 0 <= k < |cs| ==> cs[k].0 < |gs| && cs[k].1 < |gs[cs[k].0].children|
  }

  /** The coordinates of gadget `i`'s first `b` histories. */
  function Row(i: nat, b: nat): (cs: seq<(nat, nat)>)
    ensures |cs| == b && forall j :: 0 <= j < b ==> cs[j] == (i, j)
  {
    seq(b, j => (i, j))
  }

  /** The coordinates the nested loops of `sample_history` visit in the first `n` gadgets, gadget by gadget and in order within each. */
  function Coords<S, A, T>(gs: seq<Gadget<S, A, T>>, n: nat): (cs: seq<(nat, nat)>)
    requires n <= |gs|
    ensures ValidCoords(gs, cs)
    ensures forall k :: 0 <= k < |cs| ==> cs[k].0 < n
  {
    if n == 0 then [] else Coords(gs, n - 1) + Row(n - 1, |gs[n - 1].children|)
  }

  /** Every history of the first `n` gadgets has a coordinate. */
  lemma {:induction false} CoordsComplete<S, A, T>(gs: seq<Gadget<S, A, T>>, n: nat)
    requires n <= |gs|
    ensures forall i, j :: 0 <= i < n && 0 <= j < |gs[i].children| ==> (i, j) in Coords(gs, n)
  {
    if n > 0 {
      CoordsComplete(gs, n - 1);
      forall i, j | 0 <= i < n && 0 <= j < |gs[i].children|
        ensures (i, j) in Coords(gs, n)
      {
        if i == n - 1 {
          assert Row(i, |gs[i].children|)[j] == (i, j);
        }
      }
    }
  }

  /** Gadget lists with the same number of histories per gadget have the same coordinates. */
  lemma {:induction false} CoordsSame<S, A, T>(gs: seq<Gadget<S, A, T>>, gs': seq<Gadget<S, A, T>>, n: nat)
    requires n <= |gs| == |gs'|
    requires forall i :: 0 <= i < |gs| ==> |gs'[i].children| == |gs[i].children|
    ensures Coords(gs', n) == Coords(gs, n)
  {
    if n > 0 {
      CoordsSame(gs, gs', n - 1);
    }
  }

  /** The weight `sample_history` pushes for each coordinate: the history's net reach probability. */
  function ReachWeights<S, A, T>(gs: seq<Gadget<S, A, T>>, cs: seq<(nat, nat)>): (w: seq<real>)
    requires ValidCoords(gs, cs) && NoTerminal(gs)
    ensures |w| == |cs|
  {
    seq(|cs|, k requires 0 <= k < |cs| => NetReachProb(gs[cs[k].0].children[cs[k].1]))
  }

  /** `WeightedIndex::new` succeeds: no terminal history, no negative weight and a positive total. */
  ghost predicate Sampleable<S, A, T>(gs: seq<Gadget<S, A, T>>)
  {
    NoTerminal(gs) &&
    var w := ReachWeights(gs, Coords(gs, |gs|));
    NonNegative(w) && Sum(w) > 0.0
  }

  /** The coordinate `sample_history` returns for the uniform draw `u`: a history of positive net reach. */
  function SampledCoord<S, A, T>(gs: seq<Gadget<S, A, T>>, u: real): (c: (nat, nat))
    requires Sampleable(gs) && 0.0 <= u < 1.0
    ensures c.0 < |gs| && c.1 < |gs[c.0].children|
    ensures NetReachProb(gs[c.0].children[c.1]) > 0.0
  {
    var cs := Coords(gs, |gs|);
    var w := ReachWeights(gs, cs);
    assert |w| > 0 by {
      PositiveSumHasPositiveEntry(w);
    }
    var k := SinglePolicy.SampleFrom(w, 0, u);
    assert w[k] == NetReachProb(gs[cs[k].0].children[cs[k].1]);
    cs[k]
  }

  /**
   * `sample_history`, with its nested loops: the weights and coordinates of
   * all root histories are collected gadget by gadget and one is drawn.
   */
  method SampleHistory<S, A, T>(gs: seq<Gadget<S, A, T>>, u: real) returns (i: nat, j: nat)
    requires Sampleable(gs) && 0.0 <= u < 1.0
    ensures (i, j) == SampledCoord(gs, u)
    ensures i < |gs| && j < |gs[i].children| && NetReachProb(gs[i].children[j]) > 0.0
  {
    var coords: seq<(nat, nat)> := [];
    var probs: seq<real> := [];
    for a := 0 to |gs|
      invariant coords == Coords(gs, a)
      invariant probs == ReachWeights(gs, coords)
    {
      for b := 0 to |gs[a].children|
        invariant coords == Coords(gs, a) + Row(a, b)
        invariant ValidCoords(gs, coords)
        invariant probs == ReachWeights(gs, coords)
      {
        assert Row(a, b + 1) == Row(a, b) + [(a, b)];
        probs := probs + [NetReachProb(gs[a].children[b])];
        coords := coords + [(a, b)];
      }
    }
    var k := SinglePolicy.SampleFrom(probs, 0, u);
    i, j := coords[k].0, coords[k].1;
  }

  /** The root with history `j` of gadget `i` replaced. */
  function ReplaceHistory<S, A, T>(root: Root<S, A, T>, i: nat, j: nat, h: History<S, A, T>): (r: Root<S, A, T>)
    requires i < |root.children| && j < |root.children[i].children|
    ensures r.policy == root.policy && |r.children| == |root.children|
    ensures forall k :: 0 <= k < |root.children| && k != i ==> r.children[k] == root.children[k]
    ensures r.children[i] == root.children[i].(children := root.children[i].children[j := h])
  {
    var gd := root.children[i];
    root.(children := root.children[i := gd.(children := gd.children[j := h])])
  }

  /** Replacing one history leaves every other coordinate's history as it was. */
  lemma {:induction false} OtherHistoriesKept<S, A, T>(gs: seq<Gadget<S, A, T>>, i: nat, j: nat, gs': seq<Gadget<S, A, T>>, c: (nat, nat))
    requires i < |gs| && j < |gs[i].children| && |gs'| == |gs|
    requires forall k :: 0 <= k < |gs| && k != i ==> gs'[k] == gs[k]
    requires |gs'[i].children| == |gs[i].children|
    requires gs'[i].children == gs[i].children[j := gs'[i].children[j]]
    requires c.0 < |gs| && c.1 < |gs[c.0].children| && c != (i, j)
    ensures gs'[c.0].children[c.1] == gs[c.0].children[c.1]
  {
    if c.0 == i {
      assert c.1 != j;
    }
  }

  /** Replacing a sampled history by one of positive net reach keeps the root sampleable. */
  lemma {:induction false} SampleableKept<S, A, T>(gs: seq<Gadget<S, A, T>>, i: nat, j: nat, gs': seq<Gadget<S, A, T>>)
    requires Sampleable(gs) && i < |gs| && j < |gs[i].children| && |gs'| == |gs|
    requires forall k :: 0 <= k < |gs| && k != i ==> gs'[k] == gs[k]
    requires |gs'[i].children| == |gs[i].children|
    requires gs'[i].children == gs[i].children[j := gs'[i].children[j]]
    requires !gs'[i].children[j].Terminal? && NetReachProb(gs'[i].children[j]) > 0.0
    ensures Sampleable(gs')
  {
    CoordsSame(gs, gs', |gs|);
    CoordsComplete(gs, |gs|);
    forall a, b | 0 <= a < |gs'| && 0 <= b < |gs'[a].children|
      ensures !gs'[a].children[b].Terminal?
    {
      if (a, b) != (i, j) {
        OtherHistoriesKept(gs, i, j, gs', (a, b));
      }
    }
    var cs := Coords(gs, |gs|);
    var w := ReachWeights(gs, cs);
    var w' := ReachWeights(gs', cs);
    var m :| 0 <= m < |cs| && cs[m] == (i, j);
    forall k | 0 <= k < |w'|
      ensures w'[k] >= 0.0
    {
      if cs[k] != (i, j) {
        OtherHistoriesKept(gs, i, j, gs', cs[k]);
        assert w'[k] == w[k];
      }
    }
    EntryAtMostSum(w', m);
  }

  /** Size of the whole subgame: the sizes of all histories under all gadgets (`size`). */
  function RootSize<S, A, T>(gs: seq<Gadget<S, A, T>>): (n: nat)
  {
    if |gs| == 0 then 0 else RootSize(gs[..|gs| - 1]) + HistoriesSize(gs[|gs| - 1].children)
  }

  function HistoriesSize<S, A, T>(hs: seq<History<S, A, T>>): (n: nat)
  {
    if |hs| == 0 then 0 else HistoriesSize(hs[..|hs| - 1]) + Size(hs[|hs| - 1])
  }

  /** Every history counts at least once: the size is at least the number of root histories. */
  lemma {:induction false} RootSizeAtLeastHistories<S, A, T>(gs: seq<Gadget<S, A, T>>)
    ensures RootSize(gs) >= |RootHistories(gs)|
  {
    if |gs| > 0 {
      RootSizeAtLeastHistories(gs[..|gs| - 1]);
      HistoriesSizeAtLeastCount(gs[|gs| - 1].children);
    }
  }

  lemma {:induction false} HistoriesSizeAtLeastCount<S, A, T>(hs: seq<History<S, A, T>>)
    ensures HistoriesSize(hs) >= |hs|
  {
    if |hs| > 0 {
      HistoriesSizeAtLeastCount(hs[..|hs| - 1]);
    }
  }

  /** Replacing one history changes the summed size by the difference of the two sizes. */
  lemma {:induction false} HistoriesSizeUpdate<S, A, T>(hs: seq<History<S, A, T>>, j: nat, h: History<S, A, T>)
    requires j < |hs|
    ensures HistoriesSize(hs[j := h]) == HistoriesSize(hs) - Size(hs[j]) + Size(h)
  {
    var n := |hs| - 1;
    if j < n {
      assert hs[j := h][..n] == hs[..n][j := h];
      HistoriesSizeUpdate(hs[..n], j, h);
    } else {
      assert hs[j := h][..n] == hs[..n];
    }
  }

  /** Replacing one gadget changes the root size by the difference of the two gadgets' sizes. */
  lemma {:induction false} RootSizeUpdate<S, A, T>(gs: seq<Gadget<S, A, T>>, i: nat, gd: Gadget<S, A, T>)
    requires i < |gs|
    ensures RootSize(gs[i := gd]) == RootSize(gs) - HistoriesSize(gs[i].children) + HistoriesSize(gd.children)
  {
    var n := |gs| - 1;
    if i < n {
      assert gs[i := gd][..n] == gs[..n][i := gd];
      RootSizeUpdate(gs[..n], i, gd);
    } else {
      assert gs[i := gd][..n] == gs[..n];
    }
  }

  /** What a descent needs on the history `sample_history` draws. */
  ghost predicate HalfReady<S, A, T>(g: Game<S, A, T>, player: Player, root: Root<S, A, T>, inf: Infosets<A, T>, u: real, draws: seq<Draw>)
  {
    Sampleable(root.children) && 0.0 <= u < 1.0 &&
    var c := SampledCoord(root.children, u);
    DescentReady(g, player, root.children[c.0].children[c.1], inf, draws)
  }

  /** `root'` is `root` with at most history `j` of gadget `i` changed. */
  ghost predicate OnlyHistoryChanged<S, A, T>(root: Root<S, A, T>, root': Root<S, A, T>, i: nat, j: nat)
  {
    root'.policy == root.policy && |root'.children| == |root.children| &&
    forall k :: 0 <= k < |root.children| ==>
      root'.children[k] == root.children[k].(children := root'.children[k].children) &&
      |root'.children[k].children| == |root.children[k].children| &&
      forall l :: 0 <= l < |root.children[k].children| && (k, l) != (i, j) ==>
        root'.children[k].children[l] == root.children[k].children[l]
  }

  /** Writing back a descended history that is still reachable and no smaller. */
  lemma {:induction false} HalfStep<S, A, T>(root: Root<S, A, T>, i: nat, j: nat, h': History<S, A, T>)
    requires Sampleable(root.children) && i < |root.children| && j < |root.children[i].children|
    requires !h'.Terminal? && NetReachProb(h') > 0.0 && Size(h') >= Size(root.children[i].children[j])
    ensures var root' := ReplaceHistory(root, i, j, h');
      OnlyHistoryChanged(root, root', i, j) && root'.children[i].children[j] == h' &&
      Sampleable(root'.children) && RootSize(root'.children) >= RootSize(root.children)
  {
    var root' := ReplaceHistory(root, i, j, h');
    SampleableKept(root.children, i, j, root'.children);
    HistoriesSizeUpdate(root.children[i].children, j, h');
    RootSizeUpdate(root.children, i, root'.children[i]);
  }

  /**
   * Half of `expansion_step`: sample a root history by net reach and run
   * the descent for `player` from it. Only the sampled history changes and
   * becomes expanded; it stays reachable, so the root can be sampled
   * again; the infosets change only in their expansion counts apart from
   * at most one new infoset; the subgame does not shrink.
   */
  function ExpansionHalf<S, A(==), T(==)>(g: Game<S, A, T>, player: Player, root: Root<S, A, T>, inf: Infosets<A, T>, u: real, draws: seq<Draw>)
    : (r: (Root<S, A, T>, Infosets<A, T>))
    requires HalfReady(g, player, root, inf, u, draws)
    ensures var c := SampledCoord(root.children, u);
      OnlyHistoryChanged(root, r.0, c.0, c.1) && r.0.children[c.0].children[c.1].Expanded? &&
      Sampleable(r.0.children) && RootSize(r.0.children) >= RootSize(root.children)
    ensures ExpansionsOnly(inf, r.1) && AtMostOneNew(inf, r.1)
  {
    var c := SampledCoord(root.children, u);
    var h := root.children[c.0].children[c.1];
    var e := ExpansionStepInner(g, player, h, inf, draws);
    assert !e.0.Terminal? && NetReachProb(e.0) > 0.0 by {
      NetReachIsProduct(e.0);
    }
    HalfStep(root, c.0, c.1, e.0);
    (ReplaceHistory(root, c.0, c.1, e.0), e.1)
  }

  /**
   * `expansion_step`: a descent for P1 from one sampled history, then one
   * for P2 from another, sampled on the updated tree.
   */
  method ExpansionStep<S, A(==), T(==)>(g: Game<S, A, T>, root: Root<S, A, T>, inf: Infosets<A, T>,
                                u1: real, d1: seq<Draw>, u2: real, d2: seq<Draw>)
    returns (root': Root<S, A, T>, inf': Infosets<A, T>)
    requires HalfReady(g, P1, root, inf, u1, d1)
    requires var r1 := ExpansionHalf(g, P1, root, inf, u1, d1); HalfReady(g, P2, r1.0, r1.1, u2, d2)
    ensures var r1 := ExpansionHalf(g, P1, root, inf, u1, d1); (root', inf') == ExpansionHalf(g, P2, r1.0, r1.1, u2, d2)
    ensures root'.policy == root.policy && |root'.children| == |root.children|
    ensures Sampleable(root'.children)
    ensures ExpansionsOnly(inf, inf')
    ensures RootSize(root'.children) >= RootSize(root.children)
  {
    var i, j := SampleHistory(root.children, u1);
    var e := ExpansionStepInner(g, P1, root.children[i].children[j], inf, d1);
    var root1 := ReplaceHistory(root, i, j, e.0);
    var inf1 := e.1;
    assert (root1, inf1) == ExpansionHalf(g, P1, root, inf, u1, d1);
    var i2, j2 := SampleHistory(root1.children, u2);
    var e2 := ExpansionStepInner(g, P2, root1.children[i2].children[j2], inf1, d2);
    root' := ReplaceHistory(root1, i2, j2, e2.0);
    inf' := e2.1;
    ExpansionsOnlyTrans(inf, inf1, inf');
  }

  // ---------------------------------------------------------------------
  // Choosing the move from the root
  // ---------------------------------------------------------------------

  /** The position of the first Expanded history, or the length when there is none. */
  function FirstExpanded<S, A, T>(hs: seq<History<S, A, T>>): (k: nat)
    ensures k <= |hs| && (k < |hs| ==> hs[k].Expanded?)
    ensures forall m :: 0 <= m < k ==> !hs[m].Expanded?
  {
    if |hs| == 0 || hs[0].Expanded? then 0 else 1 + FirstExpanded(hs[1..])
  }

  /**
   * What `choose_action_from_root` needs: the root's best action names a
   * gadget, that gadget has an Expanded history, and its infoset has a
   * policy with actions to purify.
   */
  ghost predicate ChoiceReady<S, A, T>(root: Root<S, A, T>, inf: Infosets<A, T>, choice: nat)
  {
    root.policy.Valid() && |root.policy.actions| > 0 &&
    var b := root.policy.actions[CP.BestAction(root.policy.accRegrets)];
    b < |root.children| &&
    var hs := root.children[b].children;
    FirstExpanded(hs) < |hs| &&
    var t := hs[FirstExpanded(hs)].info;
    t in inf && inf[t].policy.Valid() && |inf[t].policy.actions| > 0 &&
    choice < SinglePolicy.MinSupport(|inf[t].policy.accRegrets|)
  }

  /** Index `i` is one of the most likely actions of `p`, at least as likely as any action outside them. */
  predicate PurifiedPick<A>(p: CP.PolicyState<A>, i: nat)
    requires p.Valid()
  {
    i < |p.actions| && i in SinglePolicy.PurifiedSupport(p.accRegrets) &&
    forall j :: 0 <= j < |p.actions| && j !in SinglePolicy.PurifiedSupport(p.accRegrets) ==>
      CP.InstPolicy(p.accRegrets)[j] <= CP.InstPolicy(p.accRegrets)[i]
  }

  /** The infoset whose policy `choose_action_from_root` purifies. */
  function ChosenInfo<S, A, T>(root: Root<S, A, T>, inf: Infosets<A, T>, choice: nat): (t: T)
    requires ChoiceReady(root, inf, choice)
    ensures t in inf
  {
    var hs := root.children[root.policy.actions[CP.BestAction(root.policy.accRegrets)]].children;
    hs[FirstExpanded(hs)].info
  }

  /**
   * `choose_action_from_root`: in the gadget the root policy's best action
   * names, the first Expanded history's infoset plays its purified action.
   */
  function ChooseActionFromRoot<S, A, T>(root: Root<S, A, T>, inf: Infosets<A, T>, choice: nat): (a: A)
    requires ChoiceReady(root, inf, choice)
    ensures var p := inf[ChosenInfo(root, inf, choice)].policy;
      exists i: nat :: PurifiedPick(p, i) && a == p.actions[i]
  {
    var p := inf[ChosenInfo(root, inf, choice)].policy;
    var i := CP.Purified(p.accRegrets, choice);
    assert PurifiedPick(p, i);
    p.actions[i]
  }
}
