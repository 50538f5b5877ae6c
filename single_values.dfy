/**
 * The value `make_utilities` returns in src/obscuro/old/obscuro_single.rs:
 * with every terminal payoff and every gadget alternative in a range
 * [lo, hi] around 0, the value of every node lies in that range, and the
 * child values recorded as expectations (at an Expanded node's set and at
 * the subgame root) lie in it too.
 *
 * The loops weight each child's value by the exploit probability of its
 * label under one policy, so their weights add up to at most 1 once the
 * labels are distinct. At an Expanded node that policy is read from the
 * store on every turn, so the bound also needs the node's set to be out of
 * reach of the walks below it: no Expanded node under it points at the
 * same key. Both conditions are preconditions of the bound (`Bounded`).
 */
module SingleValues {
  import opened Reals
  import opened Seqs
  import opened Mixing
  import SP = SinglePolicy
  import opened SingleObscuro

  // ---------------------------------------------------------------------
  // Which sets a walk touches

  /** Some Expanded node of `h` points at the set stored under `q`. */
  predicate Mentions(h: History, q: nat)
  {
    match h
    case Expanded(ptr, _, moves, _) => ptr == q || exists m :: m in moves && Mentions(m.1, q)
    case Augmented(_, _, _, _, children) => exists c :: c in children && Mentions(c.1, q)
    case SubgameRoot(_, children) => exists c :: c in children && Mentions(c.1, q)
    case _ => false
  }

  /** `make_utilities` leaves alone every set no Expanded node of `h` points at. */
  lemma {:induction false} UtilitiesFrame(h: History, opt: SP.Player, reach: real, store: Store, q: nat)
    requires StoreOk(store) && Walkable(h, store.Keys) && q in store && !Mentions(h, q)
    ensures Utilities(h, opt, reach, store).2[q] == store[q]
    decreases h, 2, 1
  {
    match h
    case Expanded(_, _, _, _) => ExpandedFrame(h, opt, reach, store, q);
    case Augmented(_, _, _, _, _) => GadgetFrame(h, opt, reach, store, q);
    case SubgameRoot(_, _) => RootFrame(h, opt, reach, store, q);
    case _ =>
  }

  lemma {:induction false} ExpandedFrame(h: History, opt: SP.Player, reach: real, store: Store, q: nat)
    requires h.Expanded? && StoreOk(store) && Walkable(h, store.Keys) && q in store && !Mentions(h, q)
    ensures ExpandedUtilities(h, opt, reach, store).2[q] == store[q]
    decreases h, 2, 0
  {
    MovesFromFrame(h, opt, reach, 0, 0.0, store, store.Keys, q);
  }

  lemma {:induction false} GadgetFrame(h: History, opt: SP.Player, reach: real, store: Store, q: nat)
    requires h.Augmented? && StoreOk(store) && Walkable(h, store.Keys) && q in store && !Mentions(h, q)
    ensures GadgetUtilities(h, opt, reach, store).2[q] == store[q]
    decreases h, 2, 0
  {
    ChildrenFromFrame(h, opt, reach, 0, 0.0, h.info, store, q);
  }

  lemma {:induction false} RootFrame(h: History, opt: SP.Player, reach: real, store: Store, q: nat)
    requires h.SubgameRoot? && StoreOk(store) && Walkable(h, store.Keys) && q in store && !Mentions(h, q)
    ensures RootUtilities(h, opt, reach, store).2[q] == store[q]
    decreases h, 2, 0
  {
    ChildrenFromFrame(h, opt, reach, 0, 0.0, h.info, store, q);
  }

  lemma {:induction false} MovesFromFrame(h: History, opt: SP.Player, reach: real, k: nat, local: real, store: Store,
    keys: set<nat>, q: nat)
    requires h.Expanded? && StoreOk(store) && store.Keys == keys && Walkable(h, keys) && k <= |h.moves|
    requires q in store && !Mentions(h, q)
    ensures MovesFrom(h, opt, reach, k, local, store, keys).2[q] == store[q]
    decreases h, 1, |h.moves| - k, 2
  {
    if k < |h.moves| {
      MoveFacts(h, k, store);
      var p := SP.PExploitOf(store[h.ptr].policy, h.moves[k].0);
      if h.player == opt || p > 0.0 {
        MovesFromFollows(h, opt, reach, k, local, store, keys);
        FollowMoveFrame(h, opt, reach, k, local, store, keys, q);
      } else {
        MovesFromSkips(h, opt, reach, k, local, store, keys);
        MovesFromFrame(h, opt, reach, k + 1, local, store, keys, q);
      }
    }
  }

  lemma {:induction false} FollowMoveFrame(h: History, opt: SP.Player, reach: real, k: nat, local: real, store: Store,
    keys: set<nat>, q: nat)
    requires h.Expanded? && StoreOk(store) && store.Keys == keys && Walkable(h, keys) && k < |h.moves|
    requires q in store && !Mentions(h, q)
    ensures FollowMove(h, opt, reach, k, local, store, keys).2[q] == store[q]
    decreases h, 1, |h.moves| - k, 1
  {
    MoveFacts(h, k, store);
    assert h.moves[k] in h.moves;
    var p := SP.PExploitOf(store[h.ptr].policy, h.moves[k].0);
    var c := Utilities(h.moves[k].1, opt, Scaled(reach, p), store);
    UtilitiesFrame(h.moves[k].1, opt, Scaled(reach, p), store, q);
    AfterMoveFrame(h, opt, reach, k, AddWeighted(local, p, c.0), c.0, c.1, store, c.2, keys, q);
    FollowMoveUnfold(h, opt, reach, k, local, store, keys);
  }

  lemma {:induction false} AfterMoveFrame(h: History, opt: SP.Player, reach: real, k: nat, local: real, v: real,
    child: History, store: Store, s0: Store, keys: set<nat>, q: nat)
    requires h.Expanded? && store.Keys == keys && Walkable(h, keys) && k < |h.moves|
    requires StoreOk(s0) && OnlyPolicies(store, s0) && Walkable(child, keys)
    requires q in store && !Mentions(h, q)
    ensures AfterMove(h, opt, reach, k, local, v, child, store, s0, keys).2[q] == s0[q]
    decreases h, 1, |h.moves| - k, 0
  {
    MoveFacts(h, k, s0);
    var s := Record(s0, h.ptr, h.moves[k].0, v);
    RecordOther(s0, h.ptr, h.moves[k].0, v, q);
    MovesFromFrame(h, opt, reach, k + 1, local, s, keys, q);
    AfterMoveUnfold(h, opt, reach, k, local, v, child, store, s0, keys);
  }

  lemma {:induction false} ChildrenFromFrame(h: History, opt: SP.Player, reach: real, k: nat, acc: real, info: Info<nat>,
    store: Store, q: nat)
    requires (h.Augmented? || h.SubgameRoot?) && StoreOk(store) && Walkable(h, store.Keys) && k <= |h.children|
    requires info.policy.Valid() && info.policy.actions == h.info.policy.actions
    requires q in store && !Mentions(h, q)
    ensures ChildrenFrom(h, opt, reach, k, acc, info, store).3[q] == store[q]
    decreases h, 1, |h.children| - k, 2
  {
    if k < |h.children| {
      assert h.children[k] in h.children;
      if SP.PExploitOf(info.policy, h.children[k].0) > 0.0 {
        ChildFollowedFrame(h, opt, reach, k, acc, info, store, q);
      } else {
        ChildSkippedFrame(h, opt, reach, k, acc, info, store, q);
      }
    }
  }

  lemma {:induction false} ChildFollowedFrame(h: History, opt: SP.Player, reach: real, k: nat, acc: real, info: Info<nat>,
    store: Store, q: nat)
    requires (h.Augmented? || h.SubgameRoot?) && StoreOk(store) && Walkable(h, store.Keys) && k < |h.children|
    requires info.policy.Valid() && info.policy.actions == h.info.policy.actions
    requires h.children[k].0 in info.policy.actions && SP.PExploitOf(info.policy, h.children[k].0) > 0.0
    requires q in store && !Mentions(h, q)
    ensures ChildrenFrom(h, opt, reach, k, acc, info, store).3[q] == store[q]
    decreases h, 1, |h.children| - k, 1
  {
    ChildrenFromFollows(h, opt, reach, k, acc, info, store);
    FollowChildFrame(h, opt, reach, k, acc, info, store, q);
  }

  lemma {:induction false} ChildSkippedFrame(h: History, opt: SP.Player, reach: real, k: nat, acc: real, info: Info<nat>,
    store: Store, q: nat)
    requires (h.Augmented? || h.SubgameRoot?) && StoreOk(store) && Walkable(h, store.Keys) && k < |h.children|
    requires info.policy.Valid() && info.policy.actions == h.info.policy.actions
    requires h.children[k].0 in info.policy.actions && !(SP.PExploitOf(info.policy, h.children[k].0) > 0.0)
    requires q in store && !Mentions(h, q)
    ensures ChildrenFrom(h, opt, reach, k, acc, info, store).3[q] == store[q]
    decreases h, 1, |h.children| - k, 1
  {
    ChildrenFromSkips(h, opt, reach, k, acc, info, store);
    ChildrenFromFrame(h, opt, reach, k + 1, acc, info, store, q);
  }

  lemma {:induction false} FollowChildFrame(h: History, opt: SP.Player, reach: real, k: nat, acc: real, info: Info<nat>,
    store: Store, q: nat)
    requires (h.Augmented? || h.SubgameRoot?) && StoreOk(store) && Walkable(h, store.Keys) && k < |h.children|
    requires info.policy.Valid() && info.policy.actions == h.info.policy.actions
    requires q in store && !Mentions(h, q)
    ensures FollowChild(h, opt, reach, k, acc, info, store).3[q] == store[q]
    decreases h, 1, |h.children| - k, 0
  {
    assert h.children[k] in h.children;
    var idx := h.children[k].0;
    var p := SP.PExploitOf(info.policy, idx);
    var c := Utilities(h.children[k].1, opt, Scaled(reach, p), store);
    UtilitiesFrame(h.children[k].1, opt, Scaled(reach, p), store, q);
    var info' := if h.SubgameRoot? then RecordIndex(info, idx, c.0) else info;
    ChildrenFromFrame(h, opt, reach, k + 1, AddWeighted(acc, p, c.0), info', c.2, q);
    FollowChildUnfold(h, opt, reach, k, acc, info, store);
  }

  // ---------------------------------------------------------------------
  // One turn of each loop

  /** A move of the moves loop that is followed: the loop's result is the followed move's. */
  lemma {:induction false} MovesFromFollows(h: History, opt: SP.Player, reach: real, k: nat, local: real, store: Store,
    keys: set<nat>)
    requires h.Expanded? && StoreOk(store) && store.Keys == keys && Walkable(h, keys) && k < |h.moves|
    requires h.ptr in store && store[h.ptr].policy.Valid() && h.moves[k].0 in store[h.ptr].policy.actions
    requires h.player == opt || SP.PExploitOf(store[h.ptr].policy, h.moves[k].0) > 0.0
    ensures var r := MovesFrom(h, opt, reach, k, local, store, keys);
      var f := FollowMove(h, opt, reach, k, local, store, keys);
      r.0 == f.0 && r.2 == f.2
  {
  }

  /** A move of the moves loop that is skipped: the loop's result is that of the rest. */
  lemma {:induction false} MovesFromSkips(h: History, opt: SP.Player, reach: real, k: nat, local: real, store: Store,
    keys: set<nat>)
    requires h.Expanded? && StoreOk(store) && store.Keys == keys && Walkable(h, keys) && k < |h.moves|
    requires h.ptr in store && store[h.ptr].policy.Valid() && h.moves[k].0 in store[h.ptr].policy.actions
    requires !(h.player == opt || SP.PExploitOf(store[h.ptr].policy, h.moves[k].0) > 0.0)
    ensures var r := MovesFrom(h, opt, reach, k, local, store, keys);
      var rest := MovesFrom(h, opt, reach, k + 1, local, store, keys);
      r.0 == rest.0 && r.2 == rest.2
  {
  }

  /** A followed move: its child's utilities, then the rest of the loop after the child. */
  lemma {:induction false} FollowMoveUnfold(h: History, opt: SP.Player, reach: real, k: nat, local: real, store: Store,
    keys: set<nat>)
    requires h.Expanded? && StoreOk(store) && store.Keys == keys && Walkable(h, keys) && k < |h.moves|
    requires h.ptr in store && store[h.ptr].policy.Valid() && h.moves[k].0 in store[h.ptr].policy.actions
    requires Walkable(h.moves[k].1, keys)
    ensures var p := SP.PExploitOf(store[h.ptr].policy, h.moves[k].0);
      var c := Utilities(h.moves[k].1, opt, Scaled(reach, p), store);
      var r := FollowMove(h, opt, reach, k, local, store, keys);
      var rest := AfterMove(h, opt, reach, k, AddWeighted(local, p, c.0), c.0, c.1, store, c.2, keys);
      r.0 == rest.0 && r.2 == rest.2
  {
  }

  /** A followed move, after its child: the moves loop goes on from `k + 1` with the value recorded. */
  lemma {:induction false} AfterMoveUnfold(h: History, opt: SP.Player, reach: real, k: nat, local: real, v: real,
    child: History, store: Store, s0: Store, keys: set<nat>)
    requires h.Expanded? && store.Keys == keys && Walkable(h, keys) && k < |h.moves|
    requires StoreOk(s0) && OnlyPolicies(store, s0) && Walkable(child, keys)
    requires h.ptr in s0 && h.moves[k].0 in s0[h.ptr].policy.actions
    ensures var r := AfterMove(h, opt, reach, k, local, v, child, store, s0, keys);
      var rest := MovesFrom(h, opt, reach, k + 1, local, Record(s0, h.ptr, h.moves[k].0, v), keys);
      r.0 == rest.0 && r.2 == rest.2
  {
  }

  /** A child of the children loop that is followed: the loop's result is the followed child's. */
  lemma {:induction false} ChildrenFromFollows(h: History, opt: SP.Player, reach: real, k: nat, acc: real, info: Info<nat>,
    store: Store)
    requires (h.Augmented? || h.SubgameRoot?) && StoreOk(store) && Walkable(h, store.Keys) && k < |h.children|
    requires info.policy.Valid() && info.policy.actions == h.info.policy.actions
    requires h.children[k].0 in info.policy.actions && SP.PExploitOf(info.policy, h.children[k].0) > 0.0
    ensures var r := ChildrenFrom(h, opt, reach, k, acc, info, store);
      var f := FollowChild(h, opt, reach, k, acc, info, store);
      r.0 == f.0 && r.2 == f.2 && r.3 == f.3
  {
  }

  /** A child of the children loop that is skipped: the loop's result is that of the rest. */
  lemma {:induction false} ChildrenFromSkips(h: History, opt: SP.Player, reach: real, k: nat, acc: real, info: Info<nat>,
    store: Store)
    requires (h.Augmented? || h.SubgameRoot?) && StoreOk(store) && Walkable(h, store.Keys) && k < |h.children|
    requires info.policy.Valid() && info.policy.actions == h.info.policy.actions
    requires h.children[k].0 in info.policy.actions && !(SP.PExploitOf(info.policy, h.children[k].0) > 0.0)
    ensures var r := ChildrenFrom(h, opt, reach, k, acc, info, store);
      var rest := ChildrenFrom(h, opt, reach, k + 1, acc, info, store);
      r.0 == rest.0 && r.2 == rest.2 && r.3 == rest.3
  {
  }

  /** A followed child: the children loop goes on from `k + 1` with its weighted value added and, at the root, recorded. */
  lemma {:induction false} FollowChildUnfold(h: History, opt: SP.Player, reach: real, k: nat, acc: real, info: Info<nat>,
    store: Store)
    requires (h.Augmented? || h.SubgameRoot?) && StoreOk(store) && Walkable(h, store.Keys) && k < |h.children|
    requires info.policy.Valid() && info.policy.actions == h.info.policy.actions
    requires h.children[k].0 in info.policy.actions && Walkable(h.children[k].1, store.Keys)
    ensures var idx := h.children[k].0;
      var p := SP.PExploitOf(info.policy, idx);
      var c := Utilities(h.children[k].1, opt, Scaled(reach, p), store);
      var info' := if h.SubgameRoot? then RecordIndex(info, idx, c.0) else info;
      var rest := ChildrenFrom(h, opt, reach, k + 1, AddWeighted(acc, p, c.0), info', c.2);
      var r := FollowChild(h, opt, reach, k, acc, info, store);
      r.0 == rest.0 && r.2 == rest.2 && r.3 == rest.3
  {
  }

  /** Two policies over the same actions and regrets give every action the same exploit probability. */
  lemma {:induction false} SameExploit<L>(p: SP.PolicyState<L>, q: SP.PolicyState<L>, a: L)
    requires p.Valid() && q.Valid() && p.actions == q.actions && p.accRegrets == q.accRegrets && a in p.actions
    ensures SP.PExploitOf(p, a) == SP.PExploitOf(q, a)
  {
  }

  /** Recording at one set leaves every other set as it was. */
  lemma {:induction false} RecordOther(s0: Store, k: nat, a: RpsAction, v: real, q: nat)
    requires StoreOk(s0) && k in s0 && a in s0[k].policy.actions && q in s0 && q != k
    ensures var s := Record(s0, k, a, v); q in s && s[q] == s0[q]
  {
  }

  /** Recording a value in [lo, hi] at a set keeps its regrets and every other expectation. */
  lemma {:induction false} RecordKept(s0: Store, q: nat, a: RpsAction, v: real, lo: real, hi: real)
    requires StoreOk(s0) && q in s0 && a in s0[q].policy.actions && lo <= v <= hi
    ensures var s := Record(s0, q, a, v);
      q in s && s[q].policy.actions == s0[q].policy.actions && s[q].policy.accRegrets == s0[q].policy.accRegrets &&
      KeptOrWithin(s0[q].policy.expectations, s[q].policy.expectations, lo, hi)
  {
  }

  /** Recording a value in [lo, hi] for an index keeps every other expectation. */
  lemma {:induction false} RecordIndexKept(info: Info<nat>, i: nat, v: real, lo: real, hi: real)
    requires info.policy.Valid() && lo <= v <= hi
    ensures KeptOrWithin(info.policy.expectations, RecordIndex(info, i, v).policy.expectations, lo, hi)
  {
  }

  // ---------------------------------------------------------------------
  // The weights of a loop

  /** The labels of a node's children are pairwise distinct. */
  predicate DistinctLabels<L(==)>(xs: seq<(L, History)>)
  {
    forall i, j :: 0 <= i < j < |xs| ==> xs[i].0 != xs[j].0
  }

  /** The exploit probabilities of the labels from `k` on, under the regrets over `actions`. */
  function Mass<L(==)>(actions: seq<L>, regrets: seq<real>, xs: seq<(L, History)>, k: nat): real
    requires |regrets| == |actions| && k <= |xs| && forall m :: m in xs ==> m.0 in actions
    decreases |xs| - k
  {
    if k == |xs| then 0.0
    else
      assert xs[k] in xs;
      SP.PExploit(regrets, Position(actions, xs[k].0)) + Mass(actions, regrets, xs, k + 1)
  }

  /** The values of the labels from `k` on, each `x`, weighted by their exploit probabilities: x·Mass, kept linear. */
  function Spread<L(==)>(actions: seq<L>, regrets: seq<real>, xs: seq<(L, History)>, k: nat, x: real): real
    requires |regrets| == |actions| && k <= |xs| && forall m :: m in xs ==> m.0 in actions
    decreases |xs| - k
  {
    if k == |xs| then 0.0
    else
      assert xs[k] in xs;
      Weighted(SP.PExploit(regrets, Position(actions, xs[k].0)), x) + Spread(actions, regrets, xs, k + 1, x)
  }

  lemma {:induction false} SpreadIsMass<L>(actions: seq<L>, regrets: seq<real>, xs: seq<(L, History)>, k: nat, x: real)
    requires |regrets| == |actions| && k <= |xs| && forall m :: m in xs ==> m.0 in actions
    ensures Spread(actions, regrets, xs, k, x) == x * Mass(actions, regrets, xs, k)
    decreases |xs| - k
  {
    if k < |xs| {
      SpreadIsMass(actions, regrets, xs, k + 1, x);
      assert xs[k] in xs;
      var p := SP.PExploit(regrets, Position(actions, xs[k].0));
      assert x * (p + Mass(actions, regrets, xs, k + 1)) == p * x + x * Mass(actions, regrets, xs, k + 1);
    }
  }

  /** The spread of the labels from `k` is label `k`'s weighted share plus the spread of the rest. */
  lemma {:induction false} SpreadUnfold<L>(pol: SP.PolicyState<L>, xs: seq<(L, History)>, k: nat, x: real)
    requires pol.Valid() && k < |xs| && forall m :: m in xs ==> m.0 in pol.actions
    ensures var p := SP.PExploitOf(pol, xs[k].0);
      0.0 <= p &&
      Spread(pol.actions, pol.accRegrets, xs, k, x) == Weighted(p, x) + Spread(pol.actions, pol.accRegrets, xs, k + 1, x) &&
      (p == 0.0 ==> Spread(pol.actions, pol.accRegrets, xs, k, x) == Spread(pol.actions, pol.accRegrets, xs, k + 1, x))
  {
    assert xs[k] in xs;
  }

  /** A label of no exploit weight adds nothing to the spread. */
  lemma {:induction false} SpreadSkip<L>(pol: SP.PolicyState<L>, xs: seq<(L, History)>, k: nat, x: real)
    requires pol.Valid() && k < |xs| && forall m :: m in xs ==> m.0 in pol.actions
    requires !(SP.PExploitOf(pol, xs[k].0) > 0.0)
    ensures Spread(pol.actions, pol.accRegrets, xs, k, x) == Spread(pol.actions, pol.accRegrets, xs, k + 1, x)
  {
    SpreadUnfold(pol, xs, k, x);
  }

  /**
   * One followed label of a utility loop: a value in [lo, hi] weighted by
   * the label's exploit probability, added to a total that the rest keeps
   * within the spreads from `k + 1`, keeps it within the spreads from `k`.
   */
  lemma {:induction false} SpreadStep<L>(pol: SP.PolicyState<L>, xs: seq<(L, History)>, k: nat, acc: real, v: real,
    lo: real, hi: real, r: real)
    requires pol.Valid() && k < |xs| && forall m :: m in xs ==> m.0 in pol.actions
    requires lo <= v <= hi
    requires Within(AddWeighted(acc, SP.PExploitOf(pol, xs[k].0), v), Spread(pol.actions, pol.accRegrets, xs, k + 1, lo),
      Spread(pol.actions, pol.accRegrets, xs, k + 1, hi), r)
    ensures Within(acc, Spread(pol.actions, pol.accRegrets, xs, k, lo), Spread(pol.actions, pol.accRegrets, xs, k, hi), r)
  {
    SpreadUnfold(pol, xs, k, lo);
    SpreadUnfold(pol, xs, k, hi);
    WithinStep(acc, SP.PExploitOf(pol, xs[k].0), v, lo, hi, Spread(pol.actions, pol.accRegrets, xs, k + 1, lo),
      Spread(pol.actions, pol.accRegrets, xs, k + 1, hi), r);
  }

  /** The sum of the entries of `x` at the indices `ix`. */
  function IndexSum(x: seq<real>, ix: seq<nat>): real
    requires forall j :: 0 <= j < |ix| ==> ix[j] < |x|
  {
    if |ix| == 0 then 0.0 else x[ix[0]] + IndexSum(x, ix[1..])
  }

  /** Two vectors that agree at the indices have the same index sum. */
  lemma {:induction false} IndexSumAgree(x: seq<real>, y: seq<real>, ix: seq<nat>)
    requires forall j :: 0 <= j < |ix| ==> ix[j] < |x| && ix[j] < |y| && x[ix[j]] == y[ix[j]]
    ensures IndexSum(x, ix) == IndexSum(y, ix)
  {
    if |ix| > 0 {
      IndexSumAgree(x, y, ix[1..]);
    }
  }

  /** Entries of a non-negative vector at distinct indices add up to at most its sum. */
  lemma {:induction false} IndexSumAtMost(x: seq<real>, ix: seq<nat>)
    requires NonNegative(x)
    requires forall j :: 0 <= j < |ix| ==> ix[j] < |x|
    requires forall i, j :: 0 <= i < j < |ix| ==> ix[i] != ix[j]
    ensures 0.0 <= IndexSum(x, ix) <= Sum(x)
    decreases |ix|
  {
    if |ix| == 0 {
      SumNonNegative(x);
    } else {
      var i0 := ix[0];
      var y := x[i0 := 0.0];
      IndexSumAgree(x, y, ix[1..]);
      IndexSumAtMost(y, ix[1..]);
      SumUpdate(x, i0, 0.0);
    }
  }

  /** The positions of the labels from `k` on. */
  function Positions<L(==)>(actions: seq<L>, xs: seq<(L, History)>, k: nat): (r: seq<nat>)
    requires k <= |xs| && forall m :: m in xs ==> m.0 in actions
    ensures |r| == |xs| - k
    ensures forall j :: 0 <= j < |r| ==> r[j] < |actions| && actions[r[j]] == xs[k + j].0
    decreases |xs| - k
  {
    if k == |xs| then []
    else
      assert xs[k] in xs;
      [Position(actions, xs[k].0)] + Positions(actions, xs, k + 1)
  }

  /** The mass is the exploit policy's index sum at the labels' positions, once the regrets have a positive sum. */
  lemma {:induction false} MassIsIndexSum<L>(actions: seq<L>, regrets: seq<real>, xs: seq<(L, History)>, k: nat)
    requires |regrets| == |actions| && k <= |xs| && forall m :: m in xs ==> m.0 in actions
    requires Sum(regrets) > 0.0
    ensures Mass(actions, regrets, xs, k) == IndexSum(SP.ExploitPolicy(regrets), Positions(actions, xs, k))
    decreases |xs| - k
  {
    if k < |xs| {
      var ix := Positions(actions, xs, k);
      assert ix[1..] == Positions(actions, xs, k + 1);
      SP.PExploitAgainstExploitPolicy(regrets, ix[0]);
      MassIsIndexSum(actions, regrets, xs, k + 1);
    }
  }

  /**
   * A loop's weights add up to at most 1: the labels are distinct actions
   * of a valid policy, whose regrets are at least EPS.
   */
  lemma {:induction false} MassAtMostOne<L>(pol: SP.PolicyState<L>, xs: seq<(L, History)>)
    requires pol.Valid() && DistinctLabels(xs) && forall m :: m in xs ==> m.0 in pol.actions
    ensures 0.0 <= Mass(pol.actions, pol.accRegrets, xs, 0) <= 1.0
  {
    var regrets := pol.accRegrets;
    if |xs| == 0 {
      return;
    }
    assert xs[0] in xs;
    assert NonNegative(regrets);
    var i0 := Position(pol.actions, xs[0].0);
    EntryAtMostSum(regrets, i0);
    var ix := Positions(pol.actions, xs, 0);
    forall i, j | 0 <= i < j < |ix|
      ensures ix[i] != ix[j]
    {
      assert pol.actions[ix[i]] == xs[i].0 && pol.actions[ix[j]] == xs[j].0;
    }
    MassIsIndexSum(pol.actions, regrets, xs, 0);
    SP.ExploitPolicyIsDistribution(regrets);
    IndexSumAtMost(SP.ExploitPolicy(regrets), ix);
  }

  /** A total within the spreads of lo and hi over all the labels lies in [lo, hi], when lo <= 0 <= hi. */
  lemma {:induction false} SpreadUnit<L>(pol: SP.PolicyState<L>, xs: seq<(L, History)>, lo: real, hi: real, r: real)
    requires pol.Valid() && DistinctLabels(xs) && forall m :: m in xs ==> m.0 in pol.actions
    requires lo <= 0.0 <= hi
    requires Within(0.0, Spread(pol.actions, pol.accRegrets, xs, 0, lo), Spread(pol.actions, pol.accRegrets, xs, 0, hi), r)
    ensures lo <= r <= hi
  {
    MassAtMostOne(pol, xs);
    SpreadIsMass(pol.actions, pol.accRegrets, xs, 0, lo);
    SpreadIsMass(pol.actions, pol.accRegrets, xs, 0, hi);
    WithinUnit(lo, hi, Mass(pol.actions, pol.accRegrets, xs, 0), Spread(pol.actions, pol.accRegrets, xs, 0, lo),
      Spread(pol.actions, pol.accRegrets, xs, 0, hi), r);
  }

  // ---------------------------------------------------------------------
  // The value bound

  /**
   * The trees the bound speaks of: terminal payoffs and gadget
   * alternatives in [lo, hi], distinct labels under every node, and no
   * Expanded node below an Expanded node pointing at the same set.
   */
  predicate Bounded(h: History, lo: real, hi: real)
  {
    match h
    case Terminal(p) => lo <= p <= hi
    case Expanded(ptr, _, moves, _) =>
      DistinctLabels(moves) && forall m :: m in moves ==> !Mentions(m.1, ptr) && Bounded(m.1, lo, hi)
    case Augmented(_, _, alt, _, children) =>
      lo <= alt <= hi && DistinctLabels(children) && forall c :: c in children ==> Bounded(c.1, lo, hi)
    case SubgameRoot(_, children) =>
      DistinctLabels(children) && forall c :: c in children ==> Bounded(c.1, lo, hi)
    case _ => true
  }

  /** Every entry of `after` is the one in `before` or lies in [lo, hi]. */
  predicate KeptOrWithin(before: seq<real>, after: seq<real>, lo: real, hi: real)
  {
    |after| == |before| && forall i :: 0 <= i < |before| ==> after[i] == before[i] || lo <= after[i] <= hi
  }

  /** Keeping-or-bounding twice is keeping-or-bounding. */
  lemma {:induction false} KeptOrWithinStep(a: seq<real>, b: seq<real>, c: seq<real>, lo: real, hi: real)
    requires KeptOrWithin(a, b, lo, hi) && KeptOrWithin(b, c, lo, hi)
    ensures KeptOrWithin(a, c, lo, hi)
  {
  }

  /**
   * `make_utilities` returns a value in [lo, hi]; an Expanded node's set
   * and the root's policy record only values in [lo, hi] as expectations.
   */
  lemma {:induction false} UtilitiesBounded(h: History, opt: SP.Player, reach: real, store: Store, lo: real, hi: real)
    requires StoreOk(store) && Walkable(h, store.Keys) && Bounded(h, lo, hi) && lo <= 0.0 <= hi
    ensures var r := Utilities(h, opt, reach, store);
      lo <= r.0 <= hi &&
      (h.Expanded? ==> h.ptr in r.2 && KeptOrWithin(store[h.ptr].policy.expectations, r.2[h.ptr].policy.expectations, lo, hi)) &&
      (h.SubgameRoot? ==> KeptOrWithin(h.info.policy.expectations, r.1.info.policy.expectations, lo, hi))
    decreases h, 2, 1
  {
    match h
    case Expanded(_, _, _, _) => ExpandedBounded(h, opt, reach, store, lo, hi);
    case Augmented(_, _, _, _, _) => GadgetBounded(h, opt, reach, store, lo, hi);
    case SubgameRoot(_, _) => RootBounded(h, opt, reach, store, lo, hi);
    case _ =>
  }

  /** The Expanded arm: a value in [lo, hi], and the node's set records only values in [lo, hi]. */
  lemma {:induction false} ExpandedBounded(h: History, opt: SP.Player, reach: real, store: Store, lo: real, hi: real)
    requires h.Expanded? && StoreOk(store) && Walkable(h, store.Keys) && Bounded(h, lo, hi) && lo <= 0.0 <= hi
    ensures var r := ExpandedUtilities(h, opt, reach, store);
      lo <= r.0 <= hi && h.ptr in r.2 &&
      KeptOrWithin(store[h.ptr].policy.expectations, r.2[h.ptr].policy.expectations, lo, hi)
    decreases h, 2, 0
  {
    MovesFromBounded(h, opt, reach, 0, 0.0, store, store.Keys, lo, hi);
    var r := MovesFrom(h, opt, reach, 0, 0.0, store, store.Keys);
    SpreadUnit(store[h.ptr].policy, h.moves, lo, hi, r.0);
  }

  /**
   * The gadget arm: the entry value, recorded as the resolver's second
   * expectation, and the mixed value both lie in [lo, hi].
   */
  lemma {:induction false} GadgetBounded(h: History, opt: SP.Player, reach: real, store: Store, lo: real, hi: real)
    requires h.Augmented? && StoreOk(store) && Walkable(h, store.Keys) && Bounded(h, lo, hi) && lo <= 0.0 <= hi
    ensures var r := GadgetUtilities(h, opt, reach, store);
      lo <= r.0 <= hi && r.1.Augmented? && lo <= r.1.resolver.expectations[1] <= hi
    decreases h, 2, 0
  {
    ChildrenFromBounded(h, opt, reach, 0, 0.0, h.info, store, lo, hi);
    var r := ChildrenFrom(h, opt, reach, 0, 0.0, h.info, store);
    SpreadUnit(h.info.policy, h.children, lo, hi, r.0);
  }

  /** The subgame root arm: a value in [lo, hi], and the root's policy records only values in [lo, hi]. */
  lemma {:induction false} RootBounded(h: History, opt: SP.Player, reach: real, store: Store, lo: real, hi: real)
    requires h.SubgameRoot? && StoreOk(store) && Walkable(h, store.Keys) && Bounded(h, lo, hi) && lo <= 0.0 <= hi
    ensures var r := RootUtilities(h, opt, reach, store);
      lo <= r.0 <= hi && KeptOrWithin(h.info.policy.expectations, r.1.info.policy.expectations, lo, hi)
    decreases h, 2, 0
  {
    ChildrenFromBounded(h, opt, reach, 0, 0.0, h.info, store, lo, hi);
    var r := ChildrenFrom(h, opt, reach, 0, 0.0, h.info, store);
    SpreadUnit(h.info.policy, h.children, lo, hi, r.0);
  }

  /**
   * The moves loop from `k` adds to `local` a value within the spreads of
   * lo and hi over the moves left, and records only values in [lo, hi] at
   * the node's set.
   */
  lemma {:induction false} MovesFromBounded(h: History, opt: SP.Player, reach: real, k: nat, local: real, store: Store,
    keys: set<nat>, lo: real, hi: real)
    requires h.Expanded? && StoreOk(store) && store.Keys == keys && Walkable(h, keys) && k <= |h.moves|
    requires Bounded(h, lo, hi) && lo <= 0.0 <= hi
    ensures var pol := store[h.ptr].policy; var low := Spread(pol.actions, pol.accRegrets, h.moves, k, lo);
      var high := Spread(pol.actions, pol.accRegrets, h.moves, k, hi);
      var r := MovesFrom(h, opt, reach, k, local, store, keys);
      Within(local, low, high, r.0) &&
      KeptOrWithin(pol.expectations, r.2[h.ptr].policy.expectations, lo, hi)
    decreases h, 1, |h.moves| - k, 2
  {
    if k < |h.moves| {
      MoveFacts(h, k, store);
      var p := SP.PExploitOf(store[h.ptr].policy, h.moves[k].0);
      if h.player == opt || p > 0.0 {
        MovesFromFollows(h, opt, reach, k, local, store, keys);
        FollowMoveBounded(h, opt, reach, k, local, store, keys, lo, hi);
      } else {
        MovesFromSkips(h, opt, reach, k, local, store, keys);
        SpreadSkip(store[h.ptr].policy, h.moves, k, lo);
        SpreadSkip(store[h.ptr].policy, h.moves, k, hi);
        MovesFromBounded(h, opt, reach, k + 1, local, store, keys, lo, hi);
      }
    }
  }

  lemma {:induction false} FollowMoveBounded(h: History, opt: SP.Player, reach: real, k: nat, local: real, store: Store,
    keys: set<nat>, lo: real, hi: real)
    requires h.Expanded? && StoreOk(store) && store.Keys == keys && Walkable(h, keys) && k < |h.moves|
    requires Bounded(h, lo, hi) && lo <= 0.0 <= hi
    ensures var pol := store[h.ptr].policy; var low := Spread(pol.actions, pol.accRegrets, h.moves, k, lo);
      var high := Spread(pol.actions, pol.accRegrets, h.moves, k, hi);
      var r := FollowMove(h, opt, reach, k, local, store, keys);
      Within(local, low, high, r.0) &&
      KeptOrWithin(pol.expectations, r.2[h.ptr].policy.expectations, lo, hi)
    decreases h, 1, |h.moves| - k, 1
  {
    MoveFacts(h, k, store);
    assert h.moves[k] in h.moves;
    var pol := store[h.ptr].policy;
    var p := SP.PExploitOf(pol, h.moves[k].0);
    var c := Utilities(h.moves[k].1, opt, Scaled(reach, p), store);
    UtilitiesBounded(h.moves[k].1, opt, Scaled(reach, p), store, lo, hi);
    UtilitiesFrame(h.moves[k].1, opt, Scaled(reach, p), store, h.ptr);
    AfterMoveBounded(h, opt, reach, k, AddWeighted(local, p, c.0), c.0, c.1, store, c.2, keys, lo, hi);
    FollowMoveUnfold(h, opt, reach, k, local, store, keys);
    var r := FollowMove(h, opt, reach, k, local, store, keys);
    SpreadStep(pol, h.moves, k, local, c.0, lo, hi, r.0);
  }

  lemma {:induction false} AfterMoveBounded(h: History, opt: SP.Player, reach: real, k: nat, local: real, v: real,
    child: History, store: Store, s0: Store, keys: set<nat>, lo: real, hi: real)
    requires h.Expanded? && store.Keys == keys && Walkable(h, keys) && k < |h.moves|
    requires StoreOk(s0) && OnlyPolicies(store, s0) && Walkable(child, keys)
    requires Bounded(h, lo, hi) && lo <= 0.0 <= hi && lo <= v <= hi
    requires h.ptr in store && s0[h.ptr] == store[h.ptr]
    ensures var pol := store[h.ptr].policy; var low := Spread(pol.actions, pol.accRegrets, h.moves, k + 1, lo);
      var high := Spread(pol.actions, pol.accRegrets, h.moves, k + 1, hi);
      var r := AfterMove(h, opt, reach, k, local, v, child, store, s0, keys);
      Within(local, low, high, r.0) &&
      KeptOrWithin(pol.expectations, r.2[h.ptr].policy.expectations, lo, hi)
    decreases h, 1, |h.moves| - k, 0
  {
    MoveFacts(h, k, s0);
    var pol := store[h.ptr].policy;
    var s := Record(s0, h.ptr, h.moves[k].0, v);
    RecordKept(s0, h.ptr, h.moves[k].0, v, lo, hi);
    MovesFromBounded(h, opt, reach, k + 1, local, s, keys, lo, hi);
    AfterMoveUnfold(h, opt, reach, k, local, v, child, store, s0, keys);
    var r := AfterMove(h, opt, reach, k, local, v, child, store, s0, keys);
    KeptOrWithinStep(pol.expectations, s[h.ptr].policy.expectations, r.2[h.ptr].policy.expectations, lo, hi);
  }

  /**
   * The children loop from `k` adds to `acc` a value within the spreads of
   * lo and hi over the children left, under the node's own policy, and at
   * the root records only values in [lo, hi] as expectations.
   */
  lemma {:induction false} ChildrenFromBounded(h: History, opt: SP.Player, reach: real, k: nat, acc: real, info: Info<nat>,
    store: Store, lo: real, hi: real)
    requires (h.Augmented? || h.SubgameRoot?) && StoreOk(store) && Walkable(h, store.Keys) && k <= |h.children|
    requires info.policy.Valid() && info.policy.actions == h.info.policy.actions
    requires info.policy.accRegrets == h.info.policy.accRegrets
    requires Bounded(h, lo, hi) && lo <= 0.0 <= hi
    ensures var low := Spread(h.info.policy.actions, h.info.policy.accRegrets, h.children, k, lo);
      var high := Spread(h.info.policy.actions, h.info.policy.accRegrets, h.children, k, hi);
      var r := ChildrenFrom(h, opt, reach, k, acc, info, store);
      Within(acc, low, high, r.0) &&
      KeptOrWithin(info.policy.expectations, r.2.policy.expectations, lo, hi)
    decreases h, 1, |h.children| - k, 2
  {
    if k < |h.children| {
      assert h.children[k] in h.children;
      if SP.PExploitOf(info.policy, h.children[k].0) > 0.0 {
        ChildFollowedBounded(h, opt, reach, k, acc, info, store, lo, hi);
      } else {
        ChildSkippedBounded(h, opt, reach, k, acc, info, store, lo, hi);
      }
    }
  }

  lemma {:induction false} ChildFollowedBounded(h: History, opt: SP.Player, reach: real, k: nat, acc: real, info: Info<nat>,
    store: Store, lo: real, hi: real)
    requires (h.Augmented? || h.SubgameRoot?) && StoreOk(store) && Walkable(h, store.Keys) && k < |h.children|
    requires info.policy.Valid() && info.policy.actions == h.info.policy.actions
    requires info.policy.accRegrets == h.info.policy.accRegrets
    requires Bounded(h, lo, hi) && lo <= 0.0 <= hi
    requires h.children[k].0 in info.policy.actions && SP.PExploitOf(info.policy, h.children[k].0) > 0.0
    ensures var low := Spread(h.info.policy.actions, h.info.policy.accRegrets, h.children, k, lo);
      var high := Spread(h.info.policy.actions, h.info.policy.accRegrets, h.children, k, hi);
      var r := ChildrenFrom(h, opt, reach, k, acc, info, store);
      Within(acc, low, high, r.0) &&
      KeptOrWithin(info.policy.expectations, r.2.policy.expectations, lo, hi)
    decreases h, 1, |h.children| - k, 1
  {
    ChildrenFromFollows(h, opt, reach, k, acc, info, store);
    FollowChildBounded(h, opt, reach, k, acc, info, store, lo, hi);
  }

  lemma {:induction false} ChildSkippedBounded(h: History, opt: SP.Player, reach: real, k: nat, acc: real, info: Info<nat>,
    store: Store, lo: real, hi: real)
    requires (h.Augmented? || h.SubgameRoot?) && StoreOk(store) && Walkable(h, store.Keys) && k < |h.children|
    requires info.policy.Valid() && info.policy.actions == h.info.policy.actions
    requires info.policy.accRegrets == h.info.policy.accRegrets
    requires Bounded(h, lo, hi) && lo <= 0.0 <= hi
    requires h.children[k].0 in info.policy.actions && !(SP.PExploitOf(info.policy, h.children[k].0) > 0.0)
    ensures var low := Spread(h.info.policy.actions, h.info.policy.accRegrets, h.children, k, lo);
      var high := Spread(h.info.policy.actions, h.info.policy.accRegrets, h.children, k, hi);
      var r := ChildrenFrom(h, opt, reach, k, acc, info, store);
      Within(acc, low, high, r.0) &&
      KeptOrWithin(info.policy.expectations, r.2.policy.expectations, lo, hi)
    decreases h, 1, |h.children| - k, 1
  {
    ChildrenFromSkips(h, opt, reach, k, acc, info, store);
    SameExploit(info.policy, h.info.policy, h.children[k].0);
    SpreadSkip(h.info.policy, h.children, k, lo);
    SpreadSkip(h.info.policy, h.children, k, hi);
    ChildrenFromBounded(h, opt, reach, k + 1, acc, info, store, lo, hi);
  }

  lemma {:induction false} FollowChildBounded(h: History, opt: SP.Player, reach: real, k: nat, acc: real, info: Info<nat>,
    store: Store, lo: real, hi: real)
    requires (h.Augmented? || h.SubgameRoot?) && StoreOk(store) && Walkable(h, store.Keys) && k < |h.children|
    requires info.policy.Valid() && info.policy.actions == h.info.policy.actions
    requires info.policy.accRegrets == h.info.policy.accRegrets
    requires Bounded(h, lo, hi) && lo <= 0.0 <= hi
    ensures var low := Spread(h.info.policy.actions, h.info.policy.accRegrets, h.children, k, lo);
      var high := Spread(h.info.policy.actions, h.info.policy.accRegrets, h.children, k, hi);
      var r := FollowChild(h, opt, reach, k, acc, info, store);
      Within(acc, low, high, r.0) &&
      KeptOrWithin(info.policy.expectations, r.2.policy.expectations, lo, hi)
    decreases h, 1, |h.children| - k, 0
  {
    assert h.children[k] in h.children;
    var idx := h.children[k].0;
    var p := SP.PExploitOf(info.policy, idx);
    var c := Utilities(h.children[k].1, opt, Scaled(reach, p), store);
    UtilitiesBounded(h.children[k].1, opt, Scaled(reach, p), store, lo, hi);
    var info' := if h.SubgameRoot? then RecordIndex(info, idx, c.0) else info;
    RecordIndexKept(info, idx, c.0, lo, hi);
    ChildrenFromBounded(h, opt, reach, k + 1, AddWeighted(acc, p, c.0), info', c.2, lo, hi);
    FollowChildUnfold(h, opt, reach, k, acc, info, store);
    var r := FollowChild(h, opt, reach, k, acc, info, store);
    SameExploit(info.policy, h.info.policy, idx);
    SpreadStep(h.info.policy, h.children, k, acc, c.0, lo, hi, r.0);
    var rest := ChildrenFrom(h, opt, reach, k + 1, AddWeighted(acc, p, c.0), info', c.2);
    KeptOrWithinStep(info.policy.expectations, info'.policy.expectations, rest.2.policy.expectations, lo, hi);
  }
}
