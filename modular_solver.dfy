// The modular Rust solver (src/obscuro/obscuro.rs) and its infosets
// (src/obscuro/info.rs), built on the policy of src/obscuro/policy.rs.
//
// Infosets are shared between histories through `Rc<RefCell<Info>>`;
// here a history names its infoset by the trace it is stored under, the
// infosets form a map passed beside the tree, and every operation that
// writes through a pointer returns the new map. The successor pointers
// an infoset keeps for `gift` are keys of the same map.
module ModularSolver {
  import opened Wrappers
  import opened Players
  import opened Reals
  import opened Seqs
  import SP = SinglePolicy
  import OP = ObscuroPolicy
  import ST = SolverTree
  import SG = Subgame
  import SS = SubgameSolve

  type Reach = ST.Reach

  /** A history of src/obscuro/history.rs: a payoff, an unvisited state, a visited state with its reach, or an expanded node. */
  datatype History<S, A, T> =
    | Terminal(payoff: real)
    | New(state: S)
    | Visited(state: S, reach: Reach)
    | Expanded(info: T, reach: Reach, children: seq<(A, History<S, A, T>)>, player: Player)

  /**
   * An infoset: its policy, trace, acting player, summed reach, whether a
   * history was added, the successor metadata `gift` reads (traces,
   * pointers as map keys, alternative values) and the cached gift.
   */
  datatype Info<A, T> = Info(
    policy: SP.PolicyState<A>,
    trace: T,
    player: Player,
    reach: Reach,
    visited: bool,
    succTraces: seq<Option<T>>,
    succPtrs: seq<Option<T>>,
    succAlt: seq<Option<real>>,
    giftCached: Option<real>)

  type Infosets<A, T> = map<T, Info<A, T>>

  // ---------------------------------------------------------------------
  // Infosets (src/obscuro/info.rs)

  /** `from_policy`: no reach, not visited, no cached gift, and one empty successor slot per action in each of the three vectors. */
  function FromPolicy<A, T>(policy: SP.PolicyState<A>, trace: T, player: Player): (i: Info<A, T>)
    ensures i.policy == policy && i.trace == trace && i.player == player
    ensures i.reach == map[] && !i.visited && i.giftCached.None?
    ensures |i.succTraces| == |policy.actions| && |i.succPtrs| == |policy.actions| && |i.succAlt| == |policy.actions|
    ensures forall k :: 0 <= k < |policy.actions| ==> i.succTraces[k].None? && i.succPtrs[k].None? && i.succAlt[k].None?
  {
    var n := |policy.actions|;
    Info(policy, trace, player, map[], false, Repeat(n, None), Repeat(n, None), Repeat(n, None), None)
  }

  /** `add_counterfactuals(a, v)`: a's expectation becomes v; every other expectation and every other field stays. */
  function AddCounterfactuals<A(==), T>(i: Info<A, T>, a: A, v: real): (j: Info<A, T>)
    requires i.policy.Valid() && a in i.policy.actions
    ensures j.policy.Valid() && j.(policy := i.policy) == i
    ensures j.policy.(expectations := i.policy.expectations) == i.policy
    ensures forall k :: 0 <= k < |i.policy.actions| ==>
      j.policy.expectations[k] == (if k == Position(i.policy.actions, a) then v else i.policy.expectations[k])
  {
    i.(policy := SP.WithExpectation(i.policy, a, v))
  }

  /** Only the last of two writes to the same action's counterfactual is kept. */
  lemma {:induction false} AddCounterfactualsLastWins<A, T>(i: Info<A, T>, a: A, v: real, w: real)
    requires i.policy.Valid() && a in i.policy.actions
    ensures AddCounterfactuals(AddCounterfactuals(i, a, v), a, w) == AddCounterfactuals(i, a, w)
  {
    var j := AddCounterfactuals(i, a, v);
    assert j.policy.actions == i.policy.actions;
    var x := AddCounterfactuals(j, a, w).policy.expectations;
    var y := AddCounterfactuals(i, a, w).policy.expectations;
    assert x == y;
  }

  /** The reach a history brings: its map for Visited and Expanded nodes, nothing for the others. */
  function HistoryReach<S, A, T>(h: History<S, A, T>): Reach
  {
    if h.Visited? || h.Expanded? then h.reach else map[]
  }

  /**
   * `add_history`: the infoset is marked visited, and each reach entry of
   * a Visited or Expanded history is added into its reach, a missing
   * player starting at 0 (the same accumulation `SolverTree.Info.AddHistory`
   * performs entry by entry).
   */
  function AddHistory<A, T, S>(i: Info<A, T>, h: History<S, A, T>): (j: Info<A, T>)
    ensures j.visited && j.(visited := i.visited, reach := i.reach) == i
    ensures j.reach.Keys == i.reach.Keys + HistoryReach(h).Keys
    ensures forall p :: p in j.reach ==> j.reach[p] == ST.Get(i.reach, p, 0.0) + ST.Get(HistoryReach(h), p, 0.0)
    ensures h.Terminal? || h.New? ==> j.reach == i.reach
  {
    ST.AddedReachCommutes(i.reach, map[], map[]);
    i.(visited := true, reach := ST.AddedReach(i.reach, HistoryReach(h)))
  }

  /** Adding two histories gives the same infoset in either order. */
  lemma {:induction false} AddHistoryCommutes<A, T, S>(i: Info<A, T>, h1: History<S, A, T>, h2: History<S, A, T>)
    ensures AddHistory(AddHistory(i, h1), h2) == AddHistory(AddHistory(i, h2), h1)
  {
    ST.AddedReachCommutes(i.reach, HistoryReach(h1), HistoryReach(h2));
  }

  // ---------------------------------------------------------------------
  // gift and gift_inner

  /** Every infoset sits under its own trace and every successor pointer names an infoset of the map. */
  predicate Linked<A, T(==)>(inf: Infosets<A, T>)
  {
    forall t :: t in inf ==> (inf[t].trace == t &&
      forall k :: 0 <= k < |inf[t].succPtrs| && inf[t].succPtrs[k].Some? ==> inf[t].succPtrs[k].value in inf)
  }

  /** The policy expectation of the infoset under a key. */
  function Here<A, T>(inf: Infosets<A, T>, t: T): real
    requires t in inf
  {
    SP.Expectation(inf[t].policy)
  }

  /** The upside of a successor value over the infoset's own value, or 0. */
  function Margin(v: real, here: real): (m: real)
    ensures m >= 0.0 && (m > 0.0 <==> v > here)
  {
    if v > here then v - here else 0.0
  }

  /**
   * `gift_inner(seen)`: 0 when the trace was seen already; otherwise the
   * trace joins `seen` and the gifts of the successors and their margins
   * over this infoset's value are summed, action by action. The set of
   * seen traces only grows, and the result is never negative. Every call
   * either returns at once or adds a new key to `seen`, so the recursion
   * ends on any map, cycles included.
   */
  function GiftInner<A, T(==)>(inf: Infosets<A, T>, t: T, seen: set<T>): (r: (real, set<T>))
    requires Linked(inf) && t in inf
    ensures r.0 >= 0.0 && seen + {t} <= r.1
    ensures t in seen ==> r == (0.0, seen)
    decreases |inf.Keys - seen|, 1, 0
  {
    if t in seen then (0.0, seen)
    else
      SeenGrows(inf.Keys, seen, t);
      GiftFrom(inf, t, 0, seen + {t})
  }

  /**
   * The loop of `gift_inner` from action k on: a successor pointer
   * contributes its own gift and its expectation's margin; without one
   * the alternative value is used, or this infoset's value (margin 0)
   * when there is none.
   */
  function GiftFrom<A, T(==)>(inf: Infosets<A, T>, t: T, k: nat, seen: set<T>): (r: (real, set<T>))
    requires Linked(inf) && t in inf && k <= |inf[t].policy.actions|
    ensures r.0 >= 0.0 && seen <= r.1
    decreases |inf.Keys - seen|, 2, |inf[t].policy.actions| - k
  {
    if k == |inf[t].policy.actions| then (0.0, seen)
    else
      var info := inf[t];
      var here := Here(inf, t);
      if k < |info.succPtrs| && info.succPtrs[k].Some? then
        var c := info.succPtrs[k].value;
        var inner := GiftInner(inf, c, seen);
        SeenShrinks(inf.Keys, seen, inner.1);
        var rest := GiftFrom(inf, t, k + 1, inner.1);
        (inner.0 + Margin(Here(inf, c), here) + rest.0, rest.1)
      else
        var alt := if k < |info.succAlt| && info.succAlt[k].Some? then info.succAlt[k].value else here;
        var rest := GiftFrom(inf, t, k + 1, seen);
        (Margin(alt, here) + rest.0, rest.1)
  }

  lemma {:induction false} SubsetCard<T>(x: set<T>, y: set<T>)
    requires x <= y
    ensures |x| <= |y|
    decreases |x|
  {
    if x != {} {
      var e :| e in x;
      assert x == (x - {e}) + {e};
      assert y == (y - {e}) + {e};
      SubsetCard(x - {e}, y - {e});
    }
  }

  /** Marking an unseen key seen shrinks the unseen part of the map. */
  lemma {:induction false} SeenGrows<T>(keys: set<T>, seen: set<T>, t: T)
    requires t in keys && t !in seen
    ensures |keys - (seen + {t})| < |keys - seen|
  {
    assert keys - seen == (keys - (seen + {t})) + {t};
  }

  /** A larger seen set leaves no more unseen keys. */
  lemma {:induction false} SeenShrinks<T>(keys: set<T>, s1: set<T>, s2: set<T>)
    requires s1 <= s2
    ensures |keys - s2| <= |keys - s1|
  {
    SubsetCard(keys - s2, keys - s1);
  }

  /** Every cached gift is non-negative. */
  predicate CachesSound<A, T>(inf: Infosets<A, T>)
  {
    forall t :: t in inf && inf[t].giftCached.Some? ==> inf[t].giftCached.value >= 0.0
  }

  /**
   * `gift`: the cached value when there is one, leaving the map as it is;
   * otherwise `gift_inner` from an empty seen set, whose value is then
   * cached in the infoset.
   */
  function Gift<A, T(==)>(inf: Infosets<A, T>, t: T): (r: (real, Infosets<A, T>))
    requires Linked(inf) && t in inf
    ensures inf[t].giftCached.Some? ==> r == (inf[t].giftCached.value, inf)
    ensures inf[t].giftCached.None? ==> r.0 == GiftInner(inf, t, {}).0 && r.1 == inf[t := inf[t].(giftCached := Some(r.0))]
  {
    if inf[t].giftCached.Some? then (inf[t].giftCached.value, inf)
    else
      var v := GiftInner(inf, t, {}).0;
      (v, inf[t := inf[t].(giftCached := Some(v))])
  }

  /**
   * The gift is computed once: a second call returns the same value and
   * changes nothing; the value is never negative while the cached values
   * are not, and caching keeps both the links and that soundness.
   */
  lemma {:induction false} GiftIsCached<A, T>(inf: Infosets<A, T>, t: T)
    requires Linked(inf) && t in inf && CachesSound(inf)
    ensures var r := Gift(inf, t);
      r.0 >= 0.0 && Linked(r.1) && CachesSound(r.1) && t in r.1 && Gift(r.1, t) == r
  {
    var r := Gift(inf, t);
    assert r.1.Keys == inf.Keys;
    assert forall u :: u in r.1 ==> r.1[u].trace == inf[u].trace && r.1[u].succPtrs == inf[u].succPtrs;
  }

  /**
   * An infoset no successor pointer leaves, whose alternative values are
   * never above its own value (a fresh infoset has none at all), has gift 0.
   */
  lemma {:induction false} NoUpsideNoGift<A, T>(inf: Infosets<A, T>, t: T, k: nat, seen: set<T>)
    requires Linked(inf) && t in inf && k <= |inf[t].policy.actions|
    requires forall j :: 0 <= j < |inf[t].succPtrs| ==> inf[t].succPtrs[j].None?
    requires forall j :: 0 <= j < |inf[t].succAlt| && inf[t].succAlt[j].Some? ==> inf[t].succAlt[j].value <= Here(inf, t)
    ensures GiftFrom(inf, t, k, seen) == (0.0, seen)
    decreases |inf[t].policy.actions| - k
  {
    if k < |inf[t].policy.actions| {
      NoUpsideNoGift(inf, t, k + 1, seen);
    }
  }

  /** A fresh infoset has no gift, whatever else the map holds. */
  lemma {:induction false} FreshInfoNoGift<A, T>(inf: Infosets<A, T>, t: T)
    requires Linked(inf) && t in inf && inf[t] == FromPolicy(inf[t].policy, inf[t].trace, inf[t].player)
    ensures GiftInner(inf, t, {}).0 == 0.0
  {
    var empty: set<T> := {};
    assert empty + {t} == {t};
    NoUpsideNoGift(inf, t, 0, {t});
    assert GiftInner(inf, t, empty) == GiftFrom(inf, t, 0, {t});
  }

  // ---------------------------------------------------------------------
  // Histories and the k-cover

  /** Histories that are not Terminal, so that they have a trace (`trace` is unimplemented for Terminal ones). */
  predicate NonTerminal<S, A, T>(hs: seq<History<S, A, T>>)
  {
    forall i :: 0 <= i < |hs| ==> !hs[i].Terminal?
  }

  /** `trace()`: the acting player's trace of an unexpanded state; an Expanded node's infoset trace, which is its key. */
  function Trace<S, A, T>(g: Game<S, A, T>, h: History<S, A, T>): T
    requires !h.Terminal?
  {
    match h
    case New(s) => g.trace(s, g.activePlayer(s))
    case Visited(s, _) => g.trace(s, g.activePlayer(s))
    case Expanded(info, _, _, _) => info
  }

  /** The histories whose trace is in `traces`, in order. */
  function Matching<S, A, T(==)>(g: Game<S, A, T>, hs: seq<History<S, A, T>>, traces: set<T>): (r: seq<History<S, A, T>>)
    requires NonTerminal(hs)
    ensures NonTerminal(r) && |r| <= |hs|
    ensures forall i :: 0 <= i < |r| ==> Trace(g, r[i]) in traces && r[i] in hs
    ensures forall i :: 0 <= i < |hs| && Trace(g, hs[i]) in traces ==> hs[i] in r
  {
    if |hs| == 0 then []
    else
      var rest := Matching(g, hs[1..], traces);
      if Trace(g, hs[0]) in traces then [hs[0]] + rest else rest
  }

  /** The histories whose trace is not in `traces`, in order. */
  function NotMatching<S, A, T(==)>(g: Game<S, A, T>, hs: seq<History<S, A, T>>, traces: set<T>): (r: seq<History<S, A, T>>)
    requires NonTerminal(hs)
    ensures NonTerminal(r) && |r| <= |hs|
    ensures forall i :: 0 <= i < |r| ==> Trace(g, r[i]) !in traces && r[i] in hs
    ensures forall i :: 0 <= i < |hs| && Trace(g, hs[i]) !in traces ==> hs[i] in r
  {
    if |hs| == 0 then []
    else
      var rest := NotMatching(g, hs[1..], traces);
      if Trace(g, hs[0]) !in traces then [hs[0]] + rest else rest
  }

  /** The traces of a list of histories. */
  function TracesOf<S, A, T(==)>(g: Game<S, A, T>, hs: seq<History<S, A, T>>): (ts: set<T>)
    requires NonTerminal(hs)
    ensures forall i :: 0 <= i < |hs| ==> Trace(g, hs[i]) in ts
    ensures forall t :: t in ts ==> exists i :: 0 <= i < |hs| && Trace(g, hs[i]) == t
  {
    set i | 0 <= i < |hs| :: Trace(g, hs[i])
  }

  /**
   * `k_cover`: the histories whose trace is in the set, followed, for
   * k > 1, by the (k-1)-cover of the others against the traces of the
   * ones just found.
   */
  function KCover<S, A, T(==)>(g: Game<S, A, T>, hs: seq<History<S, A, T>>, traces: set<T>, k: nat): (r: seq<History<S, A, T>>)
    requires NonTerminal(hs)
    decreases k
  {
    var covered := Matching(g, hs, traces);
    if k > 1 then covered + KCover(g, NotMatching(g, hs, traces), TracesOf(g, covered), k - 1)
    else covered
  }

  lemma {:induction false} MatchingNone<S, A, T>(g: Game<S, A, T>, hs: seq<History<S, A, T>>, traces: set<T>)
    requires NonTerminal(hs)
    requires forall i :: 0 <= i < |hs| ==> Trace(g, hs[i]) !in traces
    ensures Matching(g, hs, traces) == []
  {
    if |hs| > 0 {
      MatchingNone(g, hs[1..], traces);
    }
  }

  /**
   * As in src/obscuro.rs, the recursion matches the same kind of trace it
   * filtered the rest by; every trace of the first matches lies in the set
   * the rest failed, so for every k the cover is the plain 1-cover.
   */
  lemma {:induction false} KCoverIsOneCover<S, A, T>(g: Game<S, A, T>, hs: seq<History<S, A, T>>, traces: set<T>, k: nat)
    requires NonTerminal(hs)
    ensures KCover(g, hs, traces, k) == Matching(g, hs, traces)
    decreases k
  {
    if k > 1 {
      var covered := Matching(g, hs, traces);
      var rest := NotMatching(g, hs, traces);
      var ts := TracesOf(g, covered);
      assert ts <= traces;
      MatchingNone(g, rest, ts);
      KCoverIsOneCover(g, rest, ts, k - 1);
    }
  }

  // ---------------------------------------------------------------------
  // Grouping and padding (construct_subgame)

  /** The groups keyed by trace, as in the older solver: `Subgame.Pre` and `Subgame.Positions` over these histories. */
  type Positions<S, A, T> = SG.Positions<T, History<S, A, T>>

  /**
   * The fold of `construct_subgame`: each covered history joins the group
   * of its trace with its reach probability for the player (`reach_prob`,
   * passed in as `rp`); a new group starts with alternative value 0.
   */
  function GroupBy<S, A, T(==)>(g: Game<S, A, T>, hs: seq<History<S, A, T>>, rp: History<S, A, T> -> real): Positions<S, A, T>
    requires NonTerminal(hs)
  {
    if |hs| == 0 then []
    else
      var n := |hs| - 1;
      var r := rp(hs[n]);
      SG.Insert(GroupBy(g, hs[..n], rp), Trace(g, hs[n]), hs[n], r, SG.Pre(r, 0.0, [hs[n]]))
  }

  /**
   * After the fold the keys are distinct, each group has alternative value
   * 0 and no history is lost or duplicated.
   */
  lemma {:induction false} GroupByProperties<S, A, T>(g: Game<S, A, T>, hs: seq<History<S, A, T>>, rp: History<S, A, T> -> real)
    requires NonTerminal(hs)
    ensures var pos := GroupBy(g, hs, rp);
      SG.DistinctKeys(pos) && SG.TotalHistories(pos) == |hs| &&
      (forall j :: 0 <= j < |pos| ==> pos[j].1.alt == 0.0)
  {
    if |hs| == 0 {
      assert SG.Lengths(GroupBy(g, hs, rp)) == [];
    } else {
      var n := |hs| - 1;
      GroupByProperties(g, hs[..n], rp);
      var r := rp(hs[n]);
      SG.InsertProperties(GroupBy(g, hs[..n], rp), Trace(g, hs[n]), hs[n], r, SG.Pre(r, 0.0, [hs[n]]));
    }
  }

  /** After an insertion a key has a group exactly when it had one or is the key inserted. */
  lemma {:induction false} InsertKeys<S, A, T>(pos: Positions<S, A, T>, key: T, h: History<S, A, T>, addProb: real, start: SG.Pre<History<S, A, T>>, k: T)
    ensures var pos' := SG.Insert(pos, key, h, addProb, start);
      SG.KeyIndex(pos', k) < |pos'| <==> SG.KeyIndex(pos, k) < |pos| || k == key
  {
    var pos' := SG.Insert(pos, key, h, addProb, start);
    KeyIndexIn(pos, k);
    KeyIndexIn(pos', k);
    KeyIndexIn(pos, key);
    if SG.KeyIndex(pos, k) < |pos| {
      assert pos'[SG.KeyIndex(pos, k)].0 == k;
    }
    if k == key && SG.KeyIndex(pos, key) == |pos| {
      assert pos'[|pos|].0 == k;
    }
    if k == key && SG.KeyIndex(pos, key) < |pos| {
      assert pos'[SG.KeyIndex(pos, key)].0 == k;
    }
    if SG.KeyIndex(pos', k) < |pos'| {
      var j := SG.KeyIndex(pos', k);
      if j < |pos| {
        assert pos[j].0 == k;
      }
    }
  }

  /** The traces of a list extended by one history. */
  lemma {:induction false} TracesOfSnoc<S, A, T>(g: Game<S, A, T>, hs: seq<History<S, A, T>>)
    requires NonTerminal(hs) && |hs| > 0
    ensures TracesOf(g, hs) == TracesOf(g, hs[..|hs| - 1]) + {Trace(g, hs[|hs| - 1])}
  {
    var n := |hs| - 1;
    var hs0 := hs[..n];
    forall t | t in TracesOf(g, hs)
      ensures t in TracesOf(g, hs0) + {Trace(g, hs[n])}
    {
      var i :| 0 <= i < |hs| && Trace(g, hs[i]) == t;
      if i < n {
        assert hs0[i] == hs[i];
      }
    }
    forall t | t in TracesOf(g, hs0)
      ensures t in TracesOf(g, hs)
    {
      var i :| 0 <= i < |hs0| && Trace(g, hs0[i]) == t;
      assert hs[i] == hs0[i];
    }
  }

  /** A key has a group after the fold exactly when some covered history has that trace. */
  lemma {:induction false} GroupByKeys<S, A, T>(g: Game<S, A, T>, hs: seq<History<S, A, T>>, rp: History<S, A, T> -> real, key: T)
    requires NonTerminal(hs)
    ensures SG.KeyIndex(GroupBy(g, hs, rp), key) < |GroupBy(g, hs, rp)| <==> key in TracesOf(g, hs)
  {
    if |hs| > 0 {
      var n := |hs| - 1;
      var r := rp(hs[n]);
      GroupByKeys(g, hs[..n], rp, key);
      InsertKeys(GroupBy(g, hs[..n], rp), Trace(g, hs[n]), hs[n], r, SG.Pre(r, 0.0, [hs[n]]), key);
      TracesOfSnoc(g, hs);
    }
  }

  /** A key has a group exactly when it is one of the keys. */
  lemma {:induction false} KeyIndexIn<S, A, T>(pos: Positions<S, A, T>, key: T)
    ensures SG.KeyIndex(pos, key) < |pos| <==> exists j :: 0 <= j < |pos| && pos[j].0 == key
  {
    if exists j :: 0 <= j < |pos| && pos[j].0 == key {
      var j :| 0 <= j < |pos| && pos[j].0 == key;
      assert SG.KeyIndex(pos, key) <= j;
    }
  }

  /** A sampled position becomes an unvisited history. */
  function Sampled<S, A, T>(s: S): History<S, A, T>
  {
    New(s)
  }

  /**
   * The padding loop as written: it runs while the count is below
   * min(MIN_INFO_SIZE, |positions|) and samples remain; each sample joins
   * the group of the opponent's trace, or starts one with probability 1 and
   * the sample's evaluation as alternative value.
   */
  function PadAsWritten<S, A, T(==)>(g: Game<S, A, T>, pos: Positions<S, A, T>, samples: seq<S>, other: Player, count: nat): Positions<S, A, T>
    decreases |samples|
  {
    if count >= (if SG.MIN_INFO_SIZE <= |pos| then SG.MIN_INFO_SIZE else |pos|) || |samples| == 0 then pos
    else
      var s := samples[0];
      PadAsWritten(g, SG.Insert(pos, g.trace(s, other), Sampled(s), 0.0, SG.Pre(1.0, g.evaluate(s), [Sampled(s)])), samples[1..], other, count + 1)
  }

  /** The count starts at the number of groups, so the guard fails at once and no sample is ever added. */
  lemma {:induction false} PadAsWrittenAddsNothing<S, A, T>(g: Game<S, A, T>, pos: Positions<S, A, T>, samples: seq<S>, other: Player)
    ensures PadAsWritten(g, pos, samples, other, |pos|) == pos
  {
  }

  /** The padding loop with the guard `data_count < MIN_INFO_SIZE`, as src/obscuro.rs writes it. */
  function Pad<S, A, T(==)>(g: Game<S, A, T>, pos: Positions<S, A, T>, samples: seq<S>, other: Player, count: nat): Positions<S, A, T>
    decreases |samples|
  {
    if count >= SG.MIN_INFO_SIZE || |samples| == 0 then pos
    else
      var s := samples[0];
      Pad(g, SG.Insert(pos, g.trace(s, other), Sampled(s), 0.0, SG.Pre(1.0, g.evaluate(s), [Sampled(s)])), samples[1..], other, count + 1)
  }

  /**
   * The padding keeps the keys distinct; every earlier group keeps its
   * key, probability and alternative value and only gains histories, and
   * every new group starts at probability 1.
   */
  lemma {:induction false} PadProperties<S, A, T>(g: Game<S, A, T>, pos: Positions<S, A, T>, samples: seq<S>, other: Player, count: nat)
    requires SG.DistinctKeys(pos)
    ensures var pos' := Pad(g, pos, samples, other, count);
      SG.DistinctKeys(pos') && |pos'| >= |pos| &&
      (forall j :: 0 <= j < |pos| ==> (pos'[j].0 == pos[j].0 && pos'[j].1.prob == pos[j].1.prob &&
        pos'[j].1.alt == pos[j].1.alt && pos[j].1.histories <= pos'[j].1.histories)) &&
      (forall j :: |pos| <= j < |pos'| ==> pos'[j].1.prob == 1.0)
    decreases |samples|
  {
    if count < SG.MIN_INFO_SIZE && |samples| > 0 {
      var s := samples[0];
      var h: History<S, A, T> := Sampled(s);
      var start := SG.Pre(1.0, g.evaluate(s), [h]);
      var pos1 := SG.Insert(pos, g.trace(s, other), h, 0.0, start);
      SG.InsertProperties(pos, g.trace(s, other), h, 0.0, start);
      PadProperties(g, pos1, samples[1..], other, count + 1);
      PadStep(pos, pos1, Pad(g, pos1, samples[1..], other, count + 1));
    }
  }

  /** What one insertion keeps, composed with what the rest of the padding keeps. */
  lemma {:induction false} PadStep<S, A, T>(pos: Positions<S, A, T>, pos1: Positions<S, A, T>, pos': Positions<S, A, T>)
    requires |pos1| >= |pos| && |pos'| >= |pos1|
    requires forall j :: 0 <= j < |pos| ==> (pos1[j].0 == pos[j].0 && pos1[j].1.prob == pos[j].1.prob &&
        pos1[j].1.alt == pos[j].1.alt && pos[j].1.histories <= pos1[j].1.histories)
    requires forall j :: |pos| <= j < |pos1| ==> pos1[j].1.prob == 1.0
    requires forall j :: 0 <= j < |pos1| ==> (pos'[j].0 == pos1[j].0 && pos'[j].1.prob == pos1[j].1.prob &&
        pos'[j].1.alt == pos1[j].1.alt && pos1[j].1.histories <= pos'[j].1.histories)
    requires forall j :: |pos1| <= j < |pos'| ==> pos'[j].1.prob == 1.0
    ensures forall j :: 0 <= j < |pos| ==> (pos'[j].0 == pos[j].0 && pos'[j].1.prob == pos[j].1.prob &&
        pos'[j].1.alt == pos[j].1.alt && pos[j].1.histories <= pos'[j].1.histories)
    ensures forall j :: |pos| <= j < |pos'| ==> pos'[j].1.prob == 1.0
  {
    forall j | 0 <= j < |pos|
      ensures pos[j].1.histories <= pos'[j].1.histories
    {
      assert pos[j].1.histories <= pos1[j].1.histories;
    }
  }

  /** The padding adds one history per sample it takes, min(samples, MIN_INFO_SIZE - count) of them. */
  lemma {:induction false} PadTotal<S, A, T>(g: Game<S, A, T>, pos: Positions<S, A, T>, samples: seq<S>, other: Player, count: nat)
    requires SG.DistinctKeys(pos)
    ensures SG.TotalHistories(Pad(g, pos, samples, other, count)) == SG.TotalHistories(pos) + SG.Taken(|samples|, count)
    decreases |samples|
  {
    if count < SG.MIN_INFO_SIZE && |samples| > 0 {
      var s := samples[0];
      var h: History<S, A, T> := Sampled(s);
      var start := SG.Pre(1.0, g.evaluate(s), [h]);
      var pos1 := SG.Insert(pos, g.trace(s, other), h, 0.0, start);
      SG.InsertProperties(pos, g.trace(s, other), h, 0.0, start);
      PadTotal(g, pos1, samples[1..], other, count + 1);
    }
  }

  /** The padding loop over the sample stream, given as a sequence. */
  method PadPositions<S, A, T(==)>(g: Game<S, A, T>, pos0: Positions<S, A, T>, samples: seq<S>, other: Player) returns (pos: Positions<S, A, T>)
    ensures pos == Pad(g, pos0, samples, other, |pos0|)
  {
    pos := pos0;
    var dataCount: nat := |pos0|;
    var i := 0;
    while dataCount < SG.MIN_INFO_SIZE
      invariant 0 <= i <= |samples|
      invariant Pad(g, pos, samples[i..], other, dataCount) == Pad(g, pos0, samples, other, |pos0|)
      decreases |samples| - i
    {
      if i < |samples| {
        var s := samples[i];
        assert samples[i..][1..] == samples[i + 1..];
        pos := SG.Insert(pos, g.trace(s, other), Sampled(s), 0.0, SG.Pre(1.0, g.evaluate(s), [Sampled(s)]));
        dataCount := dataCount + 1;
        i := i + 1;
      } else {
        break;
      }
    }
  }

  // ---------------------------------------------------------------------
  // make_utilities_hist

  /** The infosets of a tree's Expanded nodes. */
  function InfosOf<S, A, T>(h: History<S, A, T>): set<T>
    decreases h, 1
  {
    if h.Expanded? then {h.info} + InfosFrom(h, 0) else {}
  }

  function InfosFrom<S, A, T>(h: History<S, A, T>, k: nat): set<T>
    requires h.Expanded? && k <= |h.children|
    decreases h, 0, |h.children| - k
  {
    if k == |h.children| then {}
    else (assert h.children[k] in h.children; InfosOf(h.children[k].1)) + InfosFrom(h, k + 1)
  }

  /** Every Expanded node's infoset is in the map, with a well-formed policy that holds the node's child actions. */
  ghost predicate Fits<S, A, T>(h: History<S, A, T>, inf: Infosets<A, T>)
    decreases h, 1
  {
    h.Expanded? ==> h.info in inf && inf[h.info].policy.Valid() && ChildrenFit(h, 0, inf)
  }

  ghost predicate ChildrenFit<S, A, T>(h: History<S, A, T>, k: nat, inf: Infosets<A, T>)
    requires h.Expanded? && k <= |h.children|
    decreases h, 0, |h.children| - k
  {
    k < |h.children| ==>
      h.info in inf && h.children[k].0 in inf[h.info].policy.actions &&
      (assert h.children[k] in h.children; Fits(h.children[k].1, inf)) && ChildrenFit(h, k + 1, inf)
  }

  /** `inf'` differs from `inf` only in policies, which keep their actions and well-formedness and never lose updates. */
  ghost predicate PoliciesOnly<A, T>(inf: Infosets<A, T>, inf': Infosets<A, T>)
  {
    inf'.Keys == inf.Keys &&
    forall t :: t in inf ==>
      inf'[t] == inf[t].(policy := inf'[t].policy) && inf'[t].policy.actions == inf[t].policy.actions &&
      (inf[t].policy.Valid() ==> inf'[t].policy.Valid()) && inf'[t].policy.updates >= inf[t].policy.updates
  }

  /** The infosets outside `keys` are unchanged. */
  ghost predicate Untouched<A, T>(inf: Infosets<A, T>, inf': Infosets<A, T>, keys: set<T>)
  {
    forall t :: t in inf && t !in keys ==> t in inf' && inf'[t] == inf[t]
  }

  lemma {:induction false} PoliciesOnlyTrans<A, T>(inf: Infosets<A, T>, inf1: Infosets<A, T>, inf2: Infosets<A, T>)
    requires PoliciesOnly(inf, inf1) && PoliciesOnly(inf1, inf2)
    ensures PoliciesOnly(inf, inf2)
  {
  }

  lemma {:induction false} FitsKept<S, A, T>(h: History<S, A, T>, inf: Infosets<A, T>, inf': Infosets<A, T>)
    requires Fits(h, inf) && Keeps(inf, inf')
    ensures Fits(h, inf')
    decreases h, 1
  {
    if h.Expanded? {
      ChildrenFitKept(h, 0, inf, inf');
    }
  }

  lemma {:induction false} ChildrenFitKept<S, A, T>(h: History<S, A, T>, k: nat, inf: Infosets<A, T>, inf': Infosets<A, T>)
    requires h.Expanded? && k <= |h.children| && ChildrenFit(h, k, inf) && Keeps(inf, inf')
    ensures ChildrenFit(h, k, inf')
    decreases h, 0, |h.children| - k
  {
    if k < |h.children| {
      assert h.children[k] in h.children;
      FitsKept(h.children[k].1, inf, inf');
      ChildrenFitKept(h, k + 1, inf, inf');
    }
  }

  /** `update()` on the infoset under a key. */
  function UpdateInfo<A, T>(inf: Infosets<A, T>, t: T): Infosets<A, T>
    requires t in inf && inf[t].policy.Valid()
  {
    inf[t := inf[t].(policy := SP.Updated(inf[t].policy))]
  }

  /**
   * `make_utilities_hist`: a Terminal history is worth its payoff; New and
   * Visited histories are worth 0 and change nothing (the Visited copy of
   * a New one is a local that is dropped); an Expanded node is worth the
   * sum of p·v over the children it visits, each visited child writes its
   * value v into its action's counterfactual, and the node's policy is
   * updated last. Every infoset keeps its actions and its well-formed
   * policy; UtilitiesFrame states what else is kept.
   */
  function Utilities<S, A(==), T(==)>(h: History<S, A, T>, inf: Infosets<A, T>, opt: Player): (r: (real, Infosets<A, T>))
    requires Fits(h, inf)
    ensures Keeps(inf, r.1)
    ensures !h.Expanded? ==> r.1 == inf && r.0 == (if h.Terminal? then h.payoff else 0.0)
    decreases h, 1
  {
    match h
    case Terminal(payoff) => (payoff, inf)
    case New(_) => (0.0, inf)
    case Visited(_, _) => (0.0, inf)
    case Expanded(t, _, _, _) =>
      var c := UtilitiesFrom(h, 0, inf, opt);
      (c.0, UpdateInfo(c.1, t))
  }

  /** Two maps with the same keys where every policy keeps its actions and its well-formedness. */
  ghost predicate Keeps<A, T>(inf: Infosets<A, T>, inf': Infosets<A, T>)
  {
    inf'.Keys == inf.Keys &&
    forall t :: t in inf ==> inf'[t].policy.actions == inf[t].policy.actions && (inf[t].policy.Valid() ==> inf'[t].policy.Valid())
  }

  lemma {:induction false} KeepsTrans<A, T>(inf: Infosets<A, T>, inf1: Infosets<A, T>, inf2: Infosets<A, T>)
    requires Keeps(inf, inf1) && Keeps(inf1, inf2)
    ensures Keeps(inf, inf2)
  {
  }

  /**
   * The loop of `make_utilities_hist` from child k on: a child is visited
   * when the node belongs to the optimizing player or its action has a
   * positive exploit probability, read before the child is traversed.
   */
  function UtilitiesFrom<S, A(==), T(==)>(h: History<S, A, T>, k: nat, inf: Infosets<A, T>, opt: Player): (r: (real, Infosets<A, T>))
    requires h.Expanded? && k <= |h.children|
    requires h.info in inf && inf[h.info].policy.Valid() && ChildrenFit(h, k, inf)
    ensures Keeps(inf, r.1)
    decreases h, 0, |h.children| - k, 1
  {
    if k == |h.children| then (0.0, inf)
    else if Visits(h, k, inf, opt) then VisitChild(h, k, inf, opt)
    else UtilitiesFrom(h, k + 1, inf, opt)
  }

  /** Whether the loop visits child k. */
  predicate Visits<S, A(==), T(==)>(h: History<S, A, T>, k: nat, inf: Infosets<A, T>, opt: Player)
    requires h.Expanded? && k < |h.children|
    requires h.info in inf && inf[h.info].policy.Valid() && ChildrenFit(h, k, inf)
  {
    h.player == opt || SP.PExploitOf(inf[h.info].policy, h.children[k].0) > 0.0
  }

  /** The map after child k's traversal `c` and the write of its value `v` into its action's counterfactual. */
  function AfterChild<S, A(==), T(==)>(h: History<S, A, T>, k: nat, c: Infosets<A, T>, v: real): Infosets<A, T>
    requires h.Expanded? && k < |h.children|
    requires h.info in c && c[h.info].policy.Valid() && h.children[k].0 in c[h.info].policy.actions
  {
    c[h.info := AddCounterfactuals(c[h.info], h.children[k].0, v)]
  }

  /** One visited child: its value v weighted by its probability p, and v written into its action's counterfactual. */
  function VisitChild<S, A(==), T(==)>(h: History<S, A, T>, k: nat, inf: Infosets<A, T>, opt: Player): (r: (real, Infosets<A, T>))
    requires h.Expanded? && k < |h.children|
    requires h.info in inf && inf[h.info].policy.Valid() && ChildrenFit(h, k, inf)
    ensures Keeps(inf, r.1)
    decreases h, 0, |h.children| - k, 0
  {
    assert h.children[k] in h.children;
    var c := Utilities(h.children[k].1, inf, opt);
    ChildStep(h, k, inf, c.1, c.0);
    var m := AfterChild(h, k, c.1, c.0);
    var rest := UtilitiesFrom(h, k + 1, m, opt);
    (Weighted(SP.PExploitOf(inf[h.info].policy, h.children[k].0), c.0) + rest.0, rest.1)
  }

  /** A child's value weighted by its probability. */
  function Weighted(p: real, v: real): real
  {
    p * v
  }

  /** After child k's traversal, its counterfactual can be written and the later children still fit. */
  lemma {:induction false} ChildStep<S, A, T>(h: History<S, A, T>, k: nat, inf: Infosets<A, T>, c: Infosets<A, T>, v: real)
    requires h.Expanded? && k < |h.children|
    requires h.info in inf && inf[h.info].policy.Valid() && ChildrenFit(h, k, inf)
    requires Keeps(inf, c)
    ensures h.info in c && c[h.info].policy.Valid() && h.children[k].0 in c[h.info].policy.actions
    ensures var m := AfterChild(h, k, c, v);
      Keeps(inf, m) && m[h.info].policy.Valid() && ChildrenFit(h, k + 1, m)
  {
    var m := AfterChild(h, k, c, v);
    AfterChildFrame(h, k, c, v);
    KeepsTrans(inf, c, m);
    ChildrenFitKept(h, k + 1, inf, m);
  }

  /** Writing a counterfactual changes one infoset's expectations and nothing else. */
  lemma {:induction false} AfterChildFrame<S, A, T>(h: History<S, A, T>, k: nat, c: Infosets<A, T>, v: real)
    requires h.Expanded? && k < |h.children|
    requires h.info in c && c[h.info].policy.Valid() && h.children[k].0 in c[h.info].policy.actions
    ensures var m := AfterChild(h, k, c, v);
      Keeps(c, m) && PoliciesOnly(c, m) && Untouched(c, m, {h.info})
  {
  }

  /**
   * The frame of `make_utilities_hist`: only policies change, none loses
   * an update, the infosets outside the tree are untouched, and an
   * Expanded node with actions gains an update.
   */
  lemma {:induction false} UtilitiesFrame<S, A, T>(h: History<S, A, T>, inf: Infosets<A, T>, opt: Player)
    requires Fits(h, inf)
    ensures var r := Utilities(h, inf, opt);
      PoliciesOnly(inf, r.1) && Untouched(inf, r.1, InfosOf(h)) &&
      (h.Expanded? && |inf[h.info].policy.actions| > 0 ==> r.1[h.info].policy.updates > inf[h.info].policy.updates)
    decreases h, 1
  {
    if h.Expanded? {
      var c := UtilitiesFrom(h, 0, inf, opt);
      UtilitiesFromFrame(h, 0, inf, opt);
      UpdateStep(h, inf, c.1);
      UtilitiesUnfold(h, inf, opt);
    }
  }

  lemma {:induction false} UtilitiesUnfold<S, A, T>(h: History<S, A, T>, inf: Infosets<A, T>, opt: Player)
    requires Fits(h, inf) && h.Expanded?
    ensures var c := UtilitiesFrom(h, 0, inf, opt);
      c.1[h.info].policy.Valid() && Utilities(h, inf, opt) == (c.0, UpdateInfo(c.1, h.info))
  {
  }

  /** The facts the final `update()` of an Expanded node adds to those of its loop. */
  lemma {:induction false} UpdateStep<S, A, T>(h: History<S, A, T>, inf: Infosets<A, T>, m: Infosets<A, T>)
    requires h.Expanded? && h.info in inf && inf[h.info].policy.Valid()
    requires PoliciesOnly(inf, m) && Untouched(inf, m, {h.info} + InfosFrom(h, 0))
    ensures m[h.info].policy.Valid()
    ensures var r := UpdateInfo(m, h.info);
      PoliciesOnly(inf, r) && Untouched(inf, r, InfosOf(h)) &&
      (|inf[h.info].policy.actions| > 0 ==> r[h.info].policy.updates > inf[h.info].policy.updates)
  {
    if |m[h.info].policy.actions| > 0 {
      SP.UpdatedProperties(m[h.info].policy);
    }
  }

  lemma {:induction false} UtilitiesFromFrame<S, A, T>(h: History<S, A, T>, k: nat, inf: Infosets<A, T>, opt: Player)
    requires h.Expanded? && k <= |h.children|
    requires h.info in inf && inf[h.info].policy.Valid() && ChildrenFit(h, k, inf)
    ensures var r := UtilitiesFrom(h, k, inf, opt);
      PoliciesOnly(inf, r.1) && Untouched(inf, r.1, {h.info} + InfosFrom(h, k))
    decreases h, 0, |h.children| - k, 1
  {
    if k < |h.children| {
      if Visits(h, k, inf, opt) {
        FromUnfoldVisit(h, k, inf, opt);
        VisitChildFrame(h, k, inf, opt);
      } else {
        FromUnfoldSkip(h, k, inf, opt);
        UtilitiesFromFrame(h, k + 1, inf, opt);
        InfosFromShrinks(h, k);
        UntouchedWiden(inf, UtilitiesFrom(h, k + 1, inf, opt).1, {h.info} + InfosFrom(h, k + 1), {h.info} + InfosFrom(h, k));
      }
    }
  }

  lemma {:induction false} FromUnfoldVisit<S, A, T>(h: History<S, A, T>, k: nat, inf: Infosets<A, T>, opt: Player)
    requires h.Expanded? && k < |h.children|
    requires h.info in inf && inf[h.info].policy.Valid() && ChildrenFit(h, k, inf)
    requires Visits(h, k, inf, opt)
    ensures UtilitiesFrom(h, k, inf, opt) == VisitChild(h, k, inf, opt)
  {
  }

  lemma {:induction false} FromUnfoldSkip<S, A, T>(h: History<S, A, T>, k: nat, inf: Infosets<A, T>, opt: Player)
    requires h.Expanded? && k < |h.children|
    requires h.info in inf && inf[h.info].policy.Valid() && ChildrenFit(h, k, inf)
    requires !Visits(h, k, inf, opt)
    ensures ChildrenFit(h, k + 1, inf) && UtilitiesFrom(h, k, inf, opt) == UtilitiesFrom(h, k + 1, inf, opt)
  {
  }

  lemma {:induction false} InfosFromShrinks<S, A, T>(h: History<S, A, T>, k: nat)
    requires h.Expanded? && k < |h.children|
    ensures InfosFrom(h, k + 1) <= InfosFrom(h, k)
  {
  }

  lemma {:induction false} UntouchedWiden<A, T>(inf: Infosets<A, T>, inf': Infosets<A, T>, keys: set<T>, keys': set<T>)
    requires Untouched(inf, inf', keys) && keys <= keys'
    ensures Untouched(inf, inf', keys')
  {
  }

  lemma {:induction false} VisitChildFrame<S, A, T>(h: History<S, A, T>, k: nat, inf: Infosets<A, T>, opt: Player)
    requires h.Expanded? && k < |h.children|
    requires h.info in inf && inf[h.info].policy.Valid() && ChildrenFit(h, k, inf)
    ensures var r := VisitChild(h, k, inf, opt);
      PoliciesOnly(inf, r.1) && Untouched(inf, r.1, {h.info} + InfosFrom(h, k))
    decreases h, 0, |h.children| - k, 0
  {
    assert h.children[k] in h.children;
    var c := Utilities(h.children[k].1, inf, opt);
    UtilitiesFrame(h.children[k].1, inf, opt);
    ChildStep(h, k, inf, c.1, c.0);
    var m := AfterChild(h, k, c.1, c.0);
    AfterChildFrame(h, k, c.1, c.0);
    UtilitiesFromFrame(h, k + 1, m, opt);
    FromStep(h, k, inf, c.1, m, UtilitiesFrom(h, k + 1, m, opt).1);
  }

  /** The frame of one visited child combined with the frame of the rest of the loop. */
  lemma {:induction false} FromStep<S, A, T>(h: History<S, A, T>, k: nat, inf: Infosets<A, T>, c: Infosets<A, T>, m: Infosets<A, T>, r: Infosets<A, T>)
    requires h.Expanded? && k < |h.children|
    requires PoliciesOnly(inf, c) && Untouched(inf, c, InfosOf(h.children[k].1))
    requires PoliciesOnly(c, m) && Untouched(c, m, {h.info})
    requires PoliciesOnly(m, r) && Untouched(m, r, {h.info} + InfosFrom(h, k + 1))
    ensures PoliciesOnly(inf, r) && Untouched(inf, r, {h.info} + InfosFrom(h, k))
  {
    assert h.children[k] in h.children;
    assert InfosFrom(h, k) == InfosOf(h.children[k].1) + InfosFrom(h, k + 1);
    PoliciesOnlyTrans(inf, c, m);
    PoliciesOnlyTrans(inf, m, r);
  }

  /** Every regret of a well-formed policy is at least EPS, so every action has a positive exploit probability. */
  lemma {:induction false} ExploitPositive<A>(p: SP.PolicyState<A>, a: A)
    requires p.Valid() && a in p.actions
    ensures SP.PExploitOf(p, a) > 0.0
  {
    var i := Position(p.actions, a);
    assert NonNegative(p.accRegrets);
    EntryAtMostSum(p.accRegrets, i);
    PositiveQuotient(p.accRegrets[i], Sum(p.accRegrets));
  }

  lemma {:induction false} PositiveQuotient(x: real, y: real)
    requires x > 0.0 && y > 0.0
    ensures x / y > 0.0
  {
  }

  /**
   * Since every action has a positive exploit probability, the loop visits
   * every child, whichever player it optimizes for: the test against the
   * optimizing player never decides anything.
   */
  lemma {:induction false} EveryChildVisited<S, A, T>(h: History<S, A, T>, k: nat, inf: Infosets<A, T>, opt: Player)
    requires h.Expanded? && k < |h.children|
    requires h.info in inf && inf[h.info].policy.Valid() && ChildrenFit(h, k, inf)
    ensures Visits(h, k, inf, opt) && SP.PExploitOf(inf[h.info].policy, h.children[k].0) > 0.0
    ensures UtilitiesFrom(h, k, inf, opt) == VisitChild(h, k, inf, opt)
  {
    ExploitPositive(inf[h.info].policy, h.children[k].0);
    FromUnfoldVisit(h, k, inf, opt);
  }

  // ---------------------------------------------------------------------
  // The subgame root, its resolve gadgets and the solver state

  /** `Reward::MAX`, the largest finite double, (2 - 2^-52) * 2^1023. */
  const REWARD_MAX: real := 179769313486231570814527423731704356798070567525844996598917476803157260780028538760589558632766878171540458953514382464234321326889464182768467546703537516986049910576551282076245490090389328944075868508455133942304583236903222948165808559332123348274797826204144723168738177180919299881250404026184124858368.0

  /**
   * A `ResolverGadget`: a chance infoset over the gadget's histories, the
   * opponent's SKIP/ENTER resolver, the alternative value, the prior and
   * the histories. The infoset is owned by the gadget, not shared.
   */
  datatype Gadget<S, A, T> = Gadget(info: Info<nat, T>, resolver: SP.PolicyState<SG.ResolveAction>, alt: real, prior: real, children: seq<History<S, A, T>>)

  /** A `SubgameRoot`: a policy over gadget indices and the gadgets. */
  datatype Root<S, A, T> = Root(policy: SP.PolicyState<nat>, children: seq<Gadget<S, A, T>>)

  /**
   * The `Obscuro` solver: the expectation, the infoset map and the subgame
   * root, and the player to move; the start time is left out. The map
   * holds the infosets the histories of the root point to.
   */
  datatype Solver<S, A, T> = Solver(expectation: real, infoSets: Infosets<A, T>, root: Root<S, A, T>, activePlayer: Player)

  /** The indices 0 .. n-1. */
  function Indices(n: nat): (r: seq<nat>)
    ensures |r| == n && forall i :: 0 <= i < n ==> r[i] == i
  {
    seq(n, i requires 0 <= i < n => i as nat)
  }

  /** In the list of indices, `position` finds index j at place j. */
  lemma {:induction false} PositionOfIndex(n: nat, j: nat)
    requires j < n
    ensures j in Indices(n) && Position(Indices(n), j) == j
  {
    var xs := Indices(n);
    assert xs[j] == j;
    var i := Position(xs, j);
    assert xs[i] == i;
  }

  /** `.enumerate().collect()`: each value paired with its index. */
  function Indexed(xs: seq<real>): (items: seq<(nat, real)>)
    ensures |items| == |xs| && forall i :: 0 <= i < |xs| ==> items[i] == (i as nat, xs[i])
  {
    seq(|xs|, i requires 0 <= i < |xs| => (i as nat, xs[i]))
  }

  /** The reach probability `rp` gives each history. */
  function Reaches<S, A, T>(hs: seq<History<S, A, T>>, rp: History<S, A, T> -> real): (r: seq<real>)
    ensures |r| == |hs| && forall i :: 0 <= i < |hs| ==> r[i] == rp(hs[i])
  {
    seq(|hs|, i requires 0 <= i < |hs| => rp(hs[i]))
  }

  /** A gadget the solving passes can use: one chance action per history, in order, and a resolver over SKIP then ENTER. */
  predicate GadgetReady<S, A, T>(gd: Gadget<S, A, T>)
  {
    gd.info.policy.Valid() && gd.info.policy.actions == Indices(|gd.children|) &&
    gd.resolver.Valid() && gd.resolver.actions == [SG.Skip, SG.Enter]
  }

  /**
   * A root the solving passes can use: one root action per gadget index,
   * in order, which `set_expectation(&idx, ..)` and `p_exploit(&idx)`
   * look up, and every gadget ready.
   */
  predicate RootReady<S, A, T>(root: Root<S, A, T>)
  {
    root.policy.Valid() && root.policy.actions == Indices(|root.children|) &&
    forall i :: 0 <= i < |root.children| ==> GadgetReady(root.children[i])
  }

  /**
   * One gadget of `SubgameRoot::new`: a chance infoset under the group's
   * trace whose policy starts from the histories' reach probabilities for
   * `player`, a fresh resolver for the other player starting SKIP at the
   * alternative value and ENTER at 0, and prior 1. The group's summed
   * probability is not used.
   */
  function NewGadget<S, A, T>(trace: T, pre: SG.Pre<History<S, A, T>>, player: Player, rp: History<S, A, T> -> real): (gd: Gadget<S, A, T>)
    ensures GadgetReady(gd) && gd.children == pre.histories && gd.alt == pre.alt && gd.prior == 1.0
    ensures gd.info == FromPolicy(gd.info.policy, trace, Chance) && gd.info.policy.multiplier == OP.Multiplier(player)
    ensures forall i :: 0 <= i < |pre.histories| ==>
      gd.info.policy.expectations[i] == rp(pre.histories[i]) && gd.info.policy.accRegrets[i] == SP.EPS
    ensures gd.resolver.multiplier == OP.Multiplier(Other(player))
    ensures gd.resolver.expectations == [pre.alt, 0.0] && gd.resolver.accRegrets == [SP.EPS, SP.EPS]
  {
    var policy := OP.RewardState(Indexed(Reaches(pre.histories, rp)), player);
    assert policy.actions == Indices(|pre.histories|);
    var resolver := OP.RewardState([(SG.Skip, pre.alt), (SG.Enter, 0.0)], Other(player));
    assert resolver.actions == [SG.Skip, SG.Enter] && resolver.expectations == [pre.alt, 0.0];
    assert resolver.accRegrets == [SP.EPS, SP.EPS];
    Gadget(FromPolicy(policy, trace, Chance), resolver, pre.alt, 1.0, pre.histories)
  }

  /** The gadgets of `SubgameRoot::new`, one per group, in order. */
  function Gadgets<S, A, T>(pos: Positions<S, A, T>, player: Player, rp: History<S, A, T> -> real): (gs: seq<Gadget<S, A, T>>)
    ensures |gs| == |pos| && forall j :: 0 <= j < |pos| ==> gs[j] == NewGadget(pos[j].0, pos[j].1, player, rp)
  {
    seq(|pos|, j requires 0 <= j < |pos| => NewGadget(pos[j].0, pos[j].1, player, rp))
  }

  /** `SubgameRoot::new` as written: whatever the number of gadgets, the root policy has the single action 0. */
  function NewRootAsWritten<S, A, T>(pos: Positions<S, A, T>, player: Player, rp: History<S, A, T> -> real): (root: Root<S, A, T>)
    ensures root.children == Gadgets(pos, player, rp)
    ensures root.policy.Valid() && root.policy.actions == [0]
  {
    var p := OP.RewardState([(0 as nat, 0.0)], player);
    assert p.actions == [0];
    Root(p, Gadgets(pos, player, rp))
  }

  /**
   * As written, a root over two or more groups lacks root action 1, which
   * the loop of `cfr_iterations` writes and the loop of `solve_step`
   * reads; there `position(..).unwrap()` panics.
   */
  lemma {:induction false} RootAsWrittenLacksIndex<S, A, T>(pos: Positions<S, A, T>, player: Player, rp: History<S, A, T> -> real)
    requires |pos| >= 2
    ensures var root := NewRootAsWritten(pos, player, rp);
      |root.children| >= 2 && 1 !in root.policy.actions && !RootReady(root)
  {
    var root := NewRootAsWritten(pos, player, rp);
    assert root.policy.actions[0] != 1;
  }

  /** The corrected `SubgameRoot::new`: one root action per gadget, each starting at 0; the root is ready. */
  function NewRoot<S, A, T>(pos: Positions<S, A, T>, player: Player, rp: History<S, A, T> -> real): (root: Root<S, A, T>)
    ensures root.children == Gadgets(pos, player, rp) && RootReady(root)
    ensures root.policy.multiplier == OP.Multiplier(player) && root.policy.expectations == Repeat(|pos|, 0.0)
  {
    var p := OP.RewardState(Indexed(Repeat(|pos|, 0.0)), player);
    assert p.actions == Indices(|pos|) && p.expectations == Repeat(|pos|, 0.0);
    Root(p, Gadgets(pos, player, rp))
  }

  /**
   * `Obscuro::default` for the initial state `s0` (which must not be a
   * chance node, since `best_value` panics for the random player) and the
   * default trace `t0`: expectation 0, no infosets, player P1, and a
   * ready root of one gadget holding the fresh history of `s0`, whose
   * resolver starts SKIP at 0 and ENTER at half of `Reward::MAX`, whose
   * alternative is the best value of the player to move, and whose root
   * action starts at 1.
   */
  function DefaultSolver<S, A, T>(g: Game<S, A, T>, s0: S, t0: T): (s: Solver<S, A, T>)
    requires g.activePlayer(s0) != Chance
    ensures s.expectation == 0.0 && s.infoSets == map[] && s.activePlayer == P1
    ensures RootReady(s.root) && |s.root.children| == 1 && s.root.policy.expectations == [1.0]
    ensures var gd := s.root.children[0];
      gd.children == [New(s0)] && gd.prior == 1.0 && gd.alt == StrictBestValue(g.activePlayer(s0)) &&
      gd.resolver.expectations == [0.0, REWARD_MAX / 2.0] && gd.info.trace == t0 && gd.info.player == g.activePlayer(s0)
  {
    var p := g.activePlayer(s0);
    var info := FromPolicy(OP.InitialState([0 as nat], p), t0, p);
    assert info.policy.actions == Indices(1);
    var resolver := OP.RewardState([(SG.Skip, 0.0), (SG.Enter, REWARD_MAX / 2.0)], Other(p));
    assert resolver.actions == [SG.Skip, SG.Enter] && resolver.expectations == [0.0, REWARD_MAX / 2.0];
    var policy := OP.RewardState([(0 as nat, 1.0)], p);
    assert policy.actions == Indices(1) && policy.expectations == [1.0];
    Solver(0.0, map[], Root(policy, [Gadget(info, resolver, StrictBestValue(p), 1.0, [New(s0)])]), P1)
  }

  // ---------------------------------------------------------------------
  // cfr_iterations

  /** Every history of the list fits the infosets. */
  ghost predicate AllFit<S, A, T>(hs: seq<History<S, A, T>>, inf: Infosets<A, T>)
  {
    forall j :: 0 <= j < |hs| ==> Fits(hs[j], inf)
  }

  /** Every gadget's histories fit the infosets. */
  ghost predicate GadgetsFit<S, A, T>(gs: seq<Gadget<S, A, T>>, inf: Infosets<A, T>)
  {
    forall i :: 0 <= i < |gs| ==> AllFit(gs[i].children, inf)
  }

  lemma {:induction false} AllFitKept<S, A, T>(hs: seq<History<S, A, T>>, inf: Infosets<A, T>, inf': Infosets<A, T>)
    requires AllFit(hs, inf) && Keeps(inf, inf')
    ensures AllFit(hs, inf')
  {
    forall j | 0 <= j < |hs|
      ensures Fits(hs[j], inf')
    {
      FitsKept(hs[j], inf, inf');
    }
  }

  lemma {:induction false} GadgetsFitKept<S, A, T>(gs: seq<Gadget<S, A, T>>, inf: Infosets<A, T>, inf': Infosets<A, T>)
    requires GadgetsFit(gs, inf) && Keeps(inf, inf')
    ensures GadgetsFit(gs, inf')
  {
    forall i | 0 <= i < |gs|
      ensures AllFit(gs[i].children, inf')
    {
      AllFitKept(gs[i].children, inf, inf');
    }
  }

  /** `resolver.p_exploit(&ENTER)`. */
  function EnterProb<S, A, T>(gd: Gadget<S, A, T>): (p: real)
    requires GadgetReady(gd)
    ensures 0.0 <= p <= 1.0
  {
    SP.PExploitOf(gd.resolver, SG.Enter)
  }

  /** Two equal regrets: a fresh resolver enters with probability 1/2. */
  lemma {:induction false} FreshEnterHalf<S, A, T>(gd: Gadget<S, A, T>)
    requires GadgetReady(gd) && gd.resolver.accRegrets[0] == gd.resolver.accRegrets[1]
    ensures EnterProb(gd) == 0.5
  {
    var acc := gd.resolver.accRegrets;
    assert Position(gd.resolver.actions, SG.Enter) == 1;
    assert Sum(acc) == acc[0] + acc[1] by {
      assert acc == [acc[0]] + [acc[1]];
      SumAppend([acc[0]], [acc[1]]);
      SumSingle(acc[0]);
      SumSingle(acc[1]);
    }
    HalfOfDouble(acc[1]);
  }

  lemma {:induction false} HalfOfDouble(x: real)
    requires x > 0.0
    ensures x / (x + x) == 0.5
  {
    assert (x + x) * 0.5 == x;
  }

  /** The value of a gadget for its resolver: SKIP's expectation with probability 1 - p_enter, ENTER's with p_enter. */
  function ResolverValue<S, A, T>(gd: Gadget<S, A, T>): real
    requires GadgetReady(gd)
  {
    Blend(EnterProb(gd), gd.resolver.expectations[0], gd.resolver.expectations[1])
  }

  /** `prior_probability * p_enter * 1.0`: the chance weight given to every history of a gadget. */
  function HistoryProb(prior: real, pe: real): real
  {
    prior * pe * 1.0
  }

  /** The resolver's blend (1 - p_enter)·SKIP + p_enter·ENTER. */
  function Blend(pe: real, skip: real, enter: real): real
  {
    (1.0 - pe) * skip + pe * enter
  }

  /**
   * What one pass of `cfr_iterations` does to a gadget: only the
   * expectations of its chance policy and of its resolver change; every
   * history's chance expectation becomes prior · p_enter, and SKIP's
   * expectation becomes the alternative value.
   */
  ghost predicate Passed<S, A, T>(gd: Gadget<S, A, T>, gd': Gadget<S, A, T>)
  {
    GadgetReady(gd) && GadgetReady(gd') &&
    gd' == gd.(info := gd'.info, resolver := gd'.resolver) &&
    gd'.info == gd.info.(policy := gd'.info.policy) &&
    gd'.info.policy == gd.info.policy.(expectations := gd'.info.policy.expectations) &&
    gd'.resolver == gd.resolver.(expectations := gd'.resolver.expectations) &&
    gd'.resolver.expectations[0] == gd.alt &&
    forall j :: 0 <= j < |gd.children| ==> gd'.info.policy.expectations[j] == gd.prior * EnterProb(gd)
  }

  /** A pass keeps the resolver's regrets, so the ENTER probability does not change. */
  lemma {:induction false} PassedKeepsEnterProb<S, A, T>(gd: Gadget<S, A, T>, gd': Gadget<S, A, T>)
    requires Passed(gd, gd')
    ensures EnterProb(gd') == EnterProb(gd)
  {
    assert gd'.resolver.accRegrets == gd.resolver.accRegrets;
  }

  /**
   * The history loop of `cfr_iterations` from history j on, with the
   * enter value summed so far: history j is traversed with the infosets
   * the previous ones left, its chance expectation is set to hp, and
   * hp times its value is added.
   */
  function EnterFrom<S, A(==), T(==)>(hs: seq<History<S, A, T>>, j: nat, hp: real, enter: real, ip: SP.PolicyState<nat>,
                                      inf: Infosets<A, T>, opt: Player): (r: (real, SP.PolicyState<nat>, Infosets<A, T>))
    requires j <= |hs| && ip.Valid() && ip.actions == Indices(|hs|) && AllFit(hs, inf)
    ensures Keeps(inf, r.2) && r.1.Valid() && r.1 == ip.(expectations := r.1.expectations)
    decreases |hs| - j
  {
    if j == |hs| then (enter, ip, inf)
    else
      var n := EnterStep(hs, j, hp, enter, ip, inf, opt);
      EnterFrom(hs, j + 1, hp, n.0, n.1, n.2, opt)
  }

  /** One turn of the history loop: history j is traversed, its chance expectation set to hp, and hp times its value added. */
  function EnterStep<S, A(==), T(==)>(hs: seq<History<S, A, T>>, j: nat, hp: real, enter: real, ip: SP.PolicyState<nat>,
                                      inf: Infosets<A, T>, opt: Player): (r: (real, SP.PolicyState<nat>, Infosets<A, T>))
    requires j < |hs| && ip.Valid() && ip.actions == Indices(|hs|) && AllFit(hs, inf)
    ensures Keeps(inf, r.2) && AllFit(hs, r.2) && r.1.Valid() && r.1 == ip.(expectations := ip.expectations[j := hp])
  {
    var c := Utilities(hs[j], inf, opt);
    AllFitKept(hs, inf, c.1);
    PositionOfIndex(|hs|, j);
    (enter + Weighted(hp, c.0), SP.WithExpectation(ip, j, hp), c.1)
  }

  /** The history loop sets the chance expectation of every history from j on to hp and keeps those before. */
  lemma {:induction false} EnterFromExpectations<S, A, T>(hs: seq<History<S, A, T>>, j: nat, hp: real, enter: real, ip: SP.PolicyState<nat>,
                                                         inf: Infosets<A, T>, opt: Player)
    requires j <= |hs| && ip.Valid() && ip.actions == Indices(|hs|) && AllFit(hs, inf)
    ensures var r := EnterFrom(hs, j, hp, enter, ip, inf, opt);
      |r.1.expectations| == |hs| &&
      (forall i :: 0 <= i < j ==> r.1.expectations[i] == ip.expectations[i]) &&
      (forall i :: j <= i < |hs| ==> r.1.expectations[i] == hp)
    decreases |hs| - j
  {
    if j < |hs| {
      var n := EnterStep(hs, j, hp, enter, ip, inf, opt);
      EnterFromExpectations(hs, j + 1, hp, n.0, n.1, n.2, opt);
    }
  }

  /**
   * One gadget of `cfr_iterations`: the history loop from an enter value
   * of 0 with hp = prior · p_enter, then ENTER's expectation becomes the
   * enter value and SKIP's the alternative. The third component is the
   * value written at the gadget's root index.
   */
  function GadgetPass<S, A(==), T(==)>(gd: Gadget<S, A, T>, inf: Infosets<A, T>, opt: Player): (r: (Gadget<S, A, T>, Infosets<A, T>, real))
    requires GadgetReady(gd) && AllFit(gd.children, inf)
    ensures GadgetReady(r.0) && r.0.children == gd.children && Keeps(inf, r.1)
  {
    var pe := EnterProb(gd);
    var hp := HistoryProb(gd.prior, pe);
    var e := EnterFrom(gd.children, 0, hp, 0.0, gd.info.policy, inf, opt);
    ResolverWrites(gd.resolver, e.0, gd.alt);
    var res := SP.WithExpectation(SP.WithExpectation(gd.resolver, SG.Enter, e.0), SG.Skip, gd.alt);
    (gd.(info := gd.info.(policy := e.1), resolver := res), e.2, Blend(pe, gd.alt, e.0))
  }

  /** Setting ENTER and then SKIP on a SKIP/ENTER resolver changes only its two expectations. */
  lemma {:induction false} ResolverWrites(r: SP.PolicyState<SG.ResolveAction>, enter: real, skip: real)
    requires r.Valid() && r.actions == [SG.Skip, SG.Enter]
    ensures var r' := SP.WithExpectation(SP.WithExpectation(r, SG.Enter, enter), SG.Skip, skip);
      r'.Valid() && r' == r.(expectations := [skip, enter])
  {
    assert Position(r.actions, SG.Enter) == 1 && Position(r.actions, SG.Skip) == 0;
  }

  /**
   * One pass passes the gadget (see Passed), and the value it returns is
   * the new ENTER/SKIP blend under the unchanged ENTER probability.
   */
  lemma {:induction false} GadgetPassProperties<S, A, T>(gd: Gadget<S, A, T>, inf: Infosets<A, T>, opt: Player)
    requires GadgetReady(gd) && AllFit(gd.children, inf)
    ensures var r := GadgetPass(gd, inf, opt);
      Passed(gd, r.0) && r.2 == ResolverValue(r.0)
  {
    var r := GadgetPass(gd, inf, opt);
    EnterFromExpectations(gd.children, 0, HistoryProb(gd.prior, EnterProb(gd)), 0.0, gd.info.policy, inf, opt);
    ResolverWrites(gd.resolver, r.0.resolver.expectations[1], gd.alt);
    PassedKeepsEnterProb(gd, r.0);
  }

  /**
   * The gadget loop measured against the gadgets `gs0` and infosets
   * `inf0` it started from: the same number of gadgets holding the same
   * histories, every gadget ready, one root action per gadget, and
   * infosets that kept the starting ones' actions.
   */
  ghost predicate CfrReady<S, A, T>(gs: seq<Gadget<S, A, T>>, rp: SP.PolicyState<nat>, inf: Infosets<A, T>,
                                    gs0: seq<Gadget<S, A, T>>, inf0: Infosets<A, T>)
  {
    |gs| == |gs0| && rp.Valid() && rp.actions == Indices(|gs|) && GadgetsFit(gs0, inf0) && Keeps(inf0, inf) &&
    forall k :: 0 <= k < |gs| ==> GadgetReady(gs[k]) && gs[k].children == gs0[k].children
  }

  /** While the loop is ready, gadget k's histories fit the current infosets. */
  lemma {:induction false} CfrReadyFits<S, A, T>(gs: seq<Gadget<S, A, T>>, rp: SP.PolicyState<nat>, inf: Infosets<A, T>,
                                                 gs0: seq<Gadget<S, A, T>>, inf0: Infosets<A, T>, k: nat)
    requires CfrReady(gs, rp, inf, gs0, inf0) && k < |gs|
    ensures GadgetReady(gs[k]) && AllFit(gs[k].children, inf)
  {
    AllFitKept(gs0[k].children, inf0, inf);
  }

  /**
   * The gadget loop of `cfr_iterations` from gadget i on: gadget i gets
   * its pass with the infosets the previous ones left, and its value is
   * written at root index i. CfrFromKeeps, CfrFromEarlier and CfrFromLater
   * state what it does.
   */
  ghost function CfrFrom<S, A, T>(gs: seq<Gadget<S, A, T>>, i: nat, rp: SP.PolicyState<nat>, inf: Infosets<A, T>, opt: Player,
                                          gs0: seq<Gadget<S, A, T>>, inf0: Infosets<A, T>)
    : (r: (seq<Gadget<S, A, T>>, SP.PolicyState<nat>, Infosets<A, T>))
    requires i <= |gs| && CfrReady(gs, rp, inf, gs0, inf0)
    decreases |gs| - i
  {
    if i == |gs| then (gs, rp, inf)
    else
      CfrReadyFits(gs, rp, inf, gs0, inf0, i);
      var p := GadgetPass(gs[i], inf, opt);
      KeepsTrans(inf0, inf, p.1);
      PositionOfIndex(|gs|, i);
      CfrFrom(gs[i := p.0], i + 1, SP.WithExpectation(rp, i, p.2), p.1, opt, gs0, inf0)
  }

  /** The gadget loop unfolds by one pass, which keeps the loop ready. */
  lemma {:induction false} CfrStep<S, A, T>(gs: seq<Gadget<S, A, T>>, i: nat, rp: SP.PolicyState<nat>, inf: Infosets<A, T>, opt: Player,
                                           gs0: seq<Gadget<S, A, T>>, inf0: Infosets<A, T>)
    requires i < |gs| && CfrReady(gs, rp, inf, gs0, inf0)
    ensures GadgetReady(gs[i]) && AllFit(gs[i].children, inf) && i in rp.actions
    ensures var p := GadgetPass(gs[i], inf, opt);
      var rp' := SP.WithExpectation(rp, i, p.2);
      CfrReady(gs[i := p.0], rp', p.1, gs0, inf0) && rp'.expectations == rp.expectations[i := p.2] &&
      CfrFrom(gs, i, rp, inf, opt, gs0, inf0) == CfrFrom(gs[i := p.0], i + 1, rp', p.1, opt, gs0, inf0)
  {
    CfrReadyFits(gs, rp, inf, gs0, inf0, i);
    var p := GadgetPass(gs[i], inf, opt);
    KeepsTrans(inf0, inf, p.1);
    PositionOfIndex(|gs|, i);
  }

  /**
   * The gadget loop keeps the number of gadgets and their histories,
   * every infoset's actions, and the root's regrets and actions.
   */
  lemma {:induction false} CfrFromKeeps<S, A, T>(gs: seq<Gadget<S, A, T>>, i: nat, rp: SP.PolicyState<nat>, inf: Infosets<A, T>, opt: Player,
                                                gs0: seq<Gadget<S, A, T>>, inf0: Infosets<A, T>)
    requires i <= |gs| && CfrReady(gs, rp, inf, gs0, inf0)
    ensures var r := CfrFrom(gs, i, rp, inf, opt, gs0, inf0);
      CfrReady(r.0, r.1, r.2, gs0, inf0) && Keeps(inf, r.2) && r.1 == rp.(expectations := r.1.expectations)
    decreases |gs| - i
  {
    if i < |gs| {
      CfrStep(gs, i, rp, inf, opt, gs0, inf0);
      var p := GadgetPass(gs[i], inf, opt);
      var gs', rp' := gs[i := p.0], SP.WithExpectation(rp, i, p.2);
      var r := CfrFrom(gs', i + 1, rp', p.1, opt, gs0, inf0);
      assert CfrFrom(gs, i, rp, inf, opt, gs0, inf0) == r;
      CfrFromKeeps(gs', i + 1, rp', p.1, opt, gs0, inf0);
      KeepsTrans(inf, p.1, r.2);
      assert rp' == rp.(expectations := rp'.expectations);
    }
  }

  /**
   * The loop over one gadget's histories: each traversal by
   * `make_utilities_hist`, the chance expectation set to hp, hp times the
   * value summed into the enter value.
   */
  method EnterHistories<S, A(==), T(==)>(hs: seq<History<S, A, T>>, hp: real, ip0: SP.PolicyState<nat>, inf0: Infosets<A, T>, opt: Player)
    returns (enter: real, ip: SP.PolicyState<nat>, inf: Infosets<A, T>)
    requires ip0.Valid() && ip0.actions == Indices(|hs|) && AllFit(hs, inf0)
    ensures (enter, ip, inf) == EnterFrom(hs, 0, hp, 0.0, ip0, inf0, opt)
  {
    enter, ip, inf := 0.0, ip0, inf0;
    var j := 0;
    while j < |hs|
      invariant j <= |hs| && ip.Valid() && ip.actions == Indices(|hs|) && AllFit(hs, inf)
      invariant EnterFrom(hs, j, hp, enter, ip, inf, opt) == EnterFrom(hs, 0, hp, 0.0, ip0, inf0, opt)
      decreases |hs| - j
    {
      var n := EnterStep(hs, j, hp, enter, ip, inf, opt);
      enter, ip, inf := n.0, n.1, n.2;
      j := j + 1;
    }
  }

  /**
   * `cfr_iterations(opt)`: for each gadget in order, p_enter is read from
   * its resolver, its histories are traversed, ENTER is set to the enter
   * value and SKIP to the alternative, and the blend of the two is
   * written at the gadget's root index. Every gadget is passed (see
   * Passed), every root entry becomes its gadget's resolver value, and
   * nothing else of the root changes.
   */
  method CfrIterations<S, A(==), T(==)>(root: Root<S, A, T>, inf0: Infosets<A, T>, opt: Player) returns (root': Root<S, A, T>, inf: Infosets<A, T>)
    requires RootReady(root) && GadgetsFit(root.children, inf0)
    ensures (root'.children, root'.policy, inf) == CfrFrom(root.children, 0, root.policy, inf0, opt, root.children, inf0)
    ensures CfrReady(root'.children, root'.policy, inf, root.children, inf0)
    ensures root'.policy == root.policy.(expectations := root'.policy.expectations)
    ensures forall k :: 0 <= k < |root.children| ==>
      Passed(root.children[k], root'.children[k]) && root'.policy.expectations[k] == ResolverValue(root'.children[k])
  {
    var gs := root.children;
    var rp := root.policy;
    inf := inf0;
    var i := 0;
    while i < |gs|
      invariant CfrLoop(root, inf0, opt, gs, rp, inf, i)
      decreases |gs| - i
    {
      gs, rp, inf := CfrGadget(root, inf0, opt, gs, rp, inf, i);
      i := i + 1;
    }
    CfrFromKeeps(gs, i, rp, inf, opt, root.children, inf0);
    root' := Root(rp, gs);
  }

  /** The loop invariant of `cfr_iterations`: gadgets before i are passed and their values written, the rest untouched. */
  ghost predicate CfrLoop<S, A, T>(root: Root<S, A, T>, inf0: Infosets<A, T>, opt: Player,
                                   gs: seq<Gadget<S, A, T>>, rp: SP.PolicyState<nat>, inf: Infosets<A, T>, i: nat)
  {
    CfrLoopState(root, inf0, opt, gs, rp, inf, i) && CfrLoopDone(root, gs, rp, i)
  }

  /** The part of the invariant about what remains to run. */
  ghost predicate CfrLoopState<S, A, T>(root: Root<S, A, T>, inf0: Infosets<A, T>, opt: Player,
                                        gs: seq<Gadget<S, A, T>>, rp: SP.PolicyState<nat>, inf: Infosets<A, T>, i: nat)
  {
    CfrReady(root.children, root.policy, inf0, root.children, inf0) &&
    i <= |gs| && CfrReady(gs, rp, inf, root.children, inf0) &&
    CfrFrom(gs, i, rp, inf, opt, root.children, inf0) == CfrFrom(root.children, 0, root.policy, inf0, opt, root.children, inf0) &&
    rp == root.policy.(expectations := rp.expectations)
  }

  /** The part of the invariant about the gadgets already passed. */
  ghost predicate CfrLoopDone<S, A, T>(root: Root<S, A, T>, gs: seq<Gadget<S, A, T>>, rp: SP.PolicyState<nat>, i: nat)
  {
    i <= |gs| == |root.children| && rp.Valid() && rp.actions == Indices(|gs|) &&
    (forall k :: i <= k < |gs| ==> gs[k] == root.children[k]) &&
    (forall k :: 0 <= k < i ==> Passed(root.children[k], gs[k]) && rp.expectations[k] == ResolverValue(gs[k]))
  }

  /** One gadget of the loop of `cfr_iterations`: pass gadget i and write its value at root index i. */
  method CfrGadget<S, A(==), T(==)>(root: Root<S, A, T>, inf0: Infosets<A, T>, opt: Player,
                                    gs: seq<Gadget<S, A, T>>, rp: SP.PolicyState<nat>, inf: Infosets<A, T>, i: nat)
    returns (gs': seq<Gadget<S, A, T>>, rp': SP.PolicyState<nat>, inf': Infosets<A, T>)
    requires CfrLoop(root, inf0, opt, gs, rp, inf, i) && i < |gs|
    ensures CfrLoop(root, inf0, opt, gs', rp', inf', i + 1)
  {
    CfrStateStep(root, inf0, opt, gs, rp, inf, i);
    var gd, value;
    gd, inf', value := PassGadget(gs[i], inf, opt);
    CfrDoneStep(root, gs, rp, i, gd, value);
    gs', rp' := gs[i := gd], SP.WithExpectation(rp, i, value);
  }

  lemma {:induction false} CfrStateStep<S, A, T>(root: Root<S, A, T>, inf0: Infosets<A, T>, opt: Player,
                                                gs: seq<Gadget<S, A, T>>, rp: SP.PolicyState<nat>, inf: Infosets<A, T>, i: nat)
    requires CfrLoopState(root, inf0, opt, gs, rp, inf, i) && i < |gs|
    ensures GadgetReady(gs[i]) && AllFit(gs[i].children, inf)
    ensures var p := GadgetPass(gs[i], inf, opt);
      CfrLoopState(root, inf0, opt, gs[i := p.0], SP.WithExpectation(rp, i, p.2), p.1, i + 1)
  {
    CfrStep(gs, i, rp, inf, opt, root.children, inf0);
    var p := GadgetPass(gs[i], inf, opt);
    var rp' := SP.WithExpectation(rp, i, p.2);
    assert rp' == root.policy.(expectations := rp'.expectations);
  }

  lemma {:induction false} CfrDoneStep<S, A, T>(root: Root<S, A, T>, gs: seq<Gadget<S, A, T>>, rp: SP.PolicyState<nat>, i: nat,
                                               gd: Gadget<S, A, T>, value: real)
    requires CfrLoopDone(root, gs, rp, i) && i < |gs|
    requires Passed(gs[i], gd) && value == ResolverValue(gd)
    ensures i in rp.actions && CfrLoopDone(root, gs[i := gd], SP.WithExpectation(rp, i, value), i + 1)
  {
    PassedPrefix(root.children, gs, rp, i, gd, value);
    var gs' := gs[i := gd];
    assert forall k :: i + 1 <= k < |gs'| ==> gs'[k] == gs[k];
  }

  /** Passing gadget i and writing its value extends the passed prefix by one. */
  lemma {:induction false} PassedPrefix<S, A, T>(gs0: seq<Gadget<S, A, T>>, gs: seq<Gadget<S, A, T>>, rp: SP.PolicyState<nat>, i: nat,
                                                gd: Gadget<S, A, T>, value: real)
    requires i < |gs| == |gs0| && rp.Valid() && rp.actions == Indices(|gs|)
    requires forall k :: 0 <= k < i ==> Passed(gs0[k], gs[k]) && rp.expectations[k] == ResolverValue(gs[k])
    requires Passed(gs0[i], gd) && value == ResolverValue(gd)
    ensures i in rp.actions
    ensures forall k :: 0 <= k <= i ==>
      Passed(gs0[k], gs[i := gd][k]) && SP.WithExpectation(rp, i, value).expectations[k] == ResolverValue(gs[i := gd][k])
  {
    PositionOfIndex(|gs|, i);
    var gs', rp' := gs[i := gd], SP.WithExpectation(rp, i, value);
    forall k | 0 <= k <= i
      ensures Passed(gs0[k], gs'[k]) && rp'.expectations[k] == ResolverValue(gs'[k])
    {
      if k < i {
        assert gs'[k] == gs[k] && rp'.expectations[k] == rp.expectations[k];
      }
    }
  }

  /** One gadget of `cfr_iterations`, as GadgetPass specifies it: the gadget is passed and the value is its resolver value. */
  method PassGadget<S, A(==), T(==)>(gd: Gadget<S, A, T>, inf0: Infosets<A, T>, opt: Player) returns (gd': Gadget<S, A, T>, inf: Infosets<A, T>, value: real)
    requires GadgetReady(gd) && AllFit(gd.children, inf0)
    ensures (gd', inf, value) == GadgetPass(gd, inf0, opt)
    ensures Passed(gd, gd') && value == ResolverValue(gd')
  {
    var pe := EnterProb(gd);
    var hp := HistoryProb(gd.prior, pe);
    var enter, ip;
    enter, ip, inf := EnterHistories(gd.children, hp, gd.info.policy, inf0, opt);
    ResolverWrites(gd.resolver, enter, gd.alt);
    var resolver := SP.WithExpectation(gd.resolver, SG.Enter, enter);
    resolver := SP.WithExpectation(resolver, SG.Skip, gd.alt);
    value := Blend(pe, gd.alt, enter);
    gd' := gd.(info := gd.info.(policy := ip), resolver := resolver);
    GadgetPassProperties(gd, inf0, opt);
  }

  /** Gadget i of the loop is past CFR and ready, with histories that fit the infosets. */
  lemma {:induction false} CfrReadyRoot<S, A, T>(gs: seq<Gadget<S, A, T>>, rp: SP.PolicyState<nat>, inf: Infosets<A, T>,
                                                gs0: seq<Gadget<S, A, T>>, inf0: Infosets<A, T>)
    requires CfrReady(gs, rp, inf, gs0, inf0)
    ensures RootReady(Root(rp, gs)) && GadgetsFit(gs, inf)
  {
    forall k | 0 <= k < |gs|
      ensures AllFit(gs[k].children, inf)
    {
      CfrReadyFits(gs, rp, inf, gs0, inf0, k);
    }
  }

  // ---------------------------------------------------------------------
  // solve_step

  /**
   * What `solve_step` does to a gadget: after the two CFR passes only the
   * expectations of the chance policy and of the resolver have changed;
   * every history's chance expectation is prior · p_enter, SKIP's
   * expectation is the alternative value and ENTER's is the mean of the
   * chance expectations (`info.policy.expectation()`).
   */
  ghost predicate Solved<S, A, T>(gd: Gadget<S, A, T>, gd': Gadget<S, A, T>)
  {
    GadgetReady(gd) && GadgetReady(gd') &&
    gd' == gd.(info := gd'.info, resolver := gd'.resolver) &&
    gd'.info == gd.info.(policy := gd'.info.policy) &&
    gd'.info.policy == gd.info.policy.(expectations := gd'.info.policy.expectations) &&
    gd'.resolver == gd.resolver.(expectations := [gd.alt, SP.Expectation(gd'.info.policy)]) &&
    forall j :: 0 <= j < |gd.children| ==> gd'.info.policy.expectations[j] == gd.prior * EnterProb(gd)
  }

  /** Two passes compose: the regrets stay, so both passes use the same p_enter. */
  lemma {:induction false} PassedTwice<S, A, T>(gd: Gadget<S, A, T>, gd1: Gadget<S, A, T>, gd2: Gadget<S, A, T>)
    requires Passed(gd, gd1) && Passed(gd1, gd2)
    ensures Passed(gd, gd2)
  {
    PassedKeepsEnterProb(gd, gd1);
  }

  /** The ENTER write of `solve_step`: ENTER becomes the mean of the chance expectations. */
  function SetEnter<S, A, T>(gd: Gadget<S, A, T>): (gd': Gadget<S, A, T>)
    requires GadgetReady(gd)
    ensures GadgetReady(gd') && gd'.resolver == gd.resolver.(expectations := [gd.resolver.expectations[0], SP.Expectation(gd.info.policy)])
  {
    ResolverWrites(gd.resolver, SP.Expectation(gd.info.policy), gd.resolver.expectations[0]);
    assert gd.resolver.expectations == [gd.resolver.expectations[0], gd.resolver.expectations[1]];
    gd.(resolver := SP.WithExpectation(gd.resolver, SG.Enter, SP.Expectation(gd.info.policy)))
  }

  /** A passed gadget with ENTER written is solved. */
  lemma {:induction false} PassedThenSolved<S, A, T>(gd: Gadget<S, A, T>, gd1: Gadget<S, A, T>)
    requires Passed(gd, gd1)
    ensures Solved(gd, SetEnter(gd1))
  {
  }

  /**
   * A solved gadget's ENTER value is prior · p_enter when it holds
   * histories, and 0 when it holds none; p_enter is still the one the
   * gadget had.
   */
  lemma {:induction false} SolvedEnter<S, A, T>(gd: Gadget<S, A, T>, gd': Gadget<S, A, T>)
    requires Solved(gd, gd')
    ensures EnterProb(gd') == EnterProb(gd)
    ensures gd'.resolver.expectations[1] == if |gd.children| == 0 then 0.0 else gd.prior * EnterProb(gd)
  {
    assert gd'.resolver.accRegrets == gd.resolver.accRegrets;
    var es := gd'.info.policy.expectations;
    var n := |gd.children|;
    if n > 0 {
      SumConstant(n, gd.prior * EnterProb(gd), es);
    }
  }

  /** The ENTER probabilities of the gadgets, in order. */
  function EnterProbs<S, A, T>(gs: seq<Gadget<S, A, T>>): (ps: seq<real>)
    requires forall j :: 0 <= j < |gs| ==> GadgetReady(gs[j])
    ensures |ps| == |gs| && forall j :: 0 <= j < |gs| ==> ps[j] == EnterProb(gs[j])
  {
    seq(|gs|, j requires 0 <= j < |gs| => EnterProb(gs[j]))
  }

  /**
   * `get_pmax`: the ENTER probabilities folded with max from 0, so the
   * largest of them, or 0 without gadgets; a probability.
   */
  function GetPMax<S, A, T>(gs: seq<Gadget<S, A, T>>): (p: real)
    requires forall j :: 0 <= j < |gs| ==> GadgetReady(gs[j])
  {
    MaxFrom(0.0, EnterProbs(gs))
  }

  /** p_max bounds every ENTER probability, is one of them (or 0 without gadgets), and is a probability. */
  lemma {:induction false} GetPMaxProperties<S, A, T>(gs: seq<Gadget<S, A, T>>)
    requires forall j :: 0 <= j < |gs| ==> GadgetReady(gs[j])
    ensures 0.0 <= GetPMax(gs) <= 1.0
    ensures forall j :: 0 <= j < |gs| ==> EnterProb(gs[j]) <= GetPMax(gs)
    ensures GetPMax(gs) == 0.0 || exists j :: 0 <= j < |gs| && GetPMax(gs) == EnterProb(gs[j])
  {
    var ps := EnterProbs(gs);
    var m := MaxFrom(0.0, ps);
    MaxFromBounds(0.0, ps);
    assert forall j :: 0 <= j < |gs| ==> EnterProb(gs[j]) <= m by {
      forall j | 0 <= j < |gs| ensures EnterProb(gs[j]) <= m {
        assert ps[j] == EnterProb(gs[j]);
      }
    }
    if m != 0.0 {
      var i :| 0 <= i < |ps| && m == ps[i];
      assert m == EnterProb(gs[i]);
    }
  }

  /**
   * The reach blend `solve_step` writes at a root index:
   * p_max · prior · p_resolve + (1 - p_max) · p_maxmargin, with p_resolve
   * the gadget's ENTER probability and p_maxmargin the root policy's
   * `p_exploit` of the index.
   */
  function ReachBlend(pmax: real, prior: real, resolve: real, margin: real): real
  {
    pmax * prior * resolve + (1.0 - pmax) * margin
  }

  /** A reach blend of four probabilities is a probability. */
  lemma {:induction false} ReachBlendInUnit(pmax: real, prior: real, resolve: real, margin: real)
    requires 0.0 <= pmax <= 1.0 && 0.0 <= prior <= 1.0 && 0.0 <= resolve <= 1.0 && 0.0 <= margin <= 1.0
    ensures 0.0 <= ReachBlend(pmax, prior, resolve, margin) <= 1.0
  {
    SS.BlendInUnit(pmax, prior, resolve, margin);
  }

  /** The reach blend at root index k: ReachBlend of p_max, gadget k's prior and ENTER probability, and the root's `p_exploit(k)`. */
  function ReachTarget<S, A, T>(gd: Gadget<S, A, T>, rp: SP.PolicyState<nat>, k: nat, pmax: real): real
    requires GadgetReady(gd) && rp.Valid() && k in rp.actions
  {
    ReachBlend(pmax, gd.prior, EnterProb(gd), SP.PExploitOf(rp, k))
  }

  /** With p_max and the prior a probability, the reach blend is one too. */
  lemma {:induction false} ReachTargetInUnit<S, A, T>(gd: Gadget<S, A, T>, rp: SP.PolicyState<nat>, k: nat, pmax: real)
    requires GadgetReady(gd) && rp.Valid() && k in rp.actions
    requires 0.0 <= pmax <= 1.0 && 0.0 <= gd.prior <= 1.0
    ensures 0.0 <= ReachTarget(gd, rp, k, pmax) <= 1.0
  {
    ReachBlendInUnit(pmax, gd.prior, EnterProb(gd), SP.PExploitOf(rp, k));
  }

  /** The root targets of `solve_step`, one reach blend per gadget. */
  function Targets<S, A, T>(root: Root<S, A, T>): (ts: seq<real>)
    requires RootReady(root)
    ensures |ts| == |root.children|
  {
    var pmax := GetPMax(root.children);
    seq(|root.children|, k requires 0 <= k < |root.children| =>
      (PositionOfIndex(|root.children|, k); ReachTarget(root.children[k], root.policy, k, pmax)))
  }

  /** Every root target is a probability when every prior is. */
  lemma {:induction false} TargetsInUnit<S, A, T>(root: Root<S, A, T>)
    requires RootReady(root) && forall k :: 0 <= k < |root.children| ==> 0.0 <= root.children[k].prior <= 1.0
    ensures forall k :: 0 <= k < |root.children| ==> 0.0 <= Targets(root)[k] <= 1.0
  {
    GetPMaxProperties(root.children);
    forall k | 0 <= k < |root.children|
      ensures 0.0 <= Targets(root)[k] <= 1.0
    {
      PositionOfIndex(|root.children|, k);
      ReachTargetInUnit(root.children[k], root.policy, k, GetPMax(root.children));
    }
  }

  /** The infosets after the two CFR passes of `solve_step`, for P1 and then for P2. */
  ghost function SolvedInfosets<S, A, T>(root: Root<S, A, T>, inf0: Infosets<A, T>): Infosets<A, T>
    requires RootReady(root) && GadgetsFit(root.children, inf0)
  {
    var a := CfrFrom(root.children, 0, root.policy, inf0, P1, root.children, inf0);
    CfrFromKeeps(root.children, 0, root.policy, inf0, P1, root.children, inf0);
    CfrReadyRoot(a.0, a.1, a.2, root.children, inf0);
    CfrFrom(a.0, 0, a.1, a.2, P2, a.0, a.2).2
  }

  /** The first loop of `solve_step`: every gadget's ENTER becomes its chance policy's expectation. */
  method SetEnters<S, A, T>(gs0: seq<Gadget<S, A, T>>) returns (gs: seq<Gadget<S, A, T>>)
    requires forall k :: 0 <= k < |gs0| ==> GadgetReady(gs0[k])
    ensures |gs| == |gs0| && forall k :: 0 <= k < |gs0| ==> gs[k] == SetEnter(gs0[k])
  {
    gs := gs0;
    for k := 0 to |gs0|
      invariant |gs| == |gs0|
      invariant forall j :: 0 <= j < k ==> gs[j] == SetEnter(gs0[j])
      invariant forall j :: k <= j < |gs0| ==> gs[j] == gs0[j]
    {
      gs := gs[k := SetEnter(gs[k])];
    }
  }

  /** Solving keeps every ENTER probability, and so p_max. */
  lemma {:induction false} SolvedPMax<S, A, T>(gs0: seq<Gadget<S, A, T>>, gs: seq<Gadget<S, A, T>>)
    requires |gs| == |gs0| && forall j :: 0 <= j < |gs| ==> Solved(gs0[j], gs[j])
    ensures forall j :: 0 <= j < |gs| ==> GadgetReady(gs0[j]) && GadgetReady(gs[j])
    ensures forall j :: 0 <= j < |gs| ==> EnterProb(gs[j]) == EnterProb(gs0[j])
    ensures GetPMax(gs) == GetPMax(gs0)
  {
    forall j | 0 <= j < |gs|
      ensures GadgetReady(gs0[j]) && GadgetReady(gs[j]) && EnterProb(gs[j]) == EnterProb(gs0[j])
    {
      assert Solved(gs0[j], gs[j]);
      SolvedEnter(gs0[j], gs[j]);
    }
    assert EnterProbs(gs) == EnterProbs(gs0);
  }

  /**
   * The reach blend the second loop writes at index k, read from the
   * solved gadgets and the root policy being written, is the target of
   * the original root: solving keeps every prior and every regret.
   */
  lemma {:induction false} TargetAt<S, A, T>(root: Root<S, A, T>, gs: seq<Gadget<S, A, T>>, rp: SP.PolicyState<nat>, k: nat, pmax: real)
    requires RootReady(root) && |gs| == |root.children| && k < |gs|
    requires GadgetReady(gs[k]) && gs[k].prior == root.children[k].prior && EnterProb(gs[k]) == EnterProb(root.children[k])
    requires pmax == GetPMax(root.children)
    requires rp == root.policy.(expectations := rp.expectations) && |rp.expectations| == |gs|
    ensures rp.Valid() && k in rp.actions
    ensures ReachTarget(gs[k], rp, k, pmax) == Targets(root)[k]
  {
    PositionOfIndex(|gs|, k);
    assert SP.PExploitOf(rp, k) == SP.PExploitOf(root.policy, k);
  }

  /** The two CFR passes of `solve_step`, for P1 and then for P2: every gadget is passed, and the root keeps all but its expectations. */
  method SolvePasses<S, A(==), T(==)>(root: Root<S, A, T>, inf0: Infosets<A, T>) returns (root': Root<S, A, T>, inf: Infosets<A, T>)
    requires RootReady(root) && GadgetsFit(root.children, inf0)
    ensures inf == SolvedInfosets(root, inf0) && Keeps(inf0, inf)
    ensures RootReady(root') && GadgetsFit(root'.children, inf) && |root'.children| == |root.children|
    ensures root'.policy == root.policy.(expectations := root'.policy.expectations)
    ensures forall k :: 0 <= k < |root.children| ==> Passed(root.children[k], root'.children[k])
  {
    var r1, inf1 := CfrIterations(root, inf0, P1);
    CfrReadyRoot(r1.children, r1.policy, inf1, root.children, inf0);
    root', inf := CfrIterations(r1, inf1, P2);
    CfrReadyRoot(root'.children, root'.policy, inf, r1.children, inf1);
    KeepsTrans(inf0, inf1, inf);
    forall k | 0 <= k < |root.children|
      ensures Passed(root.children[k], root'.children[k])
    {
      PassedTwice(root.children[k], r1.children[k], root'.children[k]);
    }
  }

  /** The second loop of `solve_step`: the reach blend under p_max at every root index. */
  method WriteTargets<S, A, T>(root: Root<S, A, T>, gs: seq<Gadget<S, A, T>>, rp0: SP.PolicyState<nat>) returns (rp: SP.PolicyState<nat>)
    requires RootReady(root) && |gs| == |root.children|
    requires forall j :: 0 <= j < |gs| ==> Solved(root.children[j], gs[j])
    requires rp0 == root.policy.(expectations := rp0.expectations) && |rp0.expectations| == |gs|
    ensures rp == root.policy.(expectations := Targets(root))
  {
    var n := |gs|;
    SolvedPMax(root.children, gs);
    var pmax := GetPMax(gs);
    rp := rp0;
    for idx := 0 to n
      invariant rp == root.policy.(expectations := rp.expectations) && |rp.expectations| == n
      invariant forall k :: 0 <= k < idx ==> rp.expectations[k] == Targets(root)[k]
    {
      assert Solved(root.children[idx], gs[idx]);
      TargetAt(root, gs, rp, idx, pmax);
      rp := SP.WithExpectation(rp, idx, ReachTarget(gs[idx], rp, idx, pmax));
    }
    assert rp.expectations == Targets(root);
  }

  /**
   * `solve_step`: CFR for P1 and then for P2, ENTER of every resolver set
   * to its chance policy's expectation, then for every gadget index the
   * reach blend under p_max written into the root policy, which is
   * updated last. Every gadget ends up solved (see Solved), the root's
   * new state is the update of its targets (Targets), and the infosets
   * are those of the two passes.
   */
  method SolveStep<S, A(==), T(==)>(root: Root<S, A, T>, inf0: Infosets<A, T>) returns (root': Root<S, A, T>, inf: Infosets<A, T>)
    requires RootReady(root) && GadgetsFit(root.children, inf0)
    ensures inf == SolvedInfosets(root, inf0) && Keeps(inf0, inf)
    ensures RootReady(root') && GadgetsFit(root'.children, inf) && |root'.children| == |root.children|
    ensures forall k :: 0 <= k < |root.children| ==> Solved(root.children[k], root'.children[k])
    ensures root'.policy == SP.Updated(root.policy.(expectations := Targets(root)))
  {
    var r2;
    r2, inf := SolvePasses(root, inf0);
    var gs := SetEnters(r2.children);
    forall k | 0 <= k < |root.children|
      ensures Solved(root.children[k], gs[k]) && AllFit(gs[k].children, inf)
    {
      PassedThenSolved(root.children[k], r2.children[k]);
    }
    var rp := WriteTargets(root, gs, r2.policy);
    root' := Root(SP.Updated(rp), gs);
  }

  // ---------------------------------------------------------------------
  // construct_subgame

  /** `drain_root` then `drain_resolver` on every gadget: all the root's histories, gadget by gadget. */
  function Drained<S, A, T>(gs: seq<Gadget<S, A, T>>): seq<History<S, A, T>>
  {
    if |gs| == 0 then [] else Drained(gs[..|gs| - 1]) + gs[|gs| - 1].children
  }

  /** The drained histories are exactly the gadgets' histories: every gadget's histories are there and each one comes from a gadget. */
  lemma {:induction false} DrainedMembers<S, A, T>(gs: seq<Gadget<S, A, T>>)
    ensures forall i, j :: 0 <= i < |gs| && 0 <= j < |gs[i].children| ==> gs[i].children[j] in Drained(gs)
    ensures forall h :: h in Drained(gs) ==> exists i :: 0 <= i < |gs| && h in gs[i].children
  {
    if |gs| > 0 {
      var n := |gs| - 1;
      DrainedMembers(gs[..n]);
      forall i, j | 0 <= i < |gs| && 0 <= j < |gs[i].children|
        ensures gs[i].children[j] in Drained(gs)
      {
        if i < n {
          assert gs[..n][i] == gs[i];
        }
      }
      forall h | h in Drained(gs)
        ensures exists i :: 0 <= i < |gs| && h in gs[i].children
      {
        if h in Drained(gs[..n]) {
          var i :| 0 <= i < n && h in gs[..n][i].children;
          assert gs[..n][i] == gs[i];
        }
      }
    }
  }

  /** The histories `k_cover(.., {hist}, 2)` keeps: as written, those whose trace is the observation. */
  function Covered<S, A, T(==)>(g: Game<S, A, T>, gs: seq<Gadget<S, A, T>>, hist: T): (covered: seq<History<S, A, T>>)
    requires NonTerminal(Drained(gs))
    ensures NonTerminal(covered)
  {
    KCoverIsOneCover(g, Drained(gs), {hist}, 2);
    KCover(g, Drained(gs), {hist}, 2)
  }

  /**
   * The groups of `construct_subgame`: the covered histories grouped by
   * trace with their reach probabilities `rp`, then padded with samples
   * under the opponent's trace of each sample.
   */
  function Grouped<S, A, T(==)>(g: Game<S, A, T>, gs: seq<Gadget<S, A, T>>, hist: T, player: Player,
                                rp: History<S, A, T> -> real, samples: seq<S>): Positions<S, A, T>
    requires NonTerminal(Drained(gs))
  {
    var pos0 := GroupBy(g, Covered(g, gs, hist), rp);
    Pad(g, pos0, samples, Other(player), |pos0|)
  }

  /**
   * `construct_subgame(hist, player)`: the previous root is drained, its
   * histories are covered and grouped, the groups are padded and the new
   * root replaces the old one; the rest of the solver is kept. The stream
   * of sampled positions is passed as a sequence. The root is built by
   * the corrected `SubgameRoot::new` and the padding runs under the
   * corrected guard (see NewRoot and Pad).
   */
  method ConstructSubgame<S, A, T(==)>(g: Game<S, A, T>, s: Solver<S, A, T>, hist: T, player: Player,
                                       rp: History<S, A, T> -> real, samples: seq<S>) returns (s': Solver<S, A, T>)
    requires NonTerminal(Drained(s.root.children))
    ensures s' == s.(root := NewRoot(Grouped(g, s.root.children, hist, player, rp, samples), player, rp))
  {
    var covered := Covered(g, s.root.children, hist);
    var pos := GroupBy(g, covered, rp);
    pos := PadPositions(g, pos, samples, Other(player));
    s' := s.(root := NewRoot(pos, player, rp));
  }

  /** As written, every covered history has the observation as its trace, so before padding there is at most one group, keyed by the observation. */
  lemma {:induction false} CoveredOneGroup<S, A, T>(g: Game<S, A, T>, gs: seq<Gadget<S, A, T>>, hist: T, rp: History<S, A, T> -> real)
    requires NonTerminal(Drained(gs))
    ensures var pos := GroupBy(g, Covered(g, gs, hist), rp);
      |pos| <= 1 && forall j :: 0 <= j < |pos| ==> pos[j].0 == hist
  {
    var covered := Covered(g, gs, hist);
    var pos := GroupBy(g, covered, rp);
    GroupByProperties(g, covered, rp);
    KCoverIsOneCover(g, Drained(gs), {hist}, 2);
    assert TracesOf(g, covered) <= {hist};
    forall j | 0 <= j < |pos|
      ensures pos[j].0 == hist
    {
      KeyIndexIn(pos, pos[j].0);
      GroupByKeys(g, covered, rp, pos[j].0);
    }
    FirstTwoKeysDiffer(pos);
  }

  lemma {:induction false} FirstTwoKeysDiffer<T, H>(pos: SG.Positions<T, H>)
    requires SG.DistinctKeys(pos)
    ensures |pos| > 1 ==> pos[0].0 != pos[1].0
  {
  }

  /**
   * The subgame `construct_subgame` builds: distinct keys; one ready
   * gadget per group, with prior 1 and the group's histories; a root
   * policy indexing every gadget; and as histories the covered ones and
   * the samples taken, min(samples, MIN_INFO_SIZE - groups).
   */
  lemma {:induction false} ConstructSubgameProperties<S, A, T>(g: Game<S, A, T>, gs: seq<Gadget<S, A, T>>, hist: T, player: Player,
                                                              rp: History<S, A, T> -> real, samples: seq<S>)
    requires NonTerminal(Drained(gs))
    ensures var pos := Grouped(g, gs, hist, player, rp, samples);
      var root := NewRoot(pos, player, rp);
      var covered := Covered(g, gs, hist);
      SG.DistinctKeys(pos) && RootReady(root) && |root.children| == |pos| &&
      (forall j :: 0 <= j < |pos| ==> root.children[j].prior == 1.0 && root.children[j].children == pos[j].1.histories) &&
      SG.TotalHistories(pos) == |covered| + SG.Taken(|samples|, |GroupBy(g, covered, rp)|)
  {
    var covered := Covered(g, gs, hist);
    var pos0 := GroupBy(g, covered, rp);
    GroupByProperties(g, covered, rp);
    PadProperties(g, pos0, samples, Other(player), |pos0|);
    PadTotal(g, pos0, samples, Other(player), |pos0|);
  }
}
