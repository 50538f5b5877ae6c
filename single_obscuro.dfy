/**
 * The single-file solver of src/obscuro/old/obscuro_single.rs (and its
 * near copy deprecated/chat.rs): information sets that remember their
 * successors, the history tree with its resolve gadgets, subgame
 * construction, the utility pass and the final choice of move, played on
 * the file's demo game, sequential rock-paper-scissors.
 *
 * The shared information sets (`Rc<RefCell<Info>>`) are entries of one
 * store keyed by trace: `expand` only ever points a node at the set stored
 * under the node's own trace, and a successor pointer at the set stored
 * under the successor's trace, so a key stands for the pointer.
 */
module SingleObscuro {
  import opened Reals
  import opened Wrappers
  import SP = SinglePolicy
  import opened Mixing

  const MIN_INFO_SIZE: nat := 64

  // ---------------------------------------------------------------------
  // The demo game

  datatype RpsAction = Rock | Paper | Scissors

  /** Both choices so far and the player to move. */
  datatype Rps = Rps(p1: Option<RpsAction>, p2: Option<RpsAction>, toMove: SP.Player)

  const NewRps: Rps := Rps(None, None, SP.P1)

  /** A state P2 faces once P1 has chosen `a`. */
  function AfterP1(a: RpsAction): Rps
  {
    Rps(Some(a), None, SP.P2)
  }

  predicate IsOver(g: Rps)
  {
    g.p1.Some? && g.p2.Some?
  }

  /** `trace`: the stage, the same for both players: 0 before P1 moves, 1 after, 2 once both have. */
  function RpsTrace(g: Rps): nat
  {
    if g.p1.None? then 0 else if g.p2.None? then 1 else 2
  }

  /** The actions at each stage: all three until the game is over. */
  function ActionsAt(t: nat): seq<RpsAction>
  {
    if t == 2 then [] else [Rock, Paper, Scissors]
  }

  function AvailableActions(g: Rps): seq<RpsAction>
  {
    if IsOver(g) then [] else [Rock, Paper, Scissors]
  }

  function Play(g: Rps, a: RpsAction): Rps
  {
    match g.toMove
    case P1 => g.(p1 := Some(a), toMove := SP.P2)
    case P2 => g.(p2 := Some(a), toMove := SP.P1)
  }

  /** The states a game reaches from `NewRps`: P1 moves first, then P2. */
  predicate Reachable(g: Rps)
  {
    (g.p1.None? ==> g.p2.None? && g.toMove == SP.P1) &&
    (g.p1.Some? && g.p2.None? ==> g.toMove == SP.P2)
  }

  /**
   * The available actions depend only on the trace, and every move of a
   * game in progress advances the trace by exactly one; so traces grow
   * strictly along every path of the tree.
   */
  lemma {:induction false} PlayAdvancesTrace(g: Rps, a: RpsAction)
    requires Reachable(g)
    ensures AvailableActions(g) == ActionsAt(RpsTrace(g))
    ensures !IsOver(g) ==> Reachable(Play(g, a)) && RpsTrace(Play(g, a)) == RpsTrace(g) + 1
  {
  }

  predicate Beats(a: RpsAction, b: RpsAction)
  {
    (a == Rock && b == Scissors) || (a == Scissors && b == Paper) || (a == Paper && b == Rock)
  }

  /** `evaluate`: P1's payoff once both have moved (5 for a win with rock, else 1), and 0 before. */
  function Evaluate(g: Rps): real
  {
    if IsOver(g) then
      var a := g.p1.value;
      var b := g.p2.value;
      if a == b then 0.0
      else
        var p1Wins := Beats(a, b);
        var winnerUsedRock := (p1Wins && a == Rock) || (!p1Wins && b == Rock);
        var mag := if winnerUsedRock then 5.0 else 1.0;
        if p1Wins then mag else -mag
    else 0.0
  }

  /**
   * The payoff is zero-sum in the players' choices, zero exactly on a draw,
   * positive exactly when P1's choice beats P2's, and of size 5 exactly
   * when the winner played rock.
   */
  lemma {:induction false} EvaluateRules(a: RpsAction, b: RpsAction, p: SP.Player, q: SP.Player)
    ensures Evaluate(Rps(Some(a), Some(b), p)) == -Evaluate(Rps(Some(b), Some(a), q))
    ensures Evaluate(Rps(Some(a), Some(b), p)) == 0.0 <==> a == b
    ensures Evaluate(Rps(Some(a), Some(b), p)) > 0.0 <==> Beats(a, b)
    ensures a != b ==> (Evaluate(Rps(Some(a), Some(b), p)) == 5.0 || Evaluate(Rps(Some(a), Some(b), p)) == -5.0
      <==> (if Beats(a, b) then a else b) == Rock)
    ensures Evaluate(Rps(Some(a), None, p)) == 0.0 && Evaluate(Rps(None, Some(b), p)) == 0.0
  {
  }

  /** The choices P1 may have pre-committed to, in the order `sample_positions` lists them. */
  const Choices: seq<RpsAction> := [Rock, Paper, Scissors]

  /** The position `sample_positions` lists at `i`: 64 fresh games, then 64 rounds of the three P1 choices. */
  function SampleAt(i: nat): Rps
  {
    if i < 64 then NewRps else AfterP1(Choices[(i - 64) % 3])
  }

  /** `sample_positions`: 256 states to pad a subgame with, whatever the observation. */
  method SamplePositions() returns (out: seq<Rps>)
    ensures |out| == 256
    ensures forall i :: 0 <= i < |out| ==> out[i] == SampleAt(i) && Reachable(out[i])
  {
    out := [];
    for k := 0 to 64
      invariant |out| == k && forall i :: 0 <= i < |out| ==> out[i] == SampleAt(i)
    {
      out := out + [NewRps];
    }
    for k := 0 to 64
      invariant |out| == 64 + 3 * k && forall i :: 0 <= i < |out| ==> out[i] == SampleAt(i)
    {
      assert (3 * k) % 3 == 0 && (3 * k + 1) % 3 == 1 && (3 * k + 2) % 3 == 2;
      out := out + [AfterP1(Rock), AfterP1(Paper), AfterP1(Scissors)];
    }
  }

  /** Every padding position past the first 64 is a stage-1 state with P2 to move and payoff 0. */
  lemma {:induction false} LateSamplesAfterP1(i: nat)
    requires 64 <= i < 256
    ensures RpsTrace(SampleAt(i)) == 1 && Evaluate(SampleAt(i)) == 0.0 && SampleAt(i).toMove == SP.P2
  {
  }

  // ---------------------------------------------------------------------
  // Information sets

  /**
   * An `Info`: its policy, trace, player, summed reach per player, whether a
   * history was added, the successor metadata `gift` reads (traces, keys of
   * the successor sets, static values), and the cached gift.
   */
  datatype Info<A> = Info(
    policy: SP.PolicyState<A>,
    trace: nat,
    player: SP.Player,
    reach: map<SP.Player, real>,
    visited: bool,
    succTraces: seq<Option<nat>>,
    succPtrs: seq<Option<nat>>,
    succAlt: seq<Option<real>>,
    giftCached: Option<real>)

  /** The information sets of the solver, by trace. */
  type Store = map<nat, Info<RpsAction>>

  function Nones<T>(n: nat): (r: seq<Option<T>>)
    ensures |r| == n && forall i :: 0 <= i < n ==> r[i].None?
  {
    seq(n, i => None)
  }

  /**
   * `Info::new`: a fresh policy over the actions with multiplier +1 for P1
   * and -1 for P2, no reach, not visited, no successors known, no gift cached.
   */
  function NewInfo<A>(actions: seq<A>, trace: nat, player: SP.Player): (i: Info<A>)
    ensures i.policy.Valid() && i.policy.actions == actions && i.policy.multiplier == (if player == SP.P1 then 1 else -1)
    ensures i.trace == trace && i.player == player && i.reach == map[] && !i.visited && i.giftCached.None?
    ensures |i.succTraces| == |actions| && |i.succPtrs| == |actions| && |i.succAlt| == |actions|
    ensures forall k :: 0 <= k < |actions| ==> i.succTraces[k].None? && i.succPtrs[k].None? && i.succAlt[k].None?
  {
    var n := |actions|;
    Info(SP.InitialPolicy(actions, SP.Multiplier(player)), trace, player, map[], false,
      Nones(n), Nones(n), Nones(n), None)
  }

  /** A player's entry of a reach map, 0 when absent (`or_insert(0.0)`). */
  function ReachOf(r: map<SP.Player, real>, p: SP.Player): real
  {
    if p in r then r[p] else 0.0
  }

  /** The players a history carries a reach for: those of Expanded and Visited nodes, none for the others. */
  function HistoryReach(h: History): map<SP.Player, real>
  {
    if h.Expanded? || h.Visited? then h.reach else map[]
  }

  /**
   * `add_history`: mark the set visited and add the history's reach, player
   * by player, into the set's own. Only `visited` and `reach` change.
   */
  method AddHistory<A>(info: Info<A>, h: History) returns (info': Info<A>)
    ensures info' == info.(visited := true, reach := info'.reach)
    ensures info'.reach.Keys == info.reach.Keys + HistoryReach(h).Keys
    ensures forall p :: ReachOf(info'.reach, p) == ReachOf(info.reach, p) + ReachOf(HistoryReach(h), p)
  {
    info' := info.(visited := true);
    var add := HistoryReach(h);
    var players := [SP.P1, SP.P2];
    for k := 0 to 2
      invariant info' == info.(visited := true, reach := info'.reach)
      invariant info'.reach.Keys == info.reach.Keys + (set j | 0 <= j < k && players[j] in add :: players[j])
      invariant forall j :: 0 <= j < 2 ==>
        ReachOf(info'.reach, players[j]) == ReachOf(info.reach, players[j]) + (if j < k then ReachOf(add, players[j]) else 0.0)
    {
      var p := players[k];
      if p in add {
        info' := info'.(reach := info'.reach[p := ReachOf(info'.reach, p) + add[p]]);
      }
    }
    forall p: SP.Player
      ensures ReachOf(info'.reach, p) == ReachOf(info.reach, p) + ReachOf(add, p)
      ensures p in add ==> p in (set j | 0 <= j < 2 && players[j] in add :: players[j])
    {
      var j := if p == SP.P1 then 0 else 1;
      assert players[j] == p;
    }
  }

  /** Adding histories one after the other sums their reach. */
  lemma {:induction false} ReachAccumulates(r: map<SP.Player, real>, a: map<SP.Player, real>, b: map<SP.Player, real>, s: map<SP.Player, real>, t: map<SP.Player, real>)
    requires forall p :: ReachOf(s, p) == ReachOf(r, p) + ReachOf(a, p)
    requires forall p :: ReachOf(t, p) == ReachOf(s, p) + ReachOf(b, p)
    ensures forall p :: ReachOf(t, p) == ReachOf(r, p) + ReachOf(a, p) + ReachOf(b, p)
    ensures (forall p :: ReachOf(a, p) >= 0.0 && ReachOf(b, p) >= 0.0) ==> forall p :: ReachOf(t, p) >= ReachOf(r, p)
  {
  }

  // ---------------------------------------------------------------------
  // The gift

  /** Every successor key of every set is a key of the store. */
  predicate Linked(store: Store)
  {
    forall k, i :: k in store && 0 <= i < |store[k].succPtrs| && store[k].succPtrs[i].Some? ==>
      store[k].succPtrs[i].value in store
  }

  /** `succ_ptrs.get(i)`, flattened: the successor's key, or None when absent or out of range. */
  function PtrAt<A>(info: Info<A>, i: nat): Option<nat>
  {
    if i < |info.succPtrs| then info.succPtrs[i] else None
  }

  /** `succ_alt.get(i)`, flattened, with `here` for a missing value. */
  function AltAt<A>(info: Info<A>, i: nat, here: real): real
  {
    if i < |info.succAlt| && info.succAlt[i].Some? then info.succAlt[i].value else here
  }

  /** The margin `gift_inner` adds for one successor: how far its value exceeds `here`, when it does. */
  function Accrue(total: real, v: real, here: real): (r: real)
    ensures r >= total
  {
    if v > here then total + (v - here) else total
  }

  lemma {:induction false} SubsetCard<T>(a: set<T>, b: set<T>)
    requires a <= b
    ensures |a| <= |b|
  {
    assert b == a + (b - a);
    assert a * (b - a) == {};
  }

  /** Marking more keys seen never enlarges the unseen part of the store, and marking an unseen key shrinks it. */
  lemma {:induction false} UnseenShrinks(keys: set<nat>, seen: set<nat>, more: set<nat>, t: nat)
    requires seen <= more
    ensures |keys - more| <= |keys - seen|
    ensures t in keys && t !in seen ==> |keys - (seen + {t})| < |keys - seen|
  {
    SubsetCard(keys - more, keys - seen);
    if t in keys && t !in seen {
      assert keys - seen == (keys - (seen + {t})) + {t};
    }
  }

  /**
   * `gift_inner` from the set at key `t` with the traces `seen` so far: 0 on
   * a trace seen before; otherwise the scan over its actions, with `t` now
   * seen. The second component is the seen set afterwards.
   */
  function GiftFrom(store: Store, t: nat, seen: set<nat>): (r: (real, set<nat>))
    requires Linked(store) && t in store
    ensures r.0 >= 0.0 && seen + {t} <= r.1
    decreases |store.Keys - seen|, 0
  {
    if t in seen then (0.0, seen)
    else
      UnseenShrinks(store.Keys, seen, seen, t);
      GiftScan(store, t, 0, SP.Expectation(store[t].policy), 0.0, seen + {t})
  }

  /**
   * The loop of `gift_inner` from action `i`: a successor with a known set
   * adds its own gift and is valued at its expectation, any other is valued
   * at its static value or at `here`; every value above `here` adds its margin.
   */
  function GiftScan(store: Store, t: nat, i: nat, here: real, total: real, seen: set<nat>): (r: (real, set<nat>))
    requires Linked(store) && t in store && i <= |store[t].policy.actions|
    ensures r.0 >= total && seen <= r.1
    decreases |store.Keys - seen|, 1, |store[t].policy.actions| - i
  {
    if i == |store[t].policy.actions| then (total, seen)
    else
      var ptr := PtrAt(store[t], i);
      if ptr.Some? then
        var v := SP.Expectation(store[ptr.value].policy);
        var sub := GiftFrom(store, ptr.value, seen);
        UnseenShrinks(store.Keys, seen, sub.1, t);
        GiftScan(store, t, i + 1, here, Accrue(total + sub.0, v, here), sub.1)
      else
        GiftScan(store, t, i + 1, here, Accrue(total, AltAt(store[t], i, here), here), seen)
  }

  /** `gift_inner`, the recursive walk with its loop, threading the seen set. */
  method GiftInner(store: Store, t: nat, seen: set<nat>) returns (total: real, seen': set<nat>)
    requires Linked(store) && t in store
    ensures (total, seen') == GiftFrom(store, t, seen)
    decreases |store.Keys - seen|
  {
    if t in seen {
      return 0.0, seen;
    }
    UnseenShrinks(store.Keys, seen, seen, t);
    seen' := seen + {t};
    var info := store[t];
    var here := SP.Expectation(info.policy);
    total := 0.0;
    var i := 0;
    while i < |info.policy.actions|
      invariant i <= |info.policy.actions| && seen + {t} <= seen'
      invariant |store.Keys - seen'| < |store.Keys - seen|
      invariant GiftScan(store, t, i, here, total, seen') == GiftFrom(store, t, seen)
      decreases |info.policy.actions| - i
    {
      var ptr := PtrAt(info, i);
      var v;
      if ptr.Some? {
        v := SP.Expectation(store[ptr.value].policy);
        var sub, s2 := GiftInner(store, ptr.value, seen');
        UnseenShrinks(store.Keys, seen', s2, t);
        total := total + sub;
        seen' := s2;
      } else {
        v := AltAt(info, i, here);
      }
      total := Accrue(total, v, here);
      i := i + 1;
    }
  }

  /** Every cached gift is non-negative (as every computed one is). */
  predicate CachesNonNegative(store: Store)
  {
    forall k :: k in store && store[k].giftCached.Some? ==> store[k].giftCached.value >= 0.0
  }

  /**
   * `gift`: the cached value when there is one; otherwise `gift_inner` from
   * an empty seen set, stored in the cache. Nothing but that cache changes.
   */
  function Gift(store: Store, t: nat): (r: (real, Store))
    requires Linked(store) && t in store
    ensures r.1 == store[t := store[t].(giftCached := Some(r.0))]
    ensures store[t].giftCached.Some? ==> r.0 == store[t].giftCached.value
    ensures store[t].giftCached.None? ==> r.0 == GiftFrom(store, t, {}).0
  {
    match store[t].giftCached
    case Some(v) => (v, store)
    case None =>
      var v := GiftFrom(store, t, {}).0;
      (v, store[t := store[t].(giftCached := Some(v))])
  }

  /**
   * The gift is cached after the first call: a second call returns the same
   * value and changes nothing; and with no negative cache entry, every gift
   * is non-negative and the caches stay non-negative.
   */
  lemma {:induction false} GiftCached(store: Store, t: nat)
    requires Linked(store) && t in store
    ensures Linked(Gift(store, t).1) && Gift(Gift(store, t).1, t) == Gift(store, t)
    ensures CachesNonNegative(store) ==> Gift(store, t).0 >= 0.0 && CachesNonNegative(Gift(store, t).1)
  {
    var r := Gift(store, t);
    assert r.1.Keys == store.Keys;
    forall k, i | k in r.1 && 0 <= i < |r.1[k].succPtrs| && r.1[k].succPtrs[i].Some?
      ensures r.1[k].succPtrs[i].value in r.1
    {
      assert r.1[k].succPtrs == store[k].succPtrs;
    }
  }
  // ---------------------------------------------------------------------
  // Histories

  /** The resolver's two actions: take the alternative value, or enter the subgame. */
  datatype ResolveAction = Skip | Enter

  /**
   * A `History`. An Expanded node holds the key of its information set
   * (`ptr`) and its children by action (`moves`); a gadget (Augmented) and
   * the subgame root own their information sets and index their children.
   */
  datatype History =
    | Terminal(payoff: real)
    | New(state: Rps)
    | Visited(state: Rps, reach: map<SP.Player, real>)
    | Expanded(ptr: nat, reach: map<SP.Player, real>, moves: seq<(RpsAction, History)>, player: SP.Player)
    | Augmented(info: Info<nat>, resolver: SP.PolicyState<ResolveAction>, alt: real, prior: real, children: seq<(nat, History)>)
    | SubgameRoot(info: Info<nat>, children: seq<(nat, History)>)

  /**
   * The shape the walks over the tree rely on: every Expanded node points
   * at a key of the store and its moves are actions of its stage; every
   * gadget and the root own a valid policy whose actions include their
   * children's indices; every resolver is a valid policy over SKIP, ENTER.
   */
  predicate Walkable(h: History, keys: set<nat>)
  {
    match h
    case Expanded(ptr, _, moves, _) =>
      ptr in keys && forall m :: m in moves ==> m.0 in ActionsAt(ptr) && Walkable(m.1, keys)
    case Augmented(info, resolver, _, _, children) =>
      info.policy.Valid() && resolver.Valid() && resolver.actions == [Skip, Enter] &&
      forall c :: c in children ==> c.0 in info.policy.actions && Walkable(c.1, keys)
    case SubgameRoot(info, children) =>
      info.policy.Valid() && forall c :: c in children ==> c.0 in info.policy.actions && Walkable(c.1, keys)
    case _ => true
  }

  /**
   * `payoff`: a terminal's payoff, a fresh or visited state's static value,
   * an expanded node's policy expectation, a gadget's alternative, and 0 at
   * the root.
   */
  function Payoff(h: History, store: Store): real
    requires h.Expanded? ==> h.ptr in store
  {
    match h
    case Terminal(p) => p
    case New(s) => Evaluate(s)
    case Visited(s, _) => Evaluate(s)
    case Expanded(ptr, _, _, _) => SP.Expectation(store[ptr].policy)
    case Augmented(_, _, alt, _, _) => alt
    case SubgameRoot(_, _) => 0.0
  }

  /** `player`: the player to move; a terminal has none (the source panics). */
  function PlayerOf(h: History, store: Store): Option<SP.Player>
    requires h.Expanded? ==> h.ptr in store
  {
    match h
    case Terminal(_) => None
    case New(s) => Some(s.toMove)
    case Visited(s, _) => Some(s.toMove)
    case Expanded(ptr, _, _, _) => Some(store[ptr].player)
    case Augmented(info, _, _, _, _) => Some(info.player)
    case SubgameRoot(info, _) => Some(info.player)
  }

  /** `trace`: the default 0 for a terminal, the state's stage, or the trace of the node's set. */
  function TraceOf(h: History, store: Store): nat
    requires h.Expanded? ==> h.ptr in store
  {
    match h
    case Terminal(_) => 0
    case New(s) => RpsTrace(s)
    case Visited(s, _) => RpsTrace(s)
    case Expanded(ptr, _, _, _) => store[ptr].trace
    case Augmented(info, _, _, _, _) => info.trace
    case SubgameRoot(info, _) => info.trace
  }
  // ---------------------------------------------------------------------
  // Expansion

  /** Each set is stored under its own trace, has a valid policy, and is over the actions of its stage. */
  predicate StoreOk(store: Store)
  {
    forall k :: k in store ==> store[k].trace == k && store[k].policy.Valid() && store[k].policy.actions == ActionsAt(k)
  }

  /** One fresh child per action. */
  function Kids(g: Rps, actions: seq<RpsAction>): (r: seq<(RpsAction, History)>)
    ensures |r| == |actions| && forall i :: 0 <= i < |actions| ==> r[i] == (actions[i], New(Play(g, actions[i])))
  {
    seq(|actions|, i requires 0 <= i < |actions| => (actions[i], New(Play(g, actions[i]))))
  }

  /** The successors' traces. */
  function SuccTraces(g: Rps, actions: seq<RpsAction>): (r: seq<Option<nat>>)
    ensures |r| == |actions| && forall i :: 0 <= i < |actions| ==> r[i] == Some(RpsTrace(Play(g, actions[i])))
  {
    seq(|actions|, i requires 0 <= i < |actions| => Some(RpsTrace(Play(g, actions[i]))))
  }

  /** The successors' sets, for the traces that have one already. */
  function SuccPtrs(g: Rps, actions: seq<RpsAction>, store: Store): (r: seq<Option<nat>>)
    ensures |r| == |actions|
    ensures forall i :: 0 <= i < |actions| ==>
      r[i] == (if RpsTrace(Play(g, actions[i])) in store then Some(RpsTrace(Play(g, actions[i]))) else None)
  {
    seq(|actions|, i requires 0 <= i < |actions| =>
      var c := RpsTrace(Play(g, actions[i]));
      if c in store then Some(c) else None)
  }

  /** The successors' static values. */
  function SuccAlts(g: Rps, actions: seq<RpsAction>): (r: seq<Option<real>>)
    ensures |r| == |actions| && forall i :: 0 <= i < |actions| ==> r[i] == Some(Evaluate(Play(g, actions[i])))
  {
    seq(|actions|, i requires 0 <= i < |actions| => Some(Evaluate(Play(g, actions[i]))))
  }

  /** What `expand` does to a node and the store. */
  function Expansion(h: History, store: Store): (r: (History, Store))
  {
    if !h.Visited? then (h, store)
    else
      var g := h.state;
      var actions := AvailableActions(g);
      var t := RpsTrace(g);
      var base := if t in store then store[t] else NewInfo(actions, t, g.toMove);
      var info := base.(succTraces := SuccTraces(g, actions), succPtrs := SuccPtrs(g, actions, store),
        succAlt := SuccAlts(g, actions));
      (Expanded(t, map[], Kids(g, actions), g.toMove), store[t := info])
  }

  /**
   * `expand`: a Visited node gets one fresh child per available action and
   * becomes Expanded at the set of its trace, which is created when absent;
   * that set's successor data is overwritten. Any other node is left alone.
   */
  method Expand(h: History, store: Store) returns (h': History, store': Store)
    ensures (h', store') == Expansion(h, store)
  {
    if !h.Visited? {
      return h, store;
    }
    var g := h.state;
    var player := g.toMove;
    var actions := AvailableActions(g);
    var kids: seq<(RpsAction, History)> := [];
    var traces: seq<Option<nat>> := [];
    var ptrs: seq<Option<nat>> := [];
    var alts: seq<Option<real>> := [];
    for i := 0 to |actions|
      invariant kids == Kids(g, actions)[..i] && traces == SuccTraces(g, actions)[..i]
      invariant ptrs == SuccPtrs(g, actions, store)[..i] && alts == SuccAlts(g, actions)[..i]
    {
      var next := Play(g, actions[i]);
      var childTrace := RpsTrace(next);
      traces := traces + [Some(childTrace)];
      ptrs := ptrs + [if childTrace in store then Some(childTrace) else None];
      alts := alts + [Some(Evaluate(next))];
      kids := kids + [(actions[i], New(next))];
    }
    assert kids == Kids(g, actions) && traces == SuccTraces(g, actions);
    assert ptrs == SuccPtrs(g, actions, store) && alts == SuccAlts(g, actions);
    var t := RpsTrace(g);
    var info := if t in store then store[t] else NewInfo(actions, t, player);
    store' := store[t := info.(succTraces := traces, succPtrs := ptrs, succAlt := alts)];
    h' := Expanded(t, map[], kids, player);
  }

  /**
   * `expand` changes only Visited nodes. One becomes Expanded at the set of
   * its trace with one fresh child per available action; the set is reused
   * with its policy when present, and otherwise exactly one set with a fresh
   * policy is inserted; no other set changes; a successor pointer is set
   * exactly when the successor's trace already had a set. The store and the
   * node keep the shape the later walks rely on.
   */
  lemma {:induction false} ExpandProperties(h: History, store: Store)
    requires StoreOk(store) && Linked(store) && (h.Visited? ==> Reachable(h.state))
    ensures StoreOk(Expansion(h, store).1) && Linked(Expansion(h, store).1)
    ensures !h.Visited? ==> Expansion(h, store) == (h, store)
    ensures h.Visited? ==>
      var g := h.state;
      var t := RpsTrace(g);
      var (h', s') := Expansion(h, store);
      h'.Expanded? && h'.ptr == t && h'.reach == map[] && h'.player == g.toMove &&
      |h'.moves| == |AvailableActions(g)| &&
      (forall i :: 0 <= i < |h'.moves| ==> h'.moves[i] == (AvailableActions(g)[i], New(Play(g, AvailableActions(g)[i])))) &&
      Walkable(h', s'.Keys) &&
      s'.Keys == store.Keys + {t} &&
      (forall k :: k in store && k != t ==> s'[k] == store[k]) &&
      (t in store ==> s'[t].policy == store[t].policy) &&
      (t !in store ==> s'[t].policy == SP.InitialPolicy(AvailableActions(g), SP.Multiplier(g.toMove))) &&
      forall i :: 0 <= i < |h'.moves| ==>
        (s'[t].succPtrs[i].Some? <==> RpsTrace(Play(g, AvailableActions(g)[i])) in store)
  {
    if h.Visited? {
      ExpandedNode(h, store);
      ExpandedStore(h, store);
    }
    ExpansionLinked(h, store);
  }

  /** The node an expansion makes: Expanded at its trace, one fresh child per available action, walkable. */
  lemma {:induction false} ExpandedNode(h: History, store: Store)
    requires h.Visited? && Reachable(h.state)
    ensures var g := h.state;
      var h' := Expansion(h, store).0;
      h'.Expanded? && h'.ptr == RpsTrace(g) && h'.reach == map[] && h'.player == g.toMove &&
      |h'.moves| == |AvailableActions(g)| &&
      (forall i :: 0 <= i < |h'.moves| ==> h'.moves[i] == (AvailableActions(g)[i], New(Play(g, AvailableActions(g)[i])))) &&
      Walkable(h', Expansion(h, store).1.Keys)
  {
    var g := h.state;
    var t := RpsTrace(g);
    var (h', s') := Expansion(h, store);
    PlayAdvancesTrace(g, Rock);
    forall m | m in h'.moves
      ensures m.0 in ActionsAt(t) && Walkable(m.1, s'.Keys)
    {
    }
  }

  /** The store an expansion leaves: the set of the trace added or kept with its policy, all else unchanged. */
  lemma {:induction false} ExpandedStore(h: History, store: Store)
    requires h.Visited?
    ensures var g := h.state;
      var t := RpsTrace(g);
      var s' := Expansion(h, store).1;
      s'.Keys == store.Keys + {t} &&
      (forall k :: k in store && k != t ==> s'[k] == store[k]) &&
      (t in store ==> s'[t].policy == store[t].policy) &&
      (t !in store ==> s'[t].policy == SP.InitialPolicy(AvailableActions(g), SP.Multiplier(g.toMove))) &&
      forall i :: 0 <= i < |AvailableActions(g)| ==>
        (s'[t].succPtrs[i].Some? <==> RpsTrace(Play(g, AvailableActions(g)[i])) in store)
  {
  }

  /** Expansion keeps every set well formed and every successor pointer inside the store. */
  lemma {:induction false} ExpansionLinked(h: History, store: Store)
    requires StoreOk(store) && Linked(store) && (h.Visited? ==> Reachable(h.state))
    ensures StoreOk(Expansion(h, store).1) && Linked(Expansion(h, store).1)
  {
    if h.Visited? {
      var t := RpsTrace(h.state);
      var s' := Expansion(h, store).1;
      forall k, i | k in s' && 0 <= i < |s'[k].succPtrs| && s'[k].succPtrs[i].Some?
        ensures s'[k].succPtrs[i].value in s'
      {
        if k != t {
          assert s'[k] == store[k];
        }
      }
    }
  }

  // ---------------------------------------------------------------------
  // Gadgets and the subgame root

  /** `0..n` as a list. */
  function Range(n: nat): (r: seq<nat>)
    ensures |r| == n && forall i :: 0 <= i < n ==> r[i] == i
  {
    seq(n, i => i)
  }

  /** The histories, indexed from 0. */
  function Enumerate(hs: seq<History>): (r: seq<(nat, History)>)
    ensures |r| == |hs| && forall i :: 0 <= i < |hs| ==> r[i] == (i, hs[i])
  {
    seq(|hs|, i requires 0 <= i < |hs| => (i, hs[i]))
  }

  /** One entry of J0: an opponent trace, its prior, its alternative value and its histories. */
  datatype J0Entry = J0Entry(trace: nat, prior: real, alt: real, entries: seq<History>)

  /**
   * The gadget `subgame_root` builds for a J0 entry: an information set over
   * `0..max(n, 1)` for the solving player, a resolver for the other player
   * seeded with SKIP = alt and ENTER = 0, prior 1, and the entry's
   * histories as indexed children.
   */
  function Gadget(e: J0Entry, player: SP.Player): History
  {
    var m := if |e.entries| > 1 then |e.entries| else 1;
    Augmented(NewInfo(Range(m), 0, player), SP.RewardPolicy([(Skip, e.alt), (Enter, 0.0)], SP.Other(player)),
      e.alt, 1.0, Enumerate(e.entries))
  }

  /** The root `subgame_root` builds: one indexed gadget per J0 entry, under a set over `0..|J0|`. */
  function RootOf(j0: seq<J0Entry>, player: SP.Player): History
  {
    SubgameRoot(NewInfo(Range(|j0|), 0, player), seq(|j0|, k requires 0 <= k < |j0| => (k, Gadget(j0[k], player))))
  }

  /** `subgame_root`, the loop that numbers the gadgets as it pushes them. */
  method SubgameRootFrom(j0: seq<J0Entry>, player: SP.Player) returns (root: History)
    ensures root == RootOf(j0, player)
  {
    var items: seq<(nat, History)> := [];
    for k := 0 to |j0|
      invariant items == seq(k, i requires 0 <= i < k => (i, Gadget(j0[i], player)))
    {
      items := items + [(|items|, Gadget(j0[k], player))];
    }
    root := SubgameRoot(NewInfo(Range(|items|), 0, player), items);
  }

  /** With every regret at its initial EPS, each action is exploited with probability 1/n. */
  lemma {:induction false} FreshPExploit<A>(p: SP.PolicyState<A>, a: A)
    requires p.Valid() && a in p.actions && forall i :: 0 <= i < |p.accRegrets| ==> p.accRegrets[i] == SP.EPS
    ensures SP.PExploitOf(p, a) == 1.0 / (|p.actions| as real)
  {
    var n := |p.actions| as real;
    SumConstant(|p.actions|, SP.EPS, p.accRegrets);
    assert SP.EPS / (n * SP.EPS) == 1.0 / n;
  }

  /**
   * A fresh gadget is walkable when its histories are; its resolver plays
   * for the other player over SKIP (valued alt) and ENTER (valued 0), each
   * with probability 1/2; its set plays every index with probability 1/m.
   */
  lemma {:induction false} GadgetProperties(e: J0Entry, player: SP.Player, keys: set<nat>)
    requires forall h :: h in e.entries ==> Walkable(h, keys)
    ensures var g := Gadget(e, player);
      Walkable(g, keys) && g.alt == e.alt && g.prior == 1.0 &&
      g.resolver.expectations == [e.alt, 0.0] && g.resolver.multiplier == SP.Multiplier(SP.Other(player)) &&
      SP.PExploitOf(g.resolver, Skip) == 0.5 && SP.PExploitOf(g.resolver, Enter) == 0.5 &&
      |g.info.policy.actions| == (if |e.entries| > 1 then |e.entries| else 1) &&
      |g.children| == |e.entries| &&
      forall i :: 0 <= i < |g.children| ==>
        g.children[i] == (i, e.entries[i]) && i in g.info.policy.actions &&
        SP.PExploitOf(g.info.policy, i) == 1.0 / (|g.info.policy.actions| as real)
  {
    var g := Gadget(e, player);
    assert g.resolver.actions == [Skip, Enter];
    FreshPExploit(g.resolver, Skip);
    FreshPExploit(g.resolver, Enter);
    forall c | c in g.children
      ensures c.0 in g.info.policy.actions && Walkable(c.1, keys)
    {
      var i :| 0 <= i < |g.children| && g.children[i] == c;
      assert g.info.policy.actions[i] == i;
    }
    forall i | 0 <= i < |g.children|
      ensures i in g.info.policy.actions && SP.PExploitOf(g.info.policy, i) == 1.0 / (|g.info.policy.actions| as real)
    {
      assert g.info.policy.actions[i] == i;
      FreshPExploit(g.info.policy, i);
    }
  }

  /** A fresh root is walkable when its entries' histories are, and plays every gadget with probability 1/|J0|. */
  lemma {:induction false} RootProperties(j0: seq<J0Entry>, player: SP.Player, keys: set<nat>)
    requires forall e, h :: e in j0 && h in e.entries ==> Walkable(h, keys)
    ensures var r := RootOf(j0, player);
      Walkable(r, keys) && |r.children| == |j0| &&
      forall k :: 0 <= k < |j0| ==>
        r.children[k] == (k, Gadget(j0[k], player)) && k in r.info.policy.actions &&
        SP.PExploitOf(r.info.policy, k) == 1.0 / (|j0| as real)
  {
    var r := RootOf(j0, player);
    forall c | c in r.children
      ensures c.0 in r.info.policy.actions && Walkable(c.1, keys)
    {
      var k :| 0 <= k < |r.children| && r.children[k] == c;
      assert r.info.policy.actions[k] == k;
      GadgetProperties(j0[k], player, keys);
    }
    forall k | 0 <= k < |j0|
      ensures k in r.info.policy.actions && SP.PExploitOf(r.info.policy, k) == 1.0 / (|j0| as real)
    {
      assert r.info.policy.actions[k] == k;
      FreshPExploit(r.info.policy, k);
    }
  }

  // ---------------------------------------------------------------------
  // The largest ENTER probability

  /** A child's ENTER probability: its resolver's, for a gadget, and 0 otherwise. */
  function EnterProb(h: History, keys: set<nat>): (p: real)
    requires Walkable(h, keys)
    ensures 0.0 <= p <= 1.0
  {
    if h.Augmented? then
      assert h.resolver.actions[1] == Enter;
      SP.PExploitOf(h.resolver, Enter)
    else 0.0
  }

  /** The children's ENTER probabilities, in order. */
  function EnterProbs(cs: seq<(nat, History)>, keys: set<nat>): (r: seq<real>)
    requires forall i :: 0 <= i < |cs| ==> Walkable(cs[i].1, keys)
    ensures |r| == |cs| && forall i :: 0 <= i < |cs| ==> 0.0 <= r[i] <= 1.0
  {
    seq(|cs|, i requires 0 <= i < |cs| => EnterProb(cs[i].1, keys))
  }

  /** `get_pmax`: the fold with `max` from 0 of the root's children's ENTER probabilities; 0 without a root. */
  function GetPmax(root: Option<History>, keys: set<nat>): real
    requires root.Some? ==> Walkable(root.value, keys)
  {
    if root.Some? && root.value.SubgameRoot? then
      var cs := root.value.children;
      assert forall i :: 0 <= i < |cs| ==> cs[i] in cs;
      MaxFrom(0.0, EnterProbs(cs, keys))
    else 0.0
  }

  /**
   * `get_pmax` is a probability: at least every child's ENTER probability
   * and equal to one of them, or 0; it is 0 without a subgame root, and 1/2
   * on a freshly built root with at least one gadget.
   */
  lemma {:induction false} GetPmaxBounds(root: Option<History>, keys: set<nat>)
    requires root.Some? ==> Walkable(root.value, keys)
    ensures 0.0 <= GetPmax(root, keys) <= 1.0
    ensures !(root.Some? && root.value.SubgameRoot?) ==> GetPmax(root, keys) == 0.0
    ensures root.Some? && root.value.SubgameRoot? ==>
      var cs := root.value.children;
      (forall i :: 0 <= i < |cs| ==> cs[i] in cs && EnterProbs(cs, keys)[i] <= GetPmax(root, keys)) &&
      (GetPmax(root, keys) == 0.0 || exists i :: 0 <= i < |cs| && GetPmax(root, keys) == EnterProbs(cs, keys)[i])
  {
    if root.Some? && root.value.SubgameRoot? {
      var cs := root.value.children;
      assert forall i :: 0 <= i < |cs| ==> cs[i] in cs;
      var s := EnterProbs(cs, keys);
      MaxFromBounds(0.0, s);
      if exists i :: 0 <= i < |s| && MaxFrom(0.0, s) == s[i] {
        var i :| 0 <= i < |s| && MaxFrom(0.0, s) == s[i];
        assert s[i] <= 1.0;
      }
    }
  }

  /** On a freshly built root with at least one gadget, every ENTER probability and so `get_pmax` is 1/2. */
  lemma {:induction false} FreshPmax(j0: seq<J0Entry>, player: SP.Player, keys: set<nat>)
    requires |j0| > 0 && forall e, h :: e in j0 && h in e.entries ==> Walkable(h, keys)
    ensures Walkable(RootOf(j0, player), keys) && GetPmax(Some(RootOf(j0, player)), keys) == 0.5
  {
    var r := RootOf(j0, player);
    RootProperties(j0, player, keys);
    assert forall i :: 0 <= i < |r.children| ==> r.children[i] in r.children;
    var s := EnterProbs(r.children, keys);
    forall k | 0 <= k < |j0|
      ensures s[k] == 0.5
    {
      GadgetProperties(j0[k], player, keys);
    }
    GetPmaxBounds(Some(r), keys);
    assert s[0] == 0.5;
  }
  // ---------------------------------------------------------------------
  // Collecting the histories of a trace

  /** The copy `collect_matching` keeps of a node that matches on its own, if it does. */
  function OwnMatch(h: History, want: nat, store: Store): seq<History>
    requires Walkable(h, store.Keys)
  {
    match h
    case New(s) => if RpsTrace(s) == want then [Visited(s, map[])] else []
    case Visited(s, _) => if RpsTrace(s) == want then [Visited(s, map[])] else []
    case Expanded(ptr, _, _, _) => if store[ptr].trace == want then [h] else []
    case _ => []
  }

  /**
   * What `collect_matching` appends, in its order: a Visited copy (with no
   * reach) of each New or Visited node of trace `want`, each Expanded node
   * whose set has trace `want` followed by its subtrees' matches, and the
   * gadgets' and root's subtrees' matches; nothing for a terminal.
   */
  function Matching(h: History, want: nat, store: Store): seq<History>
    requires Walkable(h, store.Keys)
    decreases h, 1
  {
    if h.Expanded? then OwnMatch(h, want, store) + MatchingMoves(h, want, store, 0)
    else if h.Augmented? || h.SubgameRoot? then MatchingChildren(h, want, store, 0)
    else OwnMatch(h, want, store)
  }

  function MatchingMoves(h: History, want: nat, store: Store, k: nat): seq<History>
    requires h.Expanded? && Walkable(h, store.Keys) && k <= |h.moves|
    decreases h, 0, |h.moves| - k
  {
    if k == |h.moves| then []
    else
      assert h.moves[k] in h.moves;
      Matching(h.moves[k].1, want, store) + MatchingMoves(h, want, store, k + 1)
  }

  function MatchingChildren(h: History, want: nat, store: Store, k: nat): seq<History>
    requires (h.Augmented? || h.SubgameRoot?) && Walkable(h, store.Keys) && k <= |h.children|
    decreases h, 0, |h.children| - k
  {
    if k == |h.children| then []
    else
      assert h.children[k] in h.children;
      Matching(h.children[k].1, want, store) + MatchingChildren(h, want, store, k + 1)
  }

  /** `collect_matching`: the recursive walk that appends the matches of `h` to `out`. */
  method CollectMatching(h: History, want: nat, store: Store, out: seq<History>) returns (out': seq<History>)
    requires Walkable(h, store.Keys)
    ensures out' == out + Matching(h, want, store)
    decreases h, 1
  {
    if h.Expanded? {
      out' := out + OwnMatch(h, want, store);
      out' := CollectMoves(h, want, store, out');
      AppendStep(out, OwnMatch(h, want, store), MatchingMoves(h, want, store, 0));
    } else if h.Augmented? || h.SubgameRoot? {
      out' := CollectChildren(h, want, store, out);
    } else {
      out' := out + OwnMatch(h, want, store);
    }
  }

  /** The loop of `collect_matching` over an Expanded node's children. */
  method CollectMoves(h: History, want: nat, store: Store, out: seq<History>) returns (out': seq<History>)
    requires h.Expanded? && Walkable(h, store.Keys)
    ensures out' == out + MatchingMoves(h, want, store, 0)
    decreases h, 0
  {
    out' := out;
    for k := 0 to |h.moves|
      invariant out' + MatchingMoves(h, want, store, k) == out + MatchingMoves(h, want, store, 0)
    {
      assert h.moves[k] in h.moves;
      var before := out';
      out' := CollectMatching(h.moves[k].1, want, store, out');
      AppendStep(before, Matching(h.moves[k].1, want, store), MatchingMoves(h, want, store, k + 1));
    }
  }

  /** The loop of `collect_matching` over a gadget's or the root's children. */
  method CollectChildren(h: History, want: nat, store: Store, out: seq<History>) returns (out': seq<History>)
    requires (h.Augmented? || h.SubgameRoot?) && Walkable(h, store.Keys)
    ensures out' == out + MatchingChildren(h, want, store, 0)
    decreases h, 0
  {
    out' := out;
    for k := 0 to |h.children|
      invariant out' + MatchingChildren(h, want, store, k) == out + MatchingChildren(h, want, store, 0)
    {
      assert h.children[k] in h.children;
      var before := out';
      out' := CollectMatching(h.children[k].1, want, store, out');
      AppendStep(before, Matching(h.children[k].1, want, store), MatchingChildren(h, want, store, k + 1));
    }
  }

  lemma {:induction false} AppendStep(a: seq<History>, b: seq<History>, c: seq<History>)
    ensures a + (b + c) == (a + b) + c
  {
  }

  /** `n` occurs in the tree `h` (possibly as `h` itself). */
  predicate Occurs(n: History, h: History)
  {
    n == h ||
    (h.Expanded? && exists m :: m in h.moves && Occurs(n, m.1)) ||
    ((h.Augmented? || h.SubgameRoot?) && exists c :: c in h.children && Occurs(n, c.1))
  }

  /** The node a match stands for matches: a Visited copy with no reach, or an Expanded node of the wanted trace. */
  predicate MatchesTrace(x: History, want: nat, store: Store)
  {
    (x.Visited? && x.reach == map[] && RpsTrace(x.state) == want) ||
    (x.Expanded? && x.ptr in store && store[x.ptr].trace == want)
  }

  /**
   * Everything `collect_matching` returns matches the trace and is walkable;
   * an Expanded result occurs in the tree, and a Visited one copies the state
   * of a New or Visited node of the tree.
   */
  lemma {:induction false} MatchingSound(h: History, want: nat, store: Store, x: History)
    requires Walkable(h, store.Keys) && x in Matching(h, want, store)
    ensures MatchesTrace(x, want, store) && Walkable(x, store.Keys)
    ensures x.Expanded? ==> Occurs(x, h)
    ensures x.Visited? ==> Occurs(New(x.state), h) || exists r :: Occurs(Visited(x.state, r), h)
    decreases h, 1
  {
    if x in OwnMatch(h, want, store) {
      if h.Visited? {
        assert Occurs(Visited(x.state, h.reach), h);
      }
    } else if h.Expanded? {
      var k := MatchingMovesSound(h, want, store, 0, x);
      assert h.moves[k] in h.moves;
    } else {
      var k := MatchingChildrenSound(h, want, store, 0, x);
      assert h.children[k] in h.children;
    }
  }

  lemma {:induction false} MatchingMovesSound(h: History, want: nat, store: Store, k: nat, x: History) returns (j: nat)
    requires h.Expanded? && Walkable(h, store.Keys) && k <= |h.moves| && x in MatchingMoves(h, want, store, k)
    ensures k <= j < |h.moves| && h.moves[j] in h.moves && x in Matching(h.moves[j].1, want, store)
    ensures MatchesTrace(x, want, store) && Walkable(x, store.Keys)
    ensures x.Expanded? ==> Occurs(x, h)
    ensures x.Visited? ==> Occurs(New(x.state), h) || exists r :: Occurs(Visited(x.state, r), h)
    decreases h, 0, |h.moves| - k
  {
    assert h.moves[k] in h.moves;
    if x in Matching(h.moves[k].1, want, store) {
      j := k;
    } else {
      j := MatchingMovesSound(h, want, store, k + 1, x);
    }
    var c := h.moves[j].1;
    MatchingSound(c, want, store, x);
    if x.Visited? && !Occurs(New(x.state), c) {
      var r :| Occurs(Visited(x.state, r), c);
      assert Occurs(Visited(x.state, r), h);
    }
  }

  lemma {:induction false} MatchingChildrenSound(h: History, want: nat, store: Store, k: nat, x: History) returns (j: nat)
    requires (h.Augmented? || h.SubgameRoot?) && Walkable(h, store.Keys) && k <= |h.children|
    requires x in MatchingChildren(h, want, store, k)
    ensures k <= j < |h.children| && h.children[j] in h.children && x in Matching(h.children[j].1, want, store)
    ensures MatchesTrace(x, want, store) && Walkable(x, store.Keys)
    ensures x.Expanded? ==> Occurs(x, h)
    ensures x.Visited? ==> Occurs(New(x.state), h) || exists r :: Occurs(Visited(x.state, r), h)
    decreases h, 0, |h.children| - k
  {
    assert h.children[k] in h.children;
    if x in Matching(h.children[k].1, want, store) {
      j := k;
    } else {
      j := MatchingChildrenSound(h, want, store, k + 1, x);
    }
    var c := h.children[j].1;
    MatchingSound(c, want, store, x);
    if x.Visited? && !Occurs(New(x.state), c) {
      var r :| Occurs(Visited(x.state, r), c);
      assert Occurs(Visited(x.state, r), h);
    }
  }

  /**
   * And nothing is missed: every Expanded node of the tree whose set has the
   * wanted trace is returned, and so is a Visited copy of every New or
   * Visited node of that trace.
   */
  lemma {:induction false} MatchingComplete(h: History, want: nat, store: Store, n: History)
    requires Walkable(h, store.Keys) && Occurs(n, h)
    ensures n.Expanded? && n.ptr in store && store[n.ptr].trace == want ==> n in Matching(h, want, store)
    ensures (n.New? || n.Visited?) && RpsTrace(n.state) == want ==> Visited(n.state, map[]) in Matching(h, want, store)
    decreases h
  {
    if n != h {
      if h.Expanded? {
        var m :| m in h.moves && Occurs(n, m.1);
        var k :| 0 <= k < |h.moves| && h.moves[k] == m;
        MatchingComplete(m.1, want, store, n);
        MatchingMovesIncludes(h, want, store, 0, k);
      } else {
        var c :| c in h.children && Occurs(n, c.1);
        var k :| 0 <= k < |h.children| && h.children[k] == c;
        MatchingComplete(c.1, want, store, n);
        MatchingChildrenIncludes(h, want, store, 0, k);
      }
    }
  }

  lemma {:induction false} MatchingMovesIncludes(h: History, want: nat, store: Store, k: nat, j: nat)
    requires h.Expanded? && Walkable(h, store.Keys) && k <= j < |h.moves|
    ensures h.moves[j] in h.moves
    ensures forall x :: x in Matching(h.moves[j].1, want, store) ==> x in MatchingMoves(h, want, store, k)
    decreases j - k
  {
    assert h.moves[j] in h.moves;
    if k < j {
      MatchingMovesIncludes(h, want, store, k + 1, j);
    }
  }

  lemma {:induction false} MatchingChildrenIncludes(h: History, want: nat, store: Store, k: nat, j: nat)
    requires (h.Augmented? || h.SubgameRoot?) && Walkable(h, store.Keys) && k <= j < |h.children|
    ensures h.children[j] in h.children
    ensures forall x :: x in Matching(h.children[j].1, want, store) ==> x in MatchingChildren(h, want, store, k)
    decreases j - k
  {
    assert h.children[j] in h.children;
    if k < j {
      MatchingChildrenIncludes(h, want, store, k + 1, j);
    }
  }
  // ---------------------------------------------------------------------
  // Building the subgame

  /** The number of histories over all entries of J0. */
  function EntryCount(j0: seq<J0Entry>): nat
  {
    if |j0| == 0 then 0 else |j0[0].entries| + EntryCount(j0[1..])
  }

  /**
   * `j0.entry(t).and_modify(push h).or_insert((1.0, alt, vec![h]))`: the
   * history joins the entry of trace `t`, whose alternative stays the one it
   * was created with, or starts a new entry with prior 1 and value `alt`.
   * (The map's iteration order is not modelled: entries keep insertion order.)
   */
  function Upsert(j0: seq<J0Entry>, t: nat, alt: real, h: History): (r: seq<J0Entry>)
    ensures EntryCount(r) == EntryCount(j0) + 1
    ensures forall e, x :: e in r && x in e.entries ==> x == h || exists e0 :: e0 in j0 && x in e0.entries
    ensures j0 == [] ==> r == [J0Entry(t, 1.0, alt, [h])]
    ensures |j0| == 1 && j0[0].trace == t ==> r == [j0[0].(entries := j0[0].entries + [h])]
  {
    if |j0| == 0 then [J0Entry(t, 1.0, alt, [h])]
    else if j0[0].trace == t then
      assert j0 == [j0[0]] + j0[1..];
      [j0[0].(entries := j0[0].entries + [h])] + j0[1..]
    else
      var rest := Upsert(j0[1..], t, alt, h);
      assert ([j0[0]] + rest)[1..] == rest;
      forall e, x | e in [j0[0]] + rest && x in e.entries
        ensures x == h || exists e0 :: e0 in j0 && x in e0.entries
      {
        if e != j0[0] {
          assert e in rest;
        }
      }
      [j0[0]] + rest
  }

  /** How many of the histories `construct_subgame` files into J0: the New, Visited and Expanded ones. */
  function Kept(hs: seq<History>): nat
  {
    if |hs| == 0 then 0
    else (if hs[0].New? || hs[0].Visited? || hs[0].Expanded? then 1 else 0) + Kept(hs[1..])
  }

  lemma {:induction false} KeptAppend(hs: seq<History>, h: History)
    ensures Kept(hs + [h]) == Kept(hs) + (if h.New? || h.Visited? || h.Expanded? then 1 else 0)
  {
    if |hs| > 0 {
      assert (hs + [h])[1..] == hs[1..] + [h];
      KeptAppend(hs[1..], h);
    }
  }

  /** Every set of `b` is the set of `a` with at most its cached gift changed. */
  predicate OnlyCaches(a: Store, b: Store)
  {
    a.Keys == b.Keys && forall k :: k in a ==> b[k] == a[k].(giftCached := b[k].giftCached)
  }

  /**
   * The first loop of `construct_subgame`: each New, Visited or Expanded
   * history joins the entry of its opponent trace (the stage, in this game),
   * valued, when that trace has a set, at the set's expectation minus its
   * gift, and otherwise at the history's payoff; other histories are skipped.
   * Computing gifts fills their caches and changes nothing else.
   */
  method SeedJ0(histories: seq<History>, store: Store) returns (j0: seq<J0Entry>, store': Store)
    requires StoreOk(store) && Linked(store) && forall h :: h in histories ==> Walkable(h, store.Keys)
    ensures StoreOk(store') && Linked(store') && OnlyCaches(store, store')
    ensures EntryCount(j0) == Kept(histories)
    ensures forall e, x :: e in j0 && x in e.entries ==> x in histories
    ensures histories == [] ==> j0 == []
  {
    j0 := [];
    store' := store;
    for i := 0 to |histories|
      invariant StoreOk(store') && Linked(store') && OnlyCaches(store, store')
      invariant EntryCount(j0) == Kept(histories[..i])
      invariant forall e, x :: e in j0 && x in e.entries ==> x in histories
      invariant i == 0 ==> j0 == []
    {
      var h := histories[i];
      assert histories[..i + 1] == histories[..i] + [h];
      KeptAppend(histories[..i], h);
      assert h in histories;
      var oppTrace: nat;
      if h.New? || h.Visited? {
        oppTrace := RpsTrace(h.state);
      } else if h.Expanded? {
        oppTrace := store'[h.ptr].trace;
      } else {
        continue;
      }
      var alt: real;
      if oppTrace in store' {
        var g := Gift(store', oppTrace);
        GiftKeepsStore(store, store', oppTrace);
        alt := SP.Expectation(store'[oppTrace].policy) - g.0;
        store' := g.1;
      } else {
        alt := Payoff(h, store');
      }
      j0 := Upsert(j0, oppTrace, alt, h);
    }
    assert histories[..|histories|] == histories;
  }

  /** Computing a gift keeps the store's shape, and changes only caches. */
  lemma {:induction false} GiftKeepsStore(store0: Store, store: Store, t: nat)
    requires StoreOk(store) && Linked(store) && t in store && OnlyCaches(store0, store)
    ensures StoreOk(Gift(store, t).1) && Linked(Gift(store, t).1) && OnlyCaches(store0, Gift(store, t).1)
  {
    GiftCached(store, t);
  }

  /** The histories under the gadgets of a root. */
  function GadgetEntries(cs: seq<(nat, History)>): nat
  {
    if |cs| == 0 then 0
    else (if cs[0].1.Augmented? then |cs[0].1.children| else 0) + GadgetEntries(cs[1..])
  }

  /** The root built from J0 holds as many histories under its gadgets as J0 does. */
  lemma {:induction false} GadgetEntriesOf(j0: seq<J0Entry>, cs: seq<(nat, History)>, player: SP.Player)
    requires |cs| == |j0| && forall k :: 0 <= k < |j0| ==> cs[k].1 == Gadget(j0[k], player)
    ensures GadgetEntries(cs) == EntryCount(j0)
  {
    if |j0| > 0 {
      GadgetEntriesOf(j0[1..], cs[1..], player);
    }
  }

  /**
   * The padding loop of `construct_subgame`: pop sampled positions from the
   * end and file each as a New history under its opponent trace until the
   * seed holds `MIN_INFO_SIZE` histories or the positions run out (with 256
   * positions they never do).
   */
  method Pad(j0: seq<J0Entry>, histories: seq<History>, positions: seq<Rps>) returns (j0': seq<J0Entry>)
    requires |positions| == 256 && forall i :: 0 <= i < |positions| ==> positions[i] == SampleAt(i)
    requires EntryCount(j0) == |histories|
    requires forall e, x :: e in j0 && x in e.entries ==> x in histories
    requires |histories| == 0 ==> j0 == []
    ensures EntryCount(j0') == (if |histories| < MIN_INFO_SIZE then MIN_INFO_SIZE else |histories|)
    ensures forall e, x :: e in j0' && x in e.entries ==> x in histories || x.New?
    ensures |histories| == 0 ==>
      |j0'| == 1 && j0'[0].trace == 1 && j0'[0].alt == 0.0 && |j0'[0].entries| == MIN_INFO_SIZE &&
      forall k :: 0 <= k < MIN_INFO_SIZE ==> j0'[0].entries[k].New? && RpsTrace(j0'[0].entries[k].state) == 1
  {
    var positions := positions;
    j0' := j0;
    var d := |histories|;
    var dataCount := d;
    while dataCount < (if MIN_INFO_SIZE < |positions| then MIN_INFO_SIZE else |positions|)
      invariant d <= dataCount <= (if d < MIN_INFO_SIZE then MIN_INFO_SIZE else d)
      invariant |positions| + (dataCount - d) == 256
      invariant forall i :: 0 <= i < |positions| ==> positions[i] == SampleAt(i)
      invariant EntryCount(j0') == dataCount
      invariant forall e, x :: e in j0' && x in e.entries ==> x in histories || x.New?
      invariant d == 0 && dataCount == 0 ==> j0' == []
      invariant d == 0 && dataCount > 0 ==>
        |j0'| == 1 && j0'[0].trace == 1 && j0'[0].alt == 0.0 && |j0'[0].entries| == dataCount &&
        forall k :: 0 <= k < dataCount ==> j0'[0].entries[k].New? && RpsTrace(j0'[0].entries[k].state) == 1
      decreases |positions|
    {
      if |positions| > 0 {
        var g := positions[|positions| - 1];
        LateSamplesAfterP1(|positions| - 1);
        positions := positions[..|positions| - 1];
        var s := New(g);
        var oppTrace := RpsTrace(g);
        ghost var before := j0';
        j0' := Upsert(j0', oppTrace, Evaluate(g), s);
        forall e, x | e in j0' && x in e.entries
          ensures x in histories || x.New?
        {
          if x != s {
            var e0 :| e0 in before && x in e0.entries;
          }
        }
        dataCount := dataCount + 1;
      } else {
        break;
      }
    }
  }

  /**
   * `construct_subgame`: the histories of the observed trace in the previous
   * subgame seed J0, padded from the sampled positions, popped from the end,
   * until `MIN_INFO_SIZE` histories or the positions run out; the new root
   * has one gadget per entry. With 256 positions the padding never runs out:
   * the gadgets hold exactly max(found, 64) histories, and with nothing
   * found they are 64 fresh stage-1 states under one gadget valued 0.
   * Only gift caches of the store change.
   */
  method ConstructSubgame(root: Option<History>, store: Store, hist: nat, player: SP.Player)
    returns (root': Option<History>, store': Store)
    requires StoreOk(store) && Linked(store) && (root.Some? ==> Walkable(root.value, store.Keys))
    ensures StoreOk(store') && Linked(store') && OnlyCaches(store, store')
    ensures root'.Some? && root'.value.SubgameRoot? && Walkable(root'.value, store.Keys)
    ensures var d := if root.Some? then |Matching(root.value, hist, store)| else 0;
      GadgetEntries(root'.value.children) == (if d < MIN_INFO_SIZE then MIN_INFO_SIZE else d)
    ensures (root.None? || Matching(root.value, hist, store) == []) ==>
      |root'.value.children| == 1 && root'.value.children[0].1.Augmented? &&
      root'.value.children[0].1.alt == 0.0 && |root'.value.children[0].1.children| == MIN_INFO_SIZE &&
      forall k :: 0 <= k < MIN_INFO_SIZE ==>
        root'.value.children[0].1.children[k].1.New? && RpsTrace(root'.value.children[0].1.children[k].1.state) == 1
  {
    var positions := SamplePositions();
    var histories: seq<History> := [];
    if root.Some? {
      histories := CollectMatching(root.value, hist, store, []);
      forall x | x in histories
        ensures Walkable(x, store.Keys) && (x.Visited? || x.Expanded?)
      {
        MatchingSound(root.value, hist, store, x);
      }
      KeptAll(histories);
    }
    var dataCount := |histories|;
    var j0;
    j0, store' := SeedJ0(histories, store);
    j0 := Pad(j0, histories, positions);
    ghost var d := dataCount;
    var r := SubgameRootFrom(j0, player);
    forall e, x | e in j0 && x in e.entries
      ensures Walkable(x, store.Keys)
    {
    }
    RootProperties(j0, player, store.Keys);
    GadgetEntriesOf(j0, r.children, player);
    if d == 0 {
      GadgetProperties(j0[0], player, store.Keys);
    }
    root' := Some(r);
  }

  /** Every history `collect_matching` returns is one `construct_subgame` files. */
  lemma {:induction false} KeptAll(hs: seq<History>)
    requires forall x :: x in hs ==> x.Visited? || x.Expanded?
    ensures Kept(hs) == |hs|
  {
    if |hs| > 0 {
      assert forall x :: x in hs[1..] ==> x in hs;
      KeptAll(hs[1..]);
    }
  }
  // ---------------------------------------------------------------------
  // The utility pass

  /** Every set of `b` is that of `a` with only its policy changed, over the same actions. */
  predicate OnlyPolicies(a: Store, b: Store)
  {
    a.Keys == b.Keys &&
    forall k :: k in a ==> b[k] == a[k].(policy := b[k].policy) && b[k].policy.actions == a[k].policy.actions
  }

  /** `update` on a policy: still valid, over the same actions, with the same expectations. */
  function Refreshed<A>(p: SP.PolicyState<A>): (q: SP.PolicyState<A>)
    requires p.Valid()
    ensures q.Valid() && q.actions == p.actions && q.expectations == p.expectations
  {
    if |p.actions| > 0 then SP.UpdatedProperties(p); SP.Updated(p) else SP.Updated(p)
  }

  /** `add_counterfactuals(a, v)` on the set at `k`: only that action's expectation changes. */
  function Record(store: Store, k: nat, a: RpsAction, v: real): (s: Store)
    requires StoreOk(store) && k in store && a in store[k].policy.actions
    ensures StoreOk(s) && OnlyPolicies(store, s) && s.Keys == store.Keys
  {
    store[k := store[k].(policy := SP.WithExpectation(store[k].policy, a, v))]
  }

  /** `update` on the set at `k`. */
  function UpdateAt(store: Store, k: nat): (s: Store)
    requires StoreOk(store) && k in store
    ensures StoreOk(s) && OnlyPolicies(store, s)
  {
    store[k := store[k].(policy := Refreshed(store[k].policy))]
  }

  lemma {:induction false} OnlyPoliciesTransitive(a: Store, b: Store, c: Store)
    requires OnlyPolicies(a, b) && OnlyPolicies(b, c)
    ensures OnlyPolicies(a, c)
  {
  }

  /** Changing policies only keeps every successor pointer, so the store stays linked. */
  lemma {:induction false} OnlyPoliciesLinked(a: Store, b: Store)
    requires OnlyPolicies(a, b) && Linked(a)
    ensures Linked(b)
  {
    forall k, i | k in b && 0 <= i < |b[k].succPtrs| && b[k].succPtrs[i].Some?
      ensures b[k].succPtrs[i].value in b
    {
      assert b[k].succPtrs == a[k].succPtrs;
    }
  }

  /**
   * `out` is the labelled list `xs` from position `k` on with its nodes
   * replaced: same length, same labels in order, every label allowed and
   * every node walkable.
   */
  predicate Relabelled<L(==)>(out: seq<(L, History)>, xs: seq<(L, History)>, k: nat, labels: seq<L>, keys: set<nat>)
  {
    k <= |xs| && |out| == |xs| - k && (forall j :: 0 <= j < |out| ==> out[j].0 == xs[k + j].0) &&
    forall m :: m in out ==> m.0 in labels && Walkable(m.1, keys)
  }

  lemma {:induction false} ConsRelabelled<L>(xs: seq<(L, History)>, k: nat, x: (L, History), rest: seq<(L, History)>,
    labels: seq<L>, keys: set<nat>)
    requires k < |xs| && x.0 == xs[k].0 && x.0 in labels && Walkable(x.1, keys)
    requires Relabelled(rest, xs, k + 1, labels, keys)
    ensures Relabelled([x] + rest, xs, k, labels, keys)
  {
    LabelsKept(xs, k, x, rest);
    ConsWalkable(x, rest, labels, keys);
  }

  /** Putting a walkable node with an allowed label in front of a list of such nodes keeps them all so. */
  lemma {:induction false} ConsWalkable<L>(x: (L, History), rest: seq<(L, History)>, labels: seq<L>, keys: set<nat>)
    requires x.0 in labels && Walkable(x.1, keys)
    requires forall m :: m in rest ==> m.0 in labels && Walkable(m.1, keys)
    ensures forall m :: m in [x] + rest ==> m.0 in labels && Walkable(m.1, keys)
  {
  }

  /** Putting the labelled node for index `k` in front of a list labelled like the rest keeps the labels from `k` on. */
  lemma {:induction false} LabelsKept<L>(xs: seq<(L, History)>, k: nat, x: (L, History), rest: seq<(L, History)>)
    requires k < |xs| && x.0 == xs[k].0
    requires |rest| == |xs| - (k + 1) && forall j :: 0 <= j < |rest| ==> rest[j].0 == xs[k + 1 + j].0
    ensures |[x] + rest| == |xs| - k && forall j :: 0 <= j < |[x] + rest| ==> ([x] + rest)[j].0 == xs[k + j].0
  {
    forall j | 0 < j < |[x] + rest|
      ensures ([x] + rest)[j].0 == xs[k + j].0
    {
      assert ([x] + rest)[j] == rest[j - 1];
      assert k + 1 + (j - 1) == k + j;
    }
  }

  function Scaled(reach: real, p: real): real
  {
    reach * p
  }

  function AddWeighted(acc: real, p: real, v: real): real
  {
    acc + Weighted(p, v)
  }

  /**
   * The end of the gadget case of `make_utilities`: the resolver's ENTER
   * expectation becomes the value of entering and its SKIP expectation the
   * alternative, the resolver is updated, and the gadget is worth
   * (1 - p_enter)·alt + p_enter·enter_v, which lies between the two.
   */
  function Resolve(resolver: SP.PolicyState<ResolveAction>, alt: real, enterV: real): (r: (real, SP.PolicyState<ResolveAction>))
    requires resolver.Valid() && resolver.actions == [Skip, Enter]
    ensures r.1.Valid() && r.1.actions == [Skip, Enter] && r.1.expectations == [alt, enterV]
    ensures (alt <= r.0 <= enterV) || (enterV <= r.0 <= alt)
    ensures r.0 == (1.0 - SP.PExploitOf(r.1, Enter)) * alt + SP.PExploitOf(r.1, Enter) * enterV
  {
    var q := SP.WithExpectation(SP.WithExpectation(resolver, Enter, enterV), Skip, alt);
    var u := Refreshed(q);
    assert u.actions[1] == Enter;
    var pe := SP.PExploitOf(u, Enter);
    MixBetween(alt, enterV, pe);
    (Mixed(alt, enterV, pe), u)
  }

  /**
   * `make_utilities` on a node, for the optimising player and the reach
   * that led there: the node's value, the node afterwards and the store
   * afterwards. A terminal is worth its payoff; a New node is worth what
   * its Visited copy is, 0, and stays New (the copy is dropped); a Visited
   * node is worth 0; an Expanded node walks its moves and then updates its
   * set; a gadget walks its children, then resolves; the root walks its
   * children, recording each value as its child's expectation, then updates.
   * Only policies change in the store, over the same actions, and the node
   * keeps its kind, labels and every field but the policies.
   */
  function Utilities(h: History, opt: SP.Player, reach: real, store: Store): (r: (real, History, Store))
    requires StoreOk(store) && Walkable(h, store.Keys)
    ensures StoreOk(r.2) && OnlyPolicies(store, r.2) && Walkable(r.1, store.Keys)
    ensures h.Terminal? ==> r == (h.payoff, h, store)
    ensures h.New? || h.Visited? ==> r == (0.0, h, store)
    ensures h.Expanded? ==>
      r.1.Expanded? && r.1.ptr == h.ptr && r.1.reach == h.reach && r.1.player == h.player &&
      |r.1.moves| == |h.moves| && forall j :: 0 <= j < |h.moves| ==> r.1.moves[j].0 == h.moves[j].0
    ensures h.Augmented? ==>
      r.1.Augmented? && r.1.info == h.info && r.1.alt == h.alt && r.1.prior == h.prior &&
      r.1.resolver.expectations[0] == h.alt &&
      ((h.alt <= r.0 <= r.1.resolver.expectations[1]) || (r.1.resolver.expectations[1] <= r.0 <= h.alt)) &&
      |r.1.children| == |h.children| && forall j :: 0 <= j < |h.children| ==> r.1.children[j].0 == h.children[j].0
    ensures h.SubgameRoot? ==>
      r.1.SubgameRoot? && r.1.info.policy.actions == h.info.policy.actions &&
      |r.1.children| == |h.children| && forall j :: 0 <= j < |h.children| ==> r.1.children[j].0 == h.children[j].0
    decreases h, 2, 1
  {
    match h
    case Terminal(p) => (p, h, store)
    case New(_) => (0.0, h, store)
    case Visited(_, _) => (0.0, h, store)
    case Expanded(_, _, _, _) => ExpandedUtilities(h, opt, reach, store)
    case Augmented(_, _, _, _, _) => GadgetUtilities(h, opt, reach, store)
    case SubgameRoot(_, _) => RootUtilities(h, opt, reach, store)
  }

  /** The root case of `make_utilities`: walk the children, recording their values, then update the root's set. */
  function RootUtilities(h: History, opt: SP.Player, reach: real, store: Store): (r: (real, History, Store))
    requires h.SubgameRoot? && StoreOk(store) && Walkable(h, store.Keys)
    ensures StoreOk(r.2) && OnlyPolicies(store, r.2) && Walkable(r.1, store.Keys)
    ensures r.1.SubgameRoot? && r.1.info.policy.actions == h.info.policy.actions &&
      |r.1.children| == |h.children| && forall j :: 0 <= j < |h.children| ==> r.1.children[j].0 == h.children[j].0
    decreases h, 2, 0
  {
    var r := ChildrenFrom(h, opt, reach, 0, 0.0, h.info, store);
    (r.0, SubgameRoot(r.2.(policy := Refreshed(r.2.policy)), r.1), r.3)
  }

  /** The Expanded case of `make_utilities`: walk the moves, then update the set. */
  function ExpandedUtilities(h: History, opt: SP.Player, reach: real, store: Store): (r: (real, History, Store))
    requires h.Expanded? && StoreOk(store) && Walkable(h, store.Keys)
    ensures StoreOk(r.2) && OnlyPolicies(store, r.2) && Walkable(r.1, store.Keys)
    ensures r.1.Expanded? && r.1.ptr == h.ptr && r.1.reach == h.reach && r.1.player == h.player &&
      |r.1.moves| == |h.moves| && forall j :: 0 <= j < |h.moves| ==> r.1.moves[j].0 == h.moves[j].0
    decreases h, 2, 0
  {
    var r := MovesFrom(h, opt, reach, 0, 0.0, store, store.Keys);
    (r.0, Expanded(h.ptr, h.reach, r.1, h.player), UpdateAt(r.2, h.ptr))
  }

  /** The gadget case of `make_utilities`: walk the children, then resolve. */
  function GadgetUtilities(h: History, opt: SP.Player, reach: real, store: Store): (r: (real, History, Store))
    requires h.Augmented? && StoreOk(store) && Walkable(h, store.Keys)
    ensures StoreOk(r.2) && OnlyPolicies(store, r.2) && Walkable(r.1, store.Keys)
    ensures r.1.Augmented? && r.1.info == h.info && r.1.alt == h.alt && r.1.prior == h.prior &&
      r.1.resolver.expectations[0] == h.alt &&
      ((h.alt <= r.0 <= r.1.resolver.expectations[1]) || (r.1.resolver.expectations[1] <= r.0 <= h.alt)) &&
      |r.1.children| == |h.children| && forall j :: 0 <= j < |h.children| ==> r.1.children[j].0 == h.children[j].0
    decreases h, 2, 0
  {
    var r := ChildrenFrom(h, opt, reach, 0, 0.0, h.info, store);
    var res := Resolve(h.resolver, h.alt, r.0);
    (res.0, Augmented(h.info, res.1, h.alt, h.prior, r.1), r.3)
  }

  /**
   * The loop over an Expanded node's moves from `k`, with the value so far:
   * a move is followed when the node's player is the optimising one or the
   * move has positive exploit probability; its value is added, weighted by
   * that probability, and recorded as the move's expectation in the set.
   * `keys` names the store's keys, which no step changes.
   */
  function MovesFrom(h: History, opt: SP.Player, reach: real, k: nat, local: real, store: Store, keys: set<nat>)
    : (r: (real, seq<(RpsAction, History)>, Store))
    requires h.Expanded? && StoreOk(store) && store.Keys == keys && Walkable(h, keys) && k <= |h.moves|
    ensures StoreOk(r.2) && OnlyPolicies(store, r.2)
    ensures Relabelled(r.1, h.moves, k, ActionsAt(h.ptr), keys)
    decreases h, 1, |h.moves| - k, 2
  {
    if k == |h.moves| then (local, [], store)
    else
      MoveFacts(h, k, store);
      var a := h.moves[k].0;
      var child := h.moves[k].1;
      var p := SP.PExploitOf(store[h.ptr].policy, a);
      if h.player == opt || p > 0.0 then FollowMove(h, opt, reach, k, local, store, keys)
      else
        var rest := MovesFrom(h, opt, reach, k + 1, local, store, keys);
        ConsRelabelled(h.moves, k, (a, child), rest.1, ActionsAt(h.ptr), keys);
        (rest.0, [(a, child)] + rest.1, rest.2)
  }

  /** A followed move of `MovesFrom`: its weighted value added and recorded as the move's expectation. */
  function FollowMove(h: History, opt: SP.Player, reach: real, k: nat, local: real, store: Store, keys: set<nat>)
    : (r: (real, seq<(RpsAction, History)>, Store))
    requires h.Expanded? && StoreOk(store) && store.Keys == keys && Walkable(h, keys) && k < |h.moves|
    ensures StoreOk(r.2) && OnlyPolicies(store, r.2)
    ensures Relabelled(r.1, h.moves, k, ActionsAt(h.ptr), keys)
    decreases h, 1, |h.moves| - k, 1
  {
    MoveFacts(h, k, store);
    var p := SP.PExploitOf(store[h.ptr].policy, h.moves[k].0);
    var c := Utilities(h.moves[k].1, opt, Scaled(reach, p), store);
    AfterMove(h, opt, reach, k, AddWeighted(local, p, c.0), c.0, c.1, store, c.2, keys)
  }

  /** The rest of a followed move: record the child's value `v` in the set, then go on with the next move. */
  function AfterMove(h: History, opt: SP.Player, reach: real, k: nat, local: real, v: real, child: History,
    store: Store, s0: Store, keys: set<nat>): (r: (real, seq<(RpsAction, History)>, Store))
    requires h.Expanded? && store.Keys == keys && Walkable(h, keys) && k < |h.moves|
    requires StoreOk(s0) && OnlyPolicies(store, s0) && Walkable(child, keys)
    ensures StoreOk(r.2) && OnlyPolicies(store, r.2)
    ensures Relabelled(r.1, h.moves, k, ActionsAt(h.ptr), keys)
    decreases h, 1, |h.moves| - k, 0
  {
    assert s0.Keys == keys;
    MoveFacts(h, k, s0);
    var a := h.moves[k].0;
    var s := Record(s0, h.ptr, a, v);
    OnlyPoliciesTransitive(store, s0, s);
    var rest := MovesFrom(h, opt, reach, k + 1, local, s, keys);
    OnlyPoliciesTransitive(store, s, rest.2);
    ConsRelabelled(h.moves, k, (a, child), rest.1, ActionsAt(h.ptr), keys);
    (rest.0, [(a, child)] + rest.1, rest.2)
  }

  /** The k-th move of a walkable Expanded node has an action of its set and a walkable child. */
  lemma {:induction false} MoveFacts(h: History, k: nat, store: Store)
    requires h.Expanded? && StoreOk(store) && Walkable(h, store.Keys) && k < |h.moves|
    ensures h.ptr in store && store[h.ptr].policy.Valid() && h.moves[k].0 in store[h.ptr].policy.actions
    ensures h.moves[k].0 in ActionsAt(h.ptr) && Walkable(h.moves[k].1, store.Keys)
  {
    assert h.moves[k] in h.moves;
  }

  /** The root's `expectations[i] = v`, for an index in range; nothing otherwise. */
  function RecordIndex(info: Info<nat>, i: nat, v: real): (r: Info<nat>)
    requires info.policy.Valid()
    ensures r.policy.Valid() && r == info.(policy := info.policy.(expectations := r.policy.expectations))
  {
    if i < |info.policy.expectations| then
      info.(policy := info.policy.(expectations := info.policy.expectations[i := v]))
    else info
  }

  /**
   * The loop over a gadget's or the root's children from `k`: a child is
   * followed when the owned set exploits its index with positive
   * probability, and its weighted value added; at the root the value also
   * becomes the expectation of that index when in range. Only those
   * expectations of the owned set change.
   */
  function ChildrenFrom(h: History, opt: SP.Player, reach: real, k: nat, acc: real, info: Info<nat>, store: Store)
    : (r: (real, seq<(nat, History)>, Info<nat>, Store))
    requires (h.Augmented? || h.SubgameRoot?) && StoreOk(store) && Walkable(h, store.Keys) && k <= |h.children|
    requires info.policy.Valid() && info.policy.actions == h.info.policy.actions
    ensures StoreOk(r.3) && OnlyPolicies(store, r.3)
    ensures r.2.policy.Valid() && r.2 == info.(policy := info.policy.(expectations := r.2.policy.expectations))
    ensures h.Augmented? ==> r.2 == info
    ensures Relabelled(r.1, h.children, k, h.info.policy.actions, store.Keys)
    decreases h, 1, |h.children| - k, 1
  {
    if k == |h.children| then (acc, [], info, store)
    else
      assert h.children[k] in h.children;
      var idx := h.children[k].0;
      var child := h.children[k].1;
      var p := SP.PExploitOf(info.policy, idx);
      if p > 0.0 then FollowChild(h, opt, reach, k, acc, info, store)
      else
        var rest := ChildrenFrom(h, opt, reach, k + 1, acc, info, store);
        ConsRelabelled(h.children, k, (idx, child), rest.1, h.info.policy.actions, store.Keys);
        (rest.0, [(idx, child)] + rest.1, rest.2, rest.3)
  }

  /** A followed child of `ChildrenFrom`: its weighted value added and, at the root, recorded for its index. */
  function FollowChild(h: History, opt: SP.Player, reach: real, k: nat, acc: real, info: Info<nat>, store: Store)
    : (r: (real, seq<(nat, History)>, Info<nat>, Store))
    requires (h.Augmented? || h.SubgameRoot?) && StoreOk(store) && Walkable(h, store.Keys) && k < |h.children|
    requires info.policy.Valid() && info.policy.actions == h.info.policy.actions
    ensures StoreOk(r.3) && OnlyPolicies(store, r.3)
    ensures r.2.policy.Valid() && r.2 == info.(policy := info.policy.(expectations := r.2.policy.expectations))
    ensures h.Augmented? ==> r.2 == info
    ensures Relabelled(r.1, h.children, k, h.info.policy.actions, store.Keys)
    decreases h, 1, |h.children| - k, 0
  {
    assert h.children[k] in h.children;
    var idx := h.children[k].0;
    var p := SP.PExploitOf(info.policy, idx);
    var c := Utilities(h.children[k].1, opt, Scaled(reach, p), store);
    var info' := if h.SubgameRoot? then RecordIndex(info, idx, c.0) else info;
    var rest := ChildrenFrom(h, opt, reach, k + 1, AddWeighted(acc, p, c.0), info', c.2);
    OnlyPoliciesTransitive(store, c.2, rest.3);
    ConsRelabelled(h.children, k, (idx, c.1), rest.1, h.info.policy.actions, store.Keys);
    (rest.0, [(idx, c.1)] + rest.1, rest.2, rest.3)
  }

  // ---------------------------------------------------------------------
  // Choosing the move

  /** What `choose_action_from_root` comes to: an action, `None`, or the panic of `purified` on a set without actions. */
  datatype Choice = Chosen(action: RpsAction) | NoChoice | PurifyPanics

  /** The root's exploit probability for each child's index, in order. */
  function RootProbs(root: History, keys: set<nat>): (r: seq<real>)
    requires root.SubgameRoot? && Walkable(root, keys)
    ensures |r| == |root.children|
    ensures forall i :: 0 <= i < |r| ==>
      root.children[i].0 in root.info.policy.actions && r[i] == SP.PExploitOf(root.info.policy, root.children[i].0)
  {
    var cs := root.children;
    assert forall i :: 0 <= i < |cs| ==> cs[i] in cs;
    seq(|cs|, i requires 0 <= i < |cs| => SP.PExploitOf(root.info.policy, cs[i].0))
  }

  /** `iter().find(|(i, _)| i == idx)`: the first position holding index `idx`, or the length when none does. */
  function FindIndex(cs: seq<(nat, History)>, idx: nat): (f: nat)
    ensures f <= |cs| && (forall g :: 0 <= g < f ==> cs[g].0 != idx) && (f < |cs| ==> cs[f].0 == idx)
  {
    if |cs| == 0 then 0
    else if cs[0].0 == idx then 0
    else
      var f := FindIndex(cs[1..], idx);
      assert forall g :: 0 < g <= f ==> cs[g] == cs[1..][g - 1];
      1 + f
  }

  /** The first position of an Expanded child, or the length when there is none. */
  function FirstExpanded(cs: seq<(nat, History)>): (e: nat)
    ensures e <= |cs| && (forall g :: 0 <= g < e ==> !cs[g].1.Expanded?) && (e < |cs| ==> cs[e].1.Expanded?)
  {
    if |cs| == 0 then 0
    else if cs[0].1.Expanded? then 0
    else
      var e := FirstExpanded(cs[1..]);
      assert forall g :: 0 < g <= e ==> cs[g] == cs[1..][g - 1];
      1 + e
  }

  /**
   * `purified()` on a set's policy, with the random draw as `pick`: an action
   * of the purified support (the first MAX_SUPPORT actions by exploit
   * probability), and a panic when the set has no actions.
   */
  function Purify(p: SP.PolicyState<RpsAction>, pick: nat): (c: Choice)
    requires p.Valid()
    ensures c.PurifyPanics? <==> |p.actions| == 0
    ensures c.Chosen? ==> exists i :: i in SP.PurifiedSupport(p.accRegrets) && i < |p.actions| && c.action == p.actions[i]
    ensures !c.NoChoice?
  {
    if |p.actions| == 0 then PurifyPanics
    else
      var i := SP.Purified(p.accRegrets, pick % SP.MinSupport(|p.accRegrets|));
      assert i in SP.PurifiedSupport(p.accRegrets) && i < |p.actions|;
      Chosen(p.actions[i])
  }

  /** The gadget part of `choose_action_from_root`: purify the first Expanded child's policy, if any. */
  function ChooseIn(g: History, store: Store, pick: nat): (c: Choice)
    requires StoreOk(store) && g.Augmented? && Walkable(g, store.Keys)
    ensures c.NoChoice? <==> forall j :: 0 <= j < |g.children| ==> !g.children[j].1.Expanded?
  {
    var e := FirstExpanded(g.children);
    if e == |g.children| then NoChoice
    else
      assert g.children[e] in g.children && Walkable(g.children[e].1, store.Keys);
      Purify(store[g.children[e].1.ptr].policy, pick)
  }

  /**
   * `choose_action_from_root`: with a root that has children, follow the
   * first child of maximal root exploit probability (its index, looked up
   * again with `find`); when that is a gadget, choose inside it; otherwise
   * there is no choice.
   */
  function Choose(root: Option<History>, store: Store, pick: nat): Choice
    requires StoreOk(store) && (root.Some? ==> Walkable(root.value, store.Keys))
  {
    if root.None? || !root.value.SubgameRoot? || |root.value.children| == 0 then NoChoice
    else
      var cs := root.value.children;
      var probs := RootProbs(root.value, store.Keys);
      var f := FindIndex(cs, cs[FirstArgMax(probs)].0);
      assert cs[f] in cs;
      var g := cs[f].1;
      if !g.Augmented? then NoChoice else ChooseIn(g, store, pick)
  }

  /** The scan of a gadget's children for the first Expanded one. */
  method ChooseInGadget(g: History, store: Store, pick: nat) returns (c: Choice)
    requires StoreOk(store) && g.Augmented? && Walkable(g, store.Keys)
    ensures c == ChooseIn(g, store, pick)
  {
    var e := 0;
    while e < |g.children| && !g.children[e].1.Expanded?
      invariant e <= |g.children| && forall j :: 0 <= j < e ==> !g.children[j].1.Expanded?
    {
      e := e + 1;
    }
    assert e == FirstExpanded(g.children);
    if e == |g.children| {
      return NoChoice;
    }
    assert g.children[e] in g.children && Walkable(g.children[e].1, store.Keys);
    c := Purify(store[g.children[e].1.ptr].policy, pick);
  }

  /** The strict `>` scan over the root's children: the index of the first child of maximal probability. */
  method BestIndex(cs: seq<(nat, History)>, probs: seq<real>) returns (best: Option<nat>)
    requires |probs| == |cs|
    ensures best.None? <==> |cs| == 0
    ensures best.Some? ==> best.value == cs[FirstArgMax(probs)].0
  {
    var at: Option<(nat, nat)> := None;
    for i := 0 to |cs|
      invariant i == 0 <==> at.None?
      invariant at.Some? ==> IsFirstArgMax(probs[..i], at.value.1) && at.value.0 == cs[at.value.1].0
    {
      var p := probs[i];
      if at.None? || p > probs[at.value.1] {
        at := Some((cs[i].0, i));
      }
    }
    if at.None? {
      return None;
    }
    assert probs[..|cs|] == probs;
    FirstArgMaxUnique(probs, at.value.1);
    best := Some(at.value.0);
  }

  /** The `find` of a child by its index. */
  method FindChild(cs: seq<(nat, History)>, idx: nat) returns (f: nat)
    ensures f == FindIndex(cs, idx)
  {
    f := 0;
    while f < |cs| && cs[f].0 != idx
      invariant f <= |cs| && forall g :: 0 <= g < f ==> cs[g].0 != idx
    {
      f := f + 1;
    }
  }

  /** `choose_action_from_root`: the best child, the `find` of its index, and the choice inside the gadget. */
  method ChooseActionFromRoot(root: Option<History>, store: Store, pick: nat) returns (c: Choice)
    requires StoreOk(store) && (root.Some? ==> Walkable(root.value, store.Keys))
    ensures c == Choose(root, store, pick)
  {
    if root.None? || !root.value.SubgameRoot? {
      return NoChoice;
    }
    var cs := root.value.children;
    var probs := RootProbs(root.value, store.Keys);
    var best := BestIndex(cs, probs);
    if best.None? {
      return NoChoice;
    }
    var f := FindChild(cs, best.value);
    assert f < |cs| by {
      assert cs[FirstArgMax(probs)].0 == best.value;
    }
    assert cs[f] in cs;
    var g := cs[f].1;
    if !g.Augmented? {
      return NoChoice;
    }
    c := ChooseInGadget(g, store, pick);
  }

  /**
   * On a root built from histories none of which is Expanded (the padding
   * states are all New), no move can be chosen.
   */
  lemma {:induction false} NoExpandedNoChoice(j0: seq<J0Entry>, player: SP.Player, store: Store, pick: nat)
    requires StoreOk(store)
    requires forall e, h :: e in j0 && h in e.entries ==> Walkable(h, store.Keys) && !h.Expanded?
    ensures Walkable(RootOf(j0, player), store.Keys) && Choose(Some(RootOf(j0, player)), store, pick) == NoChoice
  {
    var r := RootOf(j0, player);
    RootProperties(j0, player, store.Keys);
    if |j0| > 0 {
      var probs := RootProbs(r, store.Keys);
      var f := FindIndex(r.children, r.children[FirstArgMax(probs)].0);
      assert j0[f] in j0;
      GadgetNotExpanded(j0[f], player);
    }
  }

  /** A gadget over histories none of which is Expanded has no Expanded child. */
  lemma {:induction false} GadgetNotExpanded(e: J0Entry, player: SP.Player)
    requires forall h :: h in e.entries ==> !h.Expanded?
    ensures forall j :: 0 <= j < |Gadget(e, player).children| ==> !Gadget(e, player).children[j].1.Expanded?
  {
    var g := Gadget(e, player);
    forall j | 0 <= j < |g.children|
      ensures !g.children[j].1.Expanded?
    {
      assert g.children[j].1 == e.entries[j];
    }
  }

}
