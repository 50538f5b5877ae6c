// Subgame construction of the current Rust solver (src/obscuro.rs): the
// resolve gadgets that let the opponent choose between a safe alternative
// and entering the subgame, the k-cover of the previous subgame's root
// histories, the grouping of those histories into gadgets and the padding
// with freshly sampled positions.
//
// The solver object's `subgame_root` is passed in and returned; the
// `HashMap` of groups is an association list in first-insertion order.
module Subgame {
  import opened Wrappers
  import opened Players
  import opened Reals
  import opened Seqs
  import CP = CfrPolicy
  import opened SolverTree

  /** `MIN_INFO_SIZE`: the number of root entries the padding loop aims for. */
  const MIN_INFO_SIZE: nat := 64

  datatype ResolveAction = Skip | Enter

  /**
   * A resolve gadget: the chance infoset over its histories, the opponent's
   * SKIP/ENTER policy, the value of skipping, the prior, and the histories.
   */
  datatype Gadget<S, A, T> = Gadget(
    info: InfoState<nat, T>,
    resolver: CP.PolicyState<ResolveAction>,
    alt: real,
    prior: real,
    children: seq<History<S, A, T>>)

  /** The subgame root: a policy over gadget indices and the gadgets. */
  datatype Root<S, A, T> = Root(policy: CP.PolicyState<nat>, children: seq<Gadget<S, A, T>>)

  /** A `PreResolver`: summed reach, alternative value, and the histories of one group. */
  datatype Pre<H> = Pre(prob: real, alt: real, histories: seq<H>)

  /** The groups keyed by trace, in first-insertion order. */
  type Positions<T, H> = seq<(T, Pre<H>)>

  predicate NonTerminal<S, A, T>(hs: seq<History<S, A, T>>)
  {
    forall i :: 0 <= i < |hs| ==> !hs[i].Terminal?
  }

  // ---------------------------------------------------------------------
  // Draining the previous root

  /** `drain_root` then `drain_resolver` on every gadget: all root histories, gadget by gadget. */
  function RootHistories<S, A, T>(gs: seq<Gadget<S, A, T>>): (hs: seq<History<S, A, T>>)
  {
    if |gs| == 0 then [] else RootHistories(gs[..|gs| - 1]) + gs[|gs| - 1].children
  }

  /** The drained histories are exactly the gadgets' histories: each one comes from a gadget and every gadget's histories are there. */
  lemma {:induction false} RootHistoriesMembers<S, A, T>(gs: seq<Gadget<S, A, T>>)
    ensures forall i, j :: 0 <= i < |gs| && 0 <= j < |gs[i].children| ==> gs[i].children[j] in RootHistories(gs)
    ensures forall h :: h in RootHistories(gs) ==> exists i :: 0 <= i < |gs| && h in gs[i].children
  {
    if |gs| > 0 {
      var n := |gs| - 1;
      RootHistoriesMembers(gs[..n]);
      forall i, j | 0 <= i < |gs| && 0 <= j < |gs[i].children|
        ensures gs[i].children[j] in RootHistories(gs)
      {
        if i < n {
          assert gs[..n][i] == gs[i];
        }
      }
      forall h | h in RootHistories(gs)
        ensures exists i :: 0 <= i < |gs| && h in gs[i].children
      {
        if h in RootHistories(gs[..n]) {
          var i :| 0 <= i < n && h in gs[..n][i].children;
          assert gs[..n][i] == gs[i];
        }
      }
    }
  }

  // ---------------------------------------------------------------------
  // k-cover

  /** The histories whose acting player's trace is in `traces`, in order. */
  function Matching<S, A, T(==)>(g: Game<S, A, T>, hs: seq<History<S, A, T>>, traces: set<T>): (r: seq<History<S, A, T>>)
    requires NonTerminal(hs)
    ensures NonTerminal(r) && |r| <= |hs|
    ensures forall i :: 0 <= i < |r| ==> Trace(g, r[i]) in traces
    ensures forall i :: 0 <= i < |r| ==> r[i] in hs
    ensures forall i :: 0 <= i < |hs| && Trace(g, hs[i]) in traces ==> hs[i] in r
  {
    if |hs| == 0 then []
    else
      var rest := Matching(g, hs[1..], traces);
      if Trace(g, hs[0]) in traces then [hs[0]] + rest else rest
  }

  /** The histories whose acting player's trace is not in `traces`, in order. */
  function NotMatching<S, A, T(==)>(g: Game<S, A, T>, hs: seq<History<S, A, T>>, traces: set<T>): (r: seq<History<S, A, T>>)
    requires NonTerminal(hs)
    ensures NonTerminal(r) && |r| <= |hs|
    ensures forall i :: 0 <= i < |r| ==> Trace(g, r[i]) !in traces
    ensures forall i :: 0 <= i < |r| ==> r[i] in hs
    ensures forall i :: 0 <= i < |hs| && Trace(g, hs[i]) !in traces ==> hs[i] in r
  {
    if |hs| == 0 then []
    else
      var rest := NotMatching(g, hs[1..], traces);
      if Trace(g, hs[0]) !in traces then [hs[0]] + rest else rest
  }

  /** The acting players' traces of a list of histories. */
  function TracesOf<S, A, T(==)>(g: Game<S, A, T>, hs: seq<History<S, A, T>>): (ts: set<T>)
    requires NonTerminal(hs)
    ensures forall i :: 0 <= i < |hs| ==> Trace(g, hs[i]) in ts
  {
    set i | 0 <= i < |hs| :: Trace(g, hs[i])
  }

  /**
   * `k_cover` as written: the histories matching the traces, followed, for
   * k > 1, by the (k-1)-cover of the rest against the traces of the ones
   * just matched. Terminal histories have no trace (the source panics).
   */
  function KCover<S, A, T(==)>(g: Game<S, A, T>, hs: seq<History<S, A, T>>, traces: set<T>, k: nat): (r: seq<History<S, A, T>>)
    requires NonTerminal(hs)
    decreases k
  {
    var covered := Matching(g, hs, traces);
    if k > 1 then covered + KCover(g, NotMatching(g, hs, traces), TracesOf(g, covered), k - 1)
    else covered
  }

  /** No history matches a set none of their traces is in. */
  lemma {:induction false} MatchingNone<S, A, T>(g: Game<S, A, T>, hs: seq<History<S, A, T>>, traces: set<T>)
    requires NonTerminal(hs)
    requires forall i :: 0 <= i < |hs| ==> Trace(g, hs[i]) !in traces
    ensures Matching(g, hs, traces) == []
  {
    if |hs| > 0 {
      MatchingNone(g, hs[1..], traces);
    }
  }

  /**
   * The recursion of `k_cover` never adds anything: the traces of the
   * matched histories lie in the set the rest was found not to match, so
   * for every k the cover is the plain 1-cover.
   */
  lemma {:induction false} KCoverIsOneCover<S, A, T>(g: Game<S, A, T>, hs: seq<History<S, A, T>>, traces: set<T>, k: nat)
    requires NonTerminal(hs)
    ensures KCover(g, hs, traces, k) == Matching(g, hs, traces)
    decreases k
  {
    if k > 1 {
      var covered := Matching(g, hs, traces);
      var rest := NotMatching(g, hs, traces);
      var ts := TracesOf(g, covered);
      assert ts <= traces;
      MatchingNone(g, rest, ts);
      KCoverIsOneCover(g, rest, ts, k - 1);
    }
  }

  /** The trace of one of the two players as a history stores it: the acting player's, or the other player's. */
  function View<S, A, T>(g: Game<S, A, T>, h: History<S, A, T>, opponent: bool): T
    requires !h.Terminal?
  {
    if opponent then HistoryIdentifier(g, h).1 else HistoryIdentifier(g, h).0
  }

  /** The histories whose chosen view is in `traces`, in order. */
  function MatchingView<S, A, T(==)>(g: Game<S, A, T>, hs: seq<History<S, A, T>>, traces: set<T>, opponent: bool): (r: seq<History<S, A, T>>)
    requires NonTerminal(hs)
    ensures NonTerminal(r)
    ensures forall i :: 0 <= i < |r| ==> r[i] in hs && View(g, r[i], opponent) in traces
    ensures forall i :: 0 <= i < |hs| && View(g, hs[i], opponent) in traces ==> hs[i] in r
  {
    if |hs| == 0 then []
    else
      var rest := MatchingView(g, hs[1..], traces, opponent);
      if View(g, hs[0], opponent) in traces then [hs[0]] + rest else rest
  }

  /** The histories whose chosen view is not in `traces`, in order. */
  function NotMatchingView<S, A, T(==)>(g: Game<S, A, T>, hs: seq<History<S, A, T>>, traces: set<T>, opponent: bool): (r: seq<History<S, A, T>>)
    requires NonTerminal(hs)
    ensures NonTerminal(r)
    ensures forall i :: 0 <= i < |r| ==> r[i] in hs && View(g, r[i], opponent) !in traces
    ensures forall i :: 0 <= i < |hs| && View(g, hs[i], opponent) !in traces ==> hs[i] in r
  {
    if |hs| == 0 then []
    else
      var rest := NotMatchingView(g, hs[1..], traces, opponent);
      if View(g, hs[0], opponent) !in traces then [hs[0]] + rest else rest
  }

  /** The chosen views of a list of histories. */
  function ViewsOf<S, A, T(==)>(g: Game<S, A, T>, hs: seq<History<S, A, T>>, opponent: bool): (ts: set<T>)
    requires NonTerminal(hs)
    ensures forall i :: 0 <= i < |hs| ==> View(g, hs[i], opponent) in ts
  {
    set i | 0 <= i < |hs| :: View(g, hs[i], opponent)
  }

  /**
   * The k-cover the comments ask for: the histories matching the traces
   * in one player's view, then, for k > 1, the (k-1)-cover of the rest
   * against the other player's traces of the ones just matched, the views
   * alternating from level to level.
   */
  function KCoverFrom<S, A, T(==)>(g: Game<S, A, T>, hs: seq<History<S, A, T>>, traces: set<T>, k: nat, opponent: bool): (r: seq<History<S, A, T>>)
    requires NonTerminal(hs)
    ensures NonTerminal(r)
    ensures forall i :: 0 <= i < |r| ==> r[i] in hs
    ensures k > 0 ==> forall i :: 0 <= i < |hs| && View(g, hs[i], opponent) in traces ==> hs[i] in r
    decreases k
  {
    var covered := MatchingView(g, hs, traces, opponent);
    if k > 1 then covered + KCoverFrom(g, NotMatchingView(g, hs, traces, opponent), ViewsOf(g, covered, !opponent), k - 1, !opponent)
    else covered
  }

  /** The corrected `k_cover`: the first level matches the acting player's trace. */
  function KCoverCorrected<S, A, T(==)>(g: Game<S, A, T>, hs: seq<History<S, A, T>>, traces: set<T>, k: nat): (r: seq<History<S, A, T>>)
    requires NonTerminal(hs)
    ensures NonTerminal(r)
  {
    KCoverFrom(g, hs, traces, k, false)
  }

  /**
   * The corrected 2-cover holds only root histories; it holds every one
   * whose acting trace is among the given traces, and every one the
   * opponent cannot tell apart from such a history.
   */
  lemma {:induction false} KCoverCorrectedIsTwoCover<S, A, T>(g: Game<S, A, T>, hs: seq<History<S, A, T>>, traces: set<T>)
    requires NonTerminal(hs)
    ensures var r := KCoverCorrected(g, hs, traces, 2);
      (forall h :: h in r ==> h in hs) &&
      (forall h :: h in hs && Trace(g, h) in traces ==> h in r) &&
      (forall h, h1 :: h in hs && h1 in hs && Trace(g, h1) in traces && View(g, h, true) == View(g, h1, true) ==> h in r)
  {
    var covered := MatchingView(g, hs, traces, false);
    var rest := NotMatchingView(g, hs, traces, false);
    var r := KCoverCorrected(g, hs, traces, 2);
    assert r == covered + KCoverFrom(g, rest, ViewsOf(g, covered, true), 1, true);
    forall h, h1 | h in hs && h1 in hs && Trace(g, h1) in traces && View(g, h, true) == View(g, h1, true)
      ensures h in r
    {
      assert h1 in covered;
      if h !in covered {
        assert h in rest;
      }
    }
  }

  /**
   * An input on which `k_cover` as written falls short: a root history
   * that shares the opponent's view with one matching the observation,
   * but has a different acting trace, is left out of the 2-cover as
   * written and is in the corrected one.
   */
  lemma {:induction false} KCoverMissesOpponentView<S, A, T>(g: Game<S, A, T>, h1: History<S, A, T>, h2: History<S, A, T>, hist: T)
    requires !h1.Terminal? && !h2.Terminal?
    requires Trace(g, h1) == hist && Trace(g, h2) != hist && View(g, h1, true) == View(g, h2, true)
    ensures h2 !in KCover(g, [h1, h2], {hist}, 2)
    ensures h2 in KCoverCorrected(g, [h1, h2], {hist}, 2)
  {
    KCoverIsOneCover(g, [h1, h2], {hist}, 2);
    KCoverCorrectedIsTwoCover(g, [h1, h2], {hist});
  }

  // ---------------------------------------------------------------------
  // Grouping

  /** Every trace keys at most one group. */
  predicate DistinctKeys<T(==), H>(pos: Positions<T, H>)
  {
    forall i, j :: 0 <= i < j < |pos| ==> pos[i].0 != pos[j].0
  }

  /** The index of the group with the given key, or |pos| when there is none. */
  function KeyIndex<T(==), H>(pos: Positions<T, H>, key: T): (i: nat)
    ensures i <= |pos|
    ensures i < |pos| ==> pos[i].0 == key
    ensures forall j :: 0 <= j < i ==> pos[j].0 != key
  {
    if |pos| == 0 then 0
    else if pos[0].0 == key then 0
    else 1 + KeyIndex(pos[1..], key)
  }

  /**
   * `entry(key)`: an existing group gains `addProb` and the history at the
   * end of its list; otherwise `start` is appended under the key.
   */
  function Insert<T(==), H>(pos: Positions<T, H>, key: T, h: H, addProb: real, start: Pre<H>): Positions<T, H>
  {
    var i := KeyIndex(pos, key);
    if i < |pos| then pos[i := (key, Pre(pos[i].1.prob + addProb, pos[i].1.alt, pos[i].1.histories + [h]))]
    else pos + [(key, start)]
  }

  /** The number of histories over all groups. */
  function TotalHistories<T, H>(pos: Positions<T, H>): int
  {
    SumInt(Lengths(pos))
  }

  function Lengths<T, H>(pos: Positions<T, H>): (ls: seq<int>)
    ensures |ls| == |pos| && forall j :: 0 <= j < |pos| ==> ls[j] == |pos[j].1.histories|
  {
    seq(|pos|, j requires 0 <= j < |pos| => |pos[j].1.histories|)
  }

  /**
   * One insertion: keys stay distinct; a group under the key gains the
   * history and `addProb`, every other group is unchanged, and otherwise
   * `start` is appended; the number of histories grows by one.
   */
  lemma {:induction false} InsertProperties<T, H>(pos: Positions<T, H>, key: T, h: H, addProb: real, start: Pre<H>)
    requires DistinctKeys(pos) && start.histories == [h]
    ensures var pos' := Insert(pos, key, h, addProb, start);
      DistinctKeys(pos') &&
      (KeyIndex(pos, key) < |pos| ==> |pos'| == |pos|) &&
      (KeyIndex(pos, key) == |pos| ==> |pos'| == |pos| + 1 && pos'[|pos|] == (key, start)) &&
      (forall j :: 0 <= j < |pos| ==> pos'[j].0 == pos[j].0 && pos'[j].1.alt == pos[j].1.alt) &&
      (forall j :: 0 <= j < |pos| && pos[j].0 == key ==>
        pos'[j].1.histories == pos[j].1.histories + [h] && pos'[j].1.prob == pos[j].1.prob + addProb) &&
      (forall j :: 0 <= j < |pos| && pos[j].0 != key ==>
        pos'[j].1.histories == pos[j].1.histories && pos'[j].1.prob == pos[j].1.prob) &&
      TotalHistories(pos') == TotalHistories(pos) + 1
  {
    var i := KeyIndex(pos, key);
    var pos' := Insert(pos, key, h, addProb, start);
    if i < |pos| {
      assert Lengths(pos') == Lengths(pos)[i := Lengths(pos)[i] + 1];
      SumIntUpdate(Lengths(pos), i, Lengths(pos)[i] + 1);
    } else {
      assert Lengths(pos')[..|pos|] == Lengths(pos);
    }
  }

  /**
   * The fold of `construct_subgame`: each history goes to the group of
   * its key with its reach probability for `player`; a new group starts
   * with alternative value 0.
   */
  function GroupBy<S, A, T(==)>(hs: seq<History<S, A, T>>, keys: seq<T>, player: Player): Positions<T, History<S, A, T>>
    requires |keys| == |hs| && NonTerminal(hs)
  {
    if |hs| == 0 then []
    else
      var n := |hs| - 1;
      var r := ReachProb(hs[n], player);
      Insert(GroupBy(hs[..n], keys[..n], player), keys[n], hs[n], r, Pre(r, 0.0, [hs[n]]))
  }

  /** The histories with the given key, in order. */
  function Members<S, A, T(==)>(hs: seq<History<S, A, T>>, keys: seq<T>, key: T): seq<History<S, A, T>>
    requires |keys| == |hs|
  {
    if |hs| == 0 then []
    else
      var n := |hs| - 1;
      Members(hs[..n], keys[..n], key) + (if keys[n] == key then [hs[n]] else [])
  }

  /** The summed reach probabilities for `player` of the histories with the given key. */
  function MemberReach<S, A, T(==)>(hs: seq<History<S, A, T>>, keys: seq<T>, key: T, player: Player): real
    requires |keys| == |hs| && NonTerminal(hs)
  {
    if |hs| == 0 then 0.0
    else
      var n := |hs| - 1;
      MemberReach(hs[..n], keys[..n], key, player) + (if keys[n] == key then ReachProb(hs[n], player) else 0.0)
  }

  lemma {:induction false} MembersAbsent<S, A, T>(hs: seq<History<S, A, T>>, keys: seq<T>, key: T, player: Player)
    requires |keys| == |hs| && NonTerminal(hs) && key !in keys
    ensures Members(hs, keys, key) == [] && MemberReach(hs, keys, key, player) == 0.0
  {
    if |hs| > 0 {
      var n := |hs| - 1;
      assert keys[n] != key;
      MembersAbsent(hs[..n], keys[..n], key, player);
    }
  }

  /** After the fold the keys are distinct, and a key has a group exactly when some history has it. */
  lemma {:induction false} GroupByKeys<S, A, T>(hs: seq<History<S, A, T>>, keys: seq<T>, player: Player)
    requires |keys| == |hs| && NonTerminal(hs)
    ensures var pos := GroupBy(hs, keys, player);
      DistinctKeys(pos) && forall key :: KeyIndex(pos, key) < |pos| <==> key in keys
  {
    if |hs| > 0 {
      var n := |hs| - 1;
      var keys0 := keys[..n];
      var pos0 := GroupBy(hs[..n], keys0, player);
      GroupByKeys(hs[..n], keys0, player);
      var r := ReachProb(hs[n], player);
      var key := keys[n];
      InsertProperties(pos0, key, hs[n], r, Pre(r, 0.0, [hs[n]]));
      var pos := GroupBy(hs, keys, player);
      assert keys == keys0 + [key];
      forall k
        ensures KeyIndex(pos, k) < |pos| <==> k in keys
      {
        if KeyIndex(pos, k) < |pos| {
          var j := KeyIndex(pos, k);
          if j < |pos0| {
            assert pos0[j].0 == k;
            assert KeyIndex(pos0, k) <= j;
          }
        }
        if k in keys0 {
          var j := KeyIndex(pos0, k);
          assert pos[j].0 == k;
        }
        if k == key && KeyIndex(pos0, key) == |pos0| {
          assert pos[|pos0|].0 == k;
        }
      }
    }
  }

  /**
   * After the fold each group holds exactly the histories with its key,
   * in order; its probability is their summed reach for `player`, and its
   * alternative value is 0.
   */
  lemma {:induction false} GroupByGroups<S, A, T>(hs: seq<History<S, A, T>>, keys: seq<T>, player: Player)
    requires |keys| == |hs| && NonTerminal(hs)
    ensures var pos := GroupBy(hs, keys, player);
      forall j :: 0 <= j < |pos| ==>
        pos[j].1.histories == Members(hs, keys, pos[j].0) &&
        pos[j].1.prob == MemberReach(hs, keys, pos[j].0, player) && pos[j].1.alt == 0.0
  {
    if |hs| > 0 {
      var n := |hs| - 1;
      var hs0, keys0 := hs[..n], keys[..n];
      var pos0 := GroupBy(hs0, keys0, player);
      GroupByKeys(hs0, keys0, player);
      GroupByGroups(hs0, keys0, player);
      var r := ReachProb(hs[n], player);
      var key := keys[n];
      InsertProperties(pos0, key, hs[n], r, Pre(r, 0.0, [hs[n]]));
      var pos := GroupBy(hs, keys, player);
      forall j | 0 <= j < |pos|
        ensures pos[j].1.histories == Members(hs, keys, pos[j].0)
        ensures pos[j].1.prob == MemberReach(hs, keys, pos[j].0, player) && pos[j].1.alt == 0.0
      {
        if j == |pos0| {
          MembersAbsent(hs0, keys0, key, player);
        }
      }
    }
  }

  /**
   * After the fold there is one group per distinct key, in order of first
   * appearance; each group holds exactly the histories with its key, in
   * order, its probability is their summed reach for `player`, and its
   * alternative value is 0.
   */
  lemma {:induction false} GroupByProperties<S, A, T>(hs: seq<History<S, A, T>>, keys: seq<T>, player: Player)
    requires |keys| == |hs| && NonTerminal(hs)
    ensures var pos := GroupBy(hs, keys, player);
      DistinctKeys(pos) &&
      (forall key :: KeyIndex(pos, key) < |pos| <==> key in keys) &&
      (forall j :: 0 <= j < |pos| ==>
        pos[j].1.histories == Members(hs, keys, pos[j].0) &&
        pos[j].1.prob == MemberReach(hs, keys, pos[j].0, player) && pos[j].1.alt == 0.0)
  {
    GroupByKeys(hs, keys, player);
    GroupByGroups(hs, keys, player);
  }

  /** The acting players' traces, one per history. */
  function ActingTraces<S, A, T>(g: Game<S, A, T>, hs: seq<History<S, A, T>>): (ts: seq<T>)
    requires NonTerminal(hs)
    ensures |ts| == |hs| && forall i :: 0 <= i < |hs| ==> ts[i] == Trace(g, hs[i])
  {
    seq(|hs|, i requires 0 <= i < |hs| && !hs[i].Terminal? => Trace(g, hs[i]))
  }

  /** The opponents' traces, one per history. */
  function OpponentTraces<S, A, T>(g: Game<S, A, T>, hs: seq<History<S, A, T>>): (ts: seq<T>)
    requires NonTerminal(hs)
    ensures |ts| == |hs| && forall i :: 0 <= i < |hs| ==> ts[i] == View(g, hs[i], true)
  {
    seq(|hs|, i requires 0 <= i < |hs| && !hs[i].Terminal? => View(g, hs[i], true))
  }

  /** The fold, with its loop: each history is inserted under its key in turn. */
  method GroupHistories<S, A, T(==)>(hs: seq<History<S, A, T>>, keys: seq<T>, player: Player) returns (pos: Positions<T, History<S, A, T>>)
    requires |keys| == |hs| && NonTerminal(hs)
    ensures pos == GroupBy(hs, keys, player)
  {
    pos := [];
    for i := 0 to |hs|
      invariant pos == GroupBy(hs[..i], keys[..i], player)
    {
      assert hs[..i + 1][..i] == hs[..i] && keys[..i + 1][..i] == keys[..i];
      var r := ReachProb(hs[i], player);
      pos := Insert(pos, keys[i], hs[i], r, Pre(r, 0.0, [hs[i]]));
    }
    assert hs[..|hs|] == hs && keys[..|hs|] == keys;
  }

  /**
   * Grouping the as-written cover of one observation by the acting
   * player's trace collects everything into at most one group, although
   * the gadgets are meant to split the histories by the opponent's
   * infoset.
   */
  lemma {:induction false} ActingGroupingIsSingle<S, A, T>(g: Game<S, A, T>, hs: seq<History<S, A, T>>, hist: T, player: Player)
    requires NonTerminal(hs)
    ensures var covered := KCover(g, hs, {hist}, 2);
      NonTerminal(covered) && |GroupBy(covered, ActingTraces(g, covered), player)| <= 1
  {
    KCoverIsOneCover(g, hs, {hist}, 2);
    var covered := KCover(g, hs, {hist}, 2);
    var keys := ActingTraces(g, covered);
    forall i | 0 <= i < |keys|
      ensures keys[i] == hist
    {
      assert Trace(g, covered[i]) in {hist};
    }
    SingleKeySingleGroup(covered, keys, hist, player);
  }

  /** When every history has the same key there is at most one group, under that key. */
  lemma {:induction false} SingleKeySingleGroup<S, A, T>(hs: seq<History<S, A, T>>, keys: seq<T>, key: T, player: Player)
    requires |keys| == |hs| && NonTerminal(hs)
    requires forall i :: 0 <= i < |keys| ==> keys[i] == key
    ensures var pos := GroupBy(hs, keys, player);
      |pos| <= 1 && (|pos| == 1 ==> pos[0].0 == key)
  {
    if |hs| > 0 {
      var n := |hs| - 1;
      SingleKeySingleGroup(hs[..n], keys[..n], key, player);
    }
  }

  /** Grouping by the opponent's trace gives each opponent infoset of the cover its own group. */
  lemma {:induction false} OpponentGroupingSplits<S, A, T>(g: Game<S, A, T>, hs: seq<History<S, A, T>>, player: Player)
    requires NonTerminal(hs)
    ensures var pos := GroupBy(hs, OpponentTraces(g, hs), player);
      DistinctKeys(pos) &&
      (forall i :: 0 <= i < |hs| ==> KeyIndex(pos, View(g, hs[i], true)) < |pos|) &&
      (forall j, h :: 0 <= j < |pos| && h in pos[j].1.histories ==> h in hs && View(g, h, true) == pos[j].0)
  {
    var keys := OpponentTraces(g, hs);
    var pos := GroupBy(hs, keys, player);
    GroupByProperties(hs, keys, player);
    forall i | 0 <= i < |hs|
      ensures KeyIndex(pos, View(g, hs[i], true)) < |pos|
    {
      assert keys[i] == View(g, hs[i], true);
    }
    forall j, h | 0 <= j < |pos| && h in pos[j].1.histories
      ensures h in hs && View(g, h, true) == pos[j].0
    {
      MembersKeyed(hs, keys, pos[j].0, h);
    }
  }

  /** A member with a key is one of the histories, and has that key. */
  lemma {:induction false} MembersKeyed<S, A, T>(hs: seq<History<S, A, T>>, keys: seq<T>, key: T, h: History<S, A, T>)
    requires |keys| == |hs| && h in Members(hs, keys, key)
    ensures exists i :: 0 <= i < |hs| && hs[i] == h && keys[i] == key
  {
    var n := |hs| - 1;
    if h in Members(hs[..n], keys[..n], key) {
      MembersKeyed(hs[..n], keys[..n], key, h);
      var i :| 0 <= i < n && hs[..n][i] == h && keys[..n][i] == key;
      assert hs[i] == h && keys[i] == key;
    } else {
      assert hs[n] == h && keys[n] == key;
    }
  }

  // ---------------------------------------------------------------------
  // Padding

  /** The position a sample becomes: a new history with an empty reach map. */
  function Sampled<S, A, T>(g: Game<S, A, T>, s: S): History<S, A, T>
  {
    New(g, s, map[])
  }

  /**
   * The padding loop: while fewer than `MIN_INFO_SIZE` entries are counted
   * and samples remain, the next sample becomes a history under the
   * opponent's trace of it, a new group starting with probability 1 and
   * the sample's evaluation as alternative value.
   */
  function Pad<S, A, T(==)>(g: Game<S, A, T>, pos: Positions<T, History<S, A, T>>, samples: seq<S>, other: Player, count: nat): Positions<T, History<S, A, T>>
    decreases |samples|
  {
    if count >= MIN_INFO_SIZE || |samples| == 0 then pos
    else
      var s := samples[0];
      var h := Sampled(g, s);
      Pad(g, Insert(pos, g.trace(s, other), h, 0.0, Pre(1.0, g.evaluate(s), [h])), samples[1..], other, count + 1)
  }

  /** How many samples the padding loop takes. */
  function Taken(samples: nat, count: nat): (n: nat)
    ensures n <= samples
  {
    if count >= MIN_INFO_SIZE then 0
    else if samples <= MIN_INFO_SIZE - count then samples
    else MIN_INFO_SIZE - count
  }

  /**
   * The padding takes min(samples, 64 - count) samples; it keeps the keys
   * distinct and every earlier group's key, probability and alternative
   * value, only appending histories; every new group has probability 1;
   * the number of histories grows by the number of samples taken.
   */
  lemma {:induction false} PadProperties<S, A, T>(g: Game<S, A, T>, pos: Positions<T, History<S, A, T>>, samples: seq<S>, other: Player, count: nat)
    requires DistinctKeys(pos)
    ensures var pos' := Pad(g, pos, samples, other, count);
      DistinctKeys(pos') && |pos'| >= |pos| &&
      (forall j :: 0 <= j < |pos| ==> (pos'[j].0 == pos[j].0 && pos'[j].1.prob == pos[j].1.prob &&
        pos'[j].1.alt == pos[j].1.alt && pos[j].1.histories <= pos'[j].1.histories)) &&
      (forall j :: |pos| <= j < |pos'| ==> pos'[j].1.prob == 1.0) &&
      TotalHistories(pos') == TotalHistories(pos) + Taken(|samples|, count)
  {
    PadShape(g, pos, samples, other, count);
    PadCount(g, pos, samples, other, count);
  }

  /** The padding keeps the keys distinct and every earlier group's key, probability and alternative value; new groups have probability 1. */
  lemma {:induction false} PadShape<S, A, T>(g: Game<S, A, T>, pos: Positions<T, History<S, A, T>>, samples: seq<S>, other: Player, count: nat)
    requires DistinctKeys(pos)
    ensures var pos' := Pad(g, pos, samples, other, count);
      DistinctKeys(pos') && |pos'| >= |pos| &&
      (forall j :: 0 <= j < |pos| ==> (pos'[j].0 == pos[j].0 && pos'[j].1.prob == pos[j].1.prob &&
        pos'[j].1.alt == pos[j].1.alt && pos[j].1.histories <= pos'[j].1.histories)) &&
      (forall j :: |pos| <= j < |pos'| ==> pos'[j].1.prob == 1.0)
    decreases |samples|
  {
    if count < MIN_INFO_SIZE && |samples| > 0 {
      var s := samples[0];
      var h := Sampled(g, s);
      var start := Pre(1.0, g.evaluate(s), [h]);
      var pos1 := Insert(pos, g.trace(s, other), h, 0.0, start);
      InsertProperties(pos, g.trace(s, other), h, 0.0, start);
      PadShape(g, pos1, samples[1..], other, count + 1);
      var pos' := Pad(g, pos, samples, other, count);
      forall j | 0 <= j < |pos|
        ensures pos[j].1.histories <= pos'[j].1.histories
      {
        assert pos[j].1.histories <= pos1[j].1.histories;
      }
    }
  }

  /** The number of histories grows by the number of samples the padding takes. */
  lemma {:induction false} PadCount<S, A, T>(g: Game<S, A, T>, pos: Positions<T, History<S, A, T>>, samples: seq<S>, other: Player, count: nat)
    requires DistinctKeys(pos)
    ensures TotalHistories(Pad(g, pos, samples, other, count)) == TotalHistories(pos) + Taken(|samples|, count)
    decreases |samples|
  {
    if count < MIN_INFO_SIZE && |samples| > 0 {
      var s := samples[0];
      var h := Sampled(g, s);
      var start := Pre(1.0, g.evaluate(s), [h]);
      InsertProperties(pos, g.trace(s, other), h, 0.0, start);
      PadCount(g, Insert(pos, g.trace(s, other), h, 0.0, start), samples[1..], other, count + 1);
    }
  }

  /** The padding loop itself, over the sample stream given as a sequence. */
  method PadPositions<S, A, T(==)>(g: Game<S, A, T>, pos0: Positions<T, History<S, A, T>>, samples: seq<S>, other: Player) returns (pos: Positions<T, History<S, A, T>>)
    ensures pos == Pad(g, pos0, samples, other, |pos0|)
  {
    pos := pos0;
    var dataCount: nat := |pos0|;
    var i := 0;
    while dataCount < MIN_INFO_SIZE
      invariant 0 <= i <= |samples|
      invariant Pad(g, pos, samples[i..], other, dataCount) == Pad(g, pos0, samples, other, |pos0|)
      decreases |samples| - i
    {
      if i < |samples| {
        var s := samples[i];
        var h := Sampled(g, s);
        assert samples[i..][1..] == samples[i + 1..];
        pos := Insert(pos, g.trace(s, other), h, 0.0, Pre(1.0, g.evaluate(s), [h]));
        dataCount := dataCount + 1;
        i := i + 1;
      } else {
        break;
      }
    }
  }

  // ---------------------------------------------------------------------
  // The new root

  /** Reach probabilities in the range `from_rewards` accepts. */
  predicate ReachInRange<S, A, T>(hs: seq<History<S, A, T>>, player: Player)
    requires NonTerminal(hs)
  {
    forall i :: 0 <= i < |hs| ==> -5.0 <= ReachProb(hs[i], player) <= 5.0
  }

  /** What `SubgameRoot::new` needs of each group: traceable histories, reaches and alternative value in range. */
  predicate GroupReady<S, A, T>(pre: Pre<History<S, A, T>>, player: Player)
  {
    NonTerminal(pre.histories) && ReachInRange(pre.histories, player) && -5.0 <= pre.alt <= 5.0
  }

  /** The histories' indices paired with their reach probabilities for `player`. */
  function IndexedReach<S, A, T>(hs: seq<History<S, A, T>>, player: Player): (items: seq<(nat, real)>)
    requires NonTerminal(hs)
    ensures |items| == |hs| && forall i :: 0 <= i < |hs| ==> items[i] == (i, ReachProb(hs[i], player))
  {
    seq(|hs|, i requires 0 <= i < |hs| && !hs[i].Terminal? => (i, ReachProb(hs[i], player)))
  }

  /** The resolver's reward list: SKIP is worth the alternative, ENTER starts at 0. */
  function ResolverItems(alt: real): seq<(ResolveAction, real)>
  {
    [(Skip, alt), (Enter, 0.0)]
  }

  /**
   * One gadget of `SubgameRoot::new`: a chance infoset whose policy starts
   * from the histories' reach probabilities, a resolver for the other
   * player starting from (SKIP, alt) and (ENTER, 0), prior 1; the group's
   * summed probability is not used.
   */
  function NewGadget<S, A, T>(trace: T, pre: Pre<History<S, A, T>>, player: Player): (gd: Gadget<S, A, T>)
    requires GroupReady(pre, player)
    ensures gd.children == pre.histories && gd.alt == pre.alt && gd.prior == 1.0
    ensures gd.info.trace == trace && gd.info.player == Chance && gd.info.reach == map[] && gd.info.policy.Valid()
    ensures gd.info.policy.player == player && |gd.info.policy.actions| == |pre.histories|
    ensures forall i :: 0 <= i < |pre.histories| ==>
      gd.info.policy.actions[i] == i && gd.info.policy.counterfactuals[i] == ReachProb(pre.histories[i], player)
    ensures gd.resolver.Valid() && gd.resolver.actions == [Skip, Enter] && gd.resolver.player == Other(player)
    ensures gd.resolver.counterfactuals == [pre.alt, 0.0]
  {
    var items := IndexedReach(pre.histories, player);
    var r := CP.RewardPolicy(ResolverItems(pre.alt), Other(player));
    assert r.actions == [Skip, Enter] && r.counterfactuals == [pre.alt, 0.0];
    Gadget(InfoFromPolicy(CP.RewardPolicy(items, player), trace, Chance), r, pre.alt, 1.0, pre.histories)
  }

  predicate AllReady<S, A, T>(pos: Positions<T, History<S, A, T>>, player: Player)
  {
    forall j :: 0 <= j < |pos| ==> GroupReady(pos[j].1, player)
  }

  /** The gadgets of `SubgameRoot::new`, one per group in order. */
  function Gadgets<S, A, T>(pos: Positions<T, History<S, A, T>>, player: Player): (gs: seq<Gadget<S, A, T>>)
    requires AllReady(pos, player)
    ensures |gs| == |pos| && forall j :: 0 <= j < |pos| ==> gs[j] == NewGadget(pos[j].0, pos[j].1, player)
  {
    seq(|pos|, j requires 0 <= j < |pos| && GroupReady(pos[j].1, player) => NewGadget(pos[j].0, pos[j].1, player))
  }

  /** `SubgameRoot::new` as written: the gadgets, under a root policy with the single action 0. */
  function NewRoot<S, A, T>(pos: Positions<T, History<S, A, T>>, player: Player): (root: Root<S, A, T>)
    requires AllReady(pos, player)
    ensures root.children == Gadgets(pos, player)
    ensures root.policy.Valid() && root.policy.actions == [0] && root.policy.player == player
  {
    var p := CP.RewardPolicy([(0, 0.0)], player);
    assert p.actions == [0];
    Root(p, Gadgets(pos, player))
  }

  /** The root policy the source's own assertion asks for: one action per gadget, each starting at 0. */
  function NewRootCorrected<S, A, T>(pos: Positions<T, History<S, A, T>>, player: Player): (root: Root<S, A, T>)
    requires AllReady(pos, player)
    ensures root.children == Gadgets(pos, player)
    ensures root.policy.Valid() && root.policy.player == player
    ensures |root.policy.actions| == |root.children| && forall j :: 0 <= j < |pos| ==> root.policy.actions[j] == j
  {
    var items := seq(|pos|, j requires 0 <= j < |pos| => (j as nat, 0.0));
    Root(CP.RewardPolicy(items, player), Gadgets(pos, player))
  }

  /**
   * Root indices the solve step can look up: `solve_step` asks the root
   * policy for `p_exploit(&idx)` of every gadget index, which panics for
   * an index the policy does not have.
   */
  predicate EveryGadgetIndexed<S, A, T>(root: Root<S, A, T>)
  {
    forall j: nat :: j < |root.children| ==> j in root.policy.actions
  }

  /** As written, a root over two or more groups has a gadget index its policy lacks. */
  lemma {:induction false} SingleRootActionFails<S, A, T>(pos: Positions<T, History<S, A, T>>, player: Player)
    requires AllReady(pos, player) && |pos| >= 2
    ensures !EveryGadgetIndexed(NewRoot(pos, player))
  {
    var root := NewRoot(pos, player);
    assert 1 !in root.policy.actions;
  }

  /** The corrected root indexes every gadget. */
  lemma {:induction false} CorrectedRootIndexesGadgets<S, A, T>(pos: Positions<T, History<S, A, T>>, player: Player)
    requires AllReady(pos, player)
    ensures EveryGadgetIndexed(NewRootCorrected(pos, player))
  {
    var root := NewRootCorrected(pos, player);
    forall j: nat | j < |root.children|
      ensures j in root.policy.actions
    {
      assert root.policy.actions[j] == j;
    }
  }

  // ---------------------------------------------------------------------
  // The opponent's entry probability

  /** A resolver `SubgameRoot::new` builds: a well-formed policy over SKIP and ENTER with non-negative regrets. */
  predicate ResolverReady(r: CP.PolicyState<ResolveAction>)
  {
    r.Valid() && Enter in r.actions && NonNegative(r.accRegrets)
  }

  /** `p_exploit(&ENTER)` of every gadget's resolver. */
  function EnterProbs<S, A, T>(gs: seq<Gadget<S, A, T>>): (ps: seq<real>)
    requires forall j :: 0 <= j < |gs| ==> ResolverReady(gs[j].resolver)
    ensures |ps| == |gs|
    ensures forall j :: 0 <= j < |gs| && ResolverReady(gs[j].resolver) ==>
      ps[j] == CP.PExploit(gs[j].resolver.accRegrets, Position(gs[j].resolver.actions, Enter))
  {
    seq(|gs|, j requires 0 <= j < |gs| && ResolverReady(gs[j].resolver) =>
      CP.PExploit(gs[j].resolver.accRegrets, Position(gs[j].resolver.actions, Enter)))
  }

  /** Over non-negative regrets `p_exploit` is a probability. */
  lemma {:induction false} PExploitIsProbability(acc: seq<real>, i: nat)
    requires i < |acc| && NonNegative(acc)
    ensures 0.0 <= CP.PExploit(acc, i) <= 1.0
  {
    if Sum(acc) > 0.0 {
      EntryAtMostSum(acc, i);
      DivBounds(acc[i], 0.0, 1.0, Sum(acc));
    }
  }

  /**
   * `get_pmax`: the largest ENTER probability over the gadgets, folded
   * from 0. It is a probability, at least every gadget's, and either 0 or
   * one of them.
   */
  function GetPMax<S, A, T>(root: Root<S, A, T>): (p: real)
    requires forall j :: 0 <= j < |root.children| ==> ResolverReady(root.children[j].resolver)
    ensures 0.0 <= p <= 1.0
    ensures forall j :: 0 <= j < |root.children| ==> EnterProbs(root.children)[j] <= p
    ensures p == 0.0 || exists j :: 0 <= j < |root.children| && p == EnterProbs(root.children)[j]
  {
    var ps := EnterProbs(root.children);
    MaxFromBounds(0.0, ps);
    assert forall j :: 0 <= j < |ps| ==> 0.0 <= ps[j] <= 1.0 by {
      forall j | 0 <= j < |ps|
        ensures 0.0 <= ps[j] <= 1.0
      {
        var r := root.children[j].resolver;
        PExploitIsProbability(r.accRegrets, Position(r.actions, Enter));
      }
    }
    MaxFrom(0.0, ps)
  }

  /** The resolvers of freshly built gadgets meet what `get_pmax` needs. */
  lemma {:induction false} NewGadgetsResolversReady<S, A, T>(pos: Positions<T, History<S, A, T>>, player: Player)
    requires AllReady(pos, player)
    ensures forall j :: 0 <= j < |pos| ==> ResolverReady(Gadgets(pos, player)[j].resolver)
  {
    forall j | 0 <= j < |pos|
      ensures ResolverReady(Gadgets(pos, player)[j].resolver)
    {
      var r := Gadgets(pos, player)[j].resolver;
      assert r.actions[1] == Enter;
      assert r.accRegrets == CP.RewardPolicy(ResolverItems(pos[j].1.alt), Other(player)).accRegrets;
    }
  }

  // ---------------------------------------------------------------------
  // construct_subgame

  /** A history `SubgameRoot::new` can take: it has a trace and its reach for `player` is in range. */
  predicate HistoryReady<S, A, T>(h: History<S, A, T>, player: Player)
  {
    !h.Terminal? && -5.0 <= ReachProb(h, player) <= 5.0
  }

  /** Every history of every gadget is ready. */
  predicate RootReady<S, A, T>(gs: seq<Gadget<S, A, T>>, player: Player)
  {
    forall j, i :: 0 <= j < |gs| && 0 <= i < |gs[j].children| ==> HistoryReady(gs[j].children[i], player)
  }

  /** Samples the padding can take: positions still in play, evaluated in the range `from_rewards` accepts. */
  predicate SamplesReady<S, A, T>(g: Game<S, A, T>, samples: seq<S>)
  {
    forall i :: 0 <= i < |samples| ==> !g.isOver(samples[i]) && -5.0 <= g.evaluate(samples[i]) <= 5.0
  }

  lemma {:induction false} InsertReady<S, A, T>(pos: Positions<T, History<S, A, T>>, key: T, h: History<S, A, T>, addProb: real, start: Pre<History<S, A, T>>, player: Player)
    requires AllReady(pos, player) && HistoryReady(h, player) && GroupReady(start, player)
    ensures AllReady(Insert(pos, key, h, addProb, start), player)
  {
    var i := KeyIndex(pos, key);
    if i < |pos| {
      var hs := pos[i].1.histories + [h];
      assert forall k :: 0 <= k < |hs| ==> HistoryReady(hs[k], player) by {
        forall k | 0 <= k < |hs|
          ensures HistoryReady(hs[k], player)
        {
          if k < |pos[i].1.histories| {
            assert hs[k] == pos[i].1.histories[k];
          }
        }
      }
    }
  }

  lemma {:induction false} GroupByReady<S, A, T>(hs: seq<History<S, A, T>>, keys: seq<T>, player: Player)
    requires |keys| == |hs| && forall i :: 0 <= i < |hs| ==> HistoryReady(hs[i], player)
    ensures NonTerminal(hs) && AllReady(GroupBy(hs, keys, player), player)
    ensures TotalHistories(GroupBy(hs, keys, player)) == |hs|
  {
    if |hs| > 0 {
      var n := |hs| - 1;
      GroupByReady(hs[..n], keys[..n], player);
      GroupByKeys(hs[..n], keys[..n], player);
      var r := ReachProb(hs[n], player);
      InsertReady(GroupBy(hs[..n], keys[..n], player), keys[n], hs[n], r, Pre(r, 0.0, [hs[n]]), player);
      InsertProperties(GroupBy(hs[..n], keys[..n], player), keys[n], hs[n], r, Pre(r, 0.0, [hs[n]]));
    }
  }

  lemma {:induction false} PadReady<S, A, T>(g: Game<S, A, T>, pos: Positions<T, History<S, A, T>>, samples: seq<S>, other: Player, count: nat, player: Player)
    requires AllReady(pos, player) && SamplesReady(g, samples)
    ensures AllReady(Pad(g, pos, samples, other, count), player)
    decreases |samples|
  {
    if count < MIN_INFO_SIZE && |samples| > 0 {
      var s := samples[0];
      var h := Sampled(g, s);
      assert ReachProb(h, player) == 1.0;
      InsertReady(pos, g.trace(s, other), h, 0.0, Pre(1.0, g.evaluate(s), [h]), player);
      PadReady(g, Insert(pos, g.trace(s, other), h, 0.0, Pre(1.0, g.evaluate(s), [h])), samples[1..], other, count + 1, player);
    }
  }

  /** Every drained root history is ready when every gadget's history is. */
  lemma {:induction false} RootHistoriesReady<S, A, T>(gs: seq<Gadget<S, A, T>>, player: Player)
    requires RootReady(gs, player)
    ensures forall i :: 0 <= i < |RootHistories(gs)| ==> HistoryReady(RootHistories(gs)[i], player)
  {
    RootHistoriesMembers(gs);
    var hs := RootHistories(gs);
    forall i | 0 <= i < |hs|
      ensures HistoryReady(hs[i], player)
    {
      assert hs[i] in hs;
      var j :| 0 <= j < |gs| && hs[i] in gs[j].children;
    }
  }

  /** The corrected 2-cover of the drained root histories for the observation. */
  function Covered<S, A, T(==)>(g: Game<S, A, T>, gs: seq<Gadget<S, A, T>>, hist: T, player: Player): (covered: seq<History<S, A, T>>)
    requires RootReady(gs, player)
    ensures forall i :: 0 <= i < |covered| ==> HistoryReady(covered[i], player)
  {
    RootHistoriesReady(gs, player);
    var hs := RootHistories(gs);
    var covered := KCoverCorrected(g, hs, {hist}, 2);
    assert forall i :: 0 <= i < |covered| ==> covered[i] in hs;
    covered
  }

  /**
   * The groups of `construct_subgame`: the covered histories grouped by
   * the opponent's trace, then padded with samples under the opponent's
   * trace of each sample.
   */
  function Grouped<S, A, T(==)>(g: Game<S, A, T>, gs: seq<Gadget<S, A, T>>, hist: T, player: Player, samples: seq<S>): (pos: Positions<T, History<S, A, T>>)
    requires RootReady(gs, player) && SamplesReady(g, samples)
    ensures AllReady(pos, player)
  {
    var covered := Covered(g, gs, hist, player);
    GroupByReady(covered, OpponentTraces(g, covered), player);
    var pos0 := GroupBy(covered, OpponentTraces(g, covered), player);
    PadReady(g, pos0, samples, Other(player), |pos0|, player);
    Pad(g, pos0, samples, Other(player), |pos0|)
  }

  /**
   * `construct_subgame(hist, player)`: the previous root is drained, its
   * histories are covered and grouped, the groups are padded, and the new
   * root is built over them. The stream of sampled positions is passed as
   * a sequence.
   */
  method ConstructSubgame<S, A, T(==)>(g: Game<S, A, T>, root: Root<S, A, T>, hist: T, player: Player, samples: seq<S>)
    returns (root': Root<S, A, T>)
    requires RootReady(root.children, player) && SamplesReady(g, samples)
    ensures root' == NewRootCorrected(Grouped(g, root.children, hist, player, samples), player)
  {
    var covered := Covered(g, root.children, hist, player);
    GroupByReady(covered, OpponentTraces(g, covered), player);
    var pos := GroupHistories(covered, OpponentTraces(g, covered), player);
    pos := PadPositions(g, pos, samples, Other(player));
    assert pos == Grouped(g, root.children, hist, player, samples);
    root' := NewRootCorrected(pos, player);
  }

  /**
   * The subgame `construct_subgame` builds: one gadget per group, each
   * with prior 1 and a SKIP/ENTER resolver whose opponent can be asked for
   * `get_pmax`; a root policy indexing every gadget; the covered histories
   * and the samples taken as its histories; the keys distinct.
   */
  lemma {:induction false} ConstructSubgameProperties<S, A, T>(g: Game<S, A, T>, root: Root<S, A, T>, hist: T, player: Player, samples: seq<S>)
    requires RootReady(root.children, player) && SamplesReady(g, samples)
    ensures var pos := Grouped(g, root.children, hist, player, samples);
      var root' := NewRootCorrected(pos, player);
      var covered := Covered(g, root.children, hist, player);
      DistinctKeys(pos) && |root'.children| == |pos| && EveryGadgetIndexed(root') &&
      (forall j :: 0 <= j < |pos| ==> (root'.children[j].prior == 1.0 && ResolverReady(root'.children[j].resolver) &&
        root'.children[j].children == pos[j].1.histories)) &&
      TotalHistories(pos) == |covered| + Taken(|samples|, |GroupBy(covered, OpponentTraces(g, covered), player)|)
  {
    var covered := Covered(g, root.children, hist, player);
    var keys := OpponentTraces(g, covered);
    GroupByReady(covered, keys, player);
    GroupByKeys(covered, keys, player);
    var pos0 := GroupBy(covered, keys, player);
    PadProperties(g, pos0, samples, Other(player), |pos0|);
    var pos := Grouped(g, root.children, hist, player, samples);
    CorrectedRootIndexesGadgets(pos, player);
    NewGadgetsResolversReady(pos, player);
  }
}
