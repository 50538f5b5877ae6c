// Subgame construction of the copilot generation (copilot/subgame_solving.rs):
// the k-cover search over the previous tree, the normalisation of the
// covered histories' reach, their grouping by the opponent's trace, the
// padding with sampled positions, and the two small trace utilities.
//
// The search traces are a `HashSet`, so only which answers the comparisons
// give matters, never their order; the positions `HashMap` is a sequence of
// (trace, group) pairs in first-insertion order with distinct traces.
module CopilotSubgame {
  import opened Wrappers
  import opened Players
  import opened Reals
  import opened CopilotCore
  import SG = Subgame
  import CR = CopilotResolving

  // ---------------------------------------------------------------------
  // k_cover_recursive

  /** Some search trace compares Equal to `my`. */
  predicate MatchesSome<S, A, T>(g: CopilotCore.Game<S, A, T>, my: T, targets: set<T>)
  {
    exists t :: t in targets && g.compare(my, t) == Some(Equal)
  }

  /** Some search trace is comparable with `my`, and none is below it: a match may lie further down. */
  predicate MayLeadToMatch<S, A, T>(g: CopilotCore.Game<S, A, T>, my: T, targets: set<T>)
  {
    (exists t :: t in targets && g.compare(my, t).Some?) &&
    (forall t :: t in targets ==> g.compare(my, t) != Some(Greater))
  }

  /** What one search returns: the history to keep searching from (if any), the matched histories, and the opponent traces to search next. */
  datatype Cover<S, A, T> = Cover(returned: Option<History<S, A>>, found: seq<History<S, A>>, traces: set<T>)

  /** The accumulator of the fold over a node's children. */
  datatype Fold<S, A, T> = Fold(children: seq<(A, History<S, A>)>, found: seq<History<S, A>>, traces: set<T>)

  /**
   * `k_cover_recursive`: a Terminal history is returned as it is; a history
   * whose trace for `player` equals a search trace is found, and its
   * opponent's trace is to be searched next; an Expanded history that may
   * lead to a match has each child searched, keeps the children that are
   * returned and collects what they found; any other history is returned
   * as it is.
   */
  function KCoverRec<S, A, T>(g: CopilotCore.Game<S, A, T>, h: History<S, A>, targets: set<T>, player: Player): (r: Cover<S, A, T>)
    requires player != Chance
    ensures r.returned.Some? ==> r.returned.value.game == h.game && r.returned.value.reach == h.reach
    decreases h, 1
  {
    if h.Terminal? then Cover(Some(h), [], {})
    else
      var my := g.trace(h.game, player);
      if MatchesSome(g, my, targets) then Cover(None, [h], {g.trace(h.game, CopilotOther(player))})
      else if h.Expanded? && MayLeadToMatch(g, my, targets) then
        var f := ChildrenCover(g, h.children, 0, targets, player, Fold([], [], {}));
        Cover(Some(Expanded(h.game, h.player, f.children, h.reach)), f.found, f.traces)
      else Cover(Some(h), [], {})
  }

  /** The fold over a node's children from child k on. */
  function ChildrenCover<S, A, T>(g: CopilotCore.Game<S, A, T>, cs: seq<(A, History<S, A>)>, k: nat, targets: set<T>, player: Player,
                                  acc: Fold<S, A, T>): (r: Fold<S, A, T>)
    requires player != Chance && k <= |cs|
    decreases cs, |cs| - k
  {
    if k == |cs| then acc
    else
      var c := cs[k];
      assert c in cs && c.1 < c;
      ChildrenCover(g, cs, k + 1, targets, player, FoldStep(acc, c.0, KCoverRec(g, c.1, targets, player)))
  }

  /** One step of the fold: keep the child if it was returned, and collect what it found. */
  function FoldStep<S, A, T>(acc: Fold<S, A, T>, a: A, c: Cover<S, A, T>): Fold<S, A, T>
  {
    Fold(if c.returned.Some? then acc.children + [(a, c.returned.value)] else acc.children,
         acc.found + c.found, acc.traces + c.traces)
  }

  /** The number of nodes in a list of trees. */
  function NodeCount<S, A>(hs: seq<History<S, A>>): nat
  {
    if |hs| == 0 then 0 else NodeCount(hs[..|hs| - 1]) + Size(hs[|hs| - 1])
  }

  /** The number of nodes under a list of (action, child) pairs. */
  function ChildNodeCount<S, A>(cs: seq<(A, History<S, A>)>): nat
  {
    if |cs| == 0 then 0 else ChildNodeCount(cs[..|cs| - 1]) + Size(cs[|cs| - 1].1)
  }

  lemma {:induction false} NodeCountAppend<S, A>(a: seq<History<S, A>>, b: seq<History<S, A>>)
    ensures NodeCount(a + b) == NodeCount(a) + NodeCount(b)
    decreases |b|
  {
    if |b| > 0 {
      assert (a + b)[..|a + b| - 1] == a + b[..|b| - 1];
      NodeCountAppend(a, b[..|b| - 1]);
    } else {
      assert a + b == a;
    }
  }

  /** The children's sizes from child k on, plus those before k, are all the children's sizes. */
  lemma {:induction false} ChildrenSizeIsCount<S, A>(h: History<S, A>, k: nat)
    requires h.Expanded? && k <= |h.children|
    ensures ChildrenSize(h, k) + ChildNodeCount(h.children[..k]) == ChildNodeCount(h.children)
    decreases |h.children| - k
  {
    if k == |h.children| {
      assert h.children[..k] == h.children;
    } else {
      ChildrenSizeIsCount(h, k + 1);
      assert h.children[..k + 1][..k] == h.children[..k];
    }
  }

  /** The nodes held by a fold state: its kept children's and its found histories'. */
  function FoldSize<S, A, T>(f: Fold<S, A, T>): nat
  {
    ChildNodeCount(f.children) + NodeCount(f.found)
  }

  /** The nodes held by a search result: the returned history's and the found ones'. */
  function CoverSize<S, A, T>(c: Cover<S, A, T>): nat
  {
    (if c.returned.Some? then Size(c.returned.value) else 0) + NodeCount(c.found)
  }

  /**
   * The search loses and duplicates no node: the returned history and the
   * found ones together have exactly the nodes of the history searched.
   */
  lemma {:induction false} KCoverRecConserves<S, A, T>(g: CopilotCore.Game<S, A, T>, h: History<S, A>, targets: set<T>, player: Player)
    requires player != Chance
    ensures CoverSize(KCoverRec(g, h, targets, player)) == Size(h)
    decreases h, 1
  {
    var r := KCoverRec(g, h, targets, player);
    if h.Terminal? {
    } else if MatchesSome(g, g.trace(h.game, player), targets) {
      assert NodeCount([h]) == NodeCount([h][..0]) + Size(h);
    } else if h.Expanded? && MayLeadToMatch(g, g.trace(h.game, player), targets) {
      var f := ChildrenCover(g, h.children, 0, targets, player, Fold([], [], {}));
      ChildrenCoverConserves(g, h.children, 0, targets, player, Fold([], [], {}));
      ChildrenSizeIsCount(h, 0);
      var h' := Expanded(h.game, h.player, f.children, h.reach);
      ChildrenSizeIsCount(h', 0);
      assert h'.children[..0] == [] && h.children[..0] == [];
    }
  }

  /** The fold over the children from child k on adds exactly the nodes of those children. */
  lemma {:induction false} ChildrenCoverConserves<S, A, T>(g: CopilotCore.Game<S, A, T>, cs: seq<(A, History<S, A>)>, k: nat, targets: set<T>, player: Player,
                                                           acc: Fold<S, A, T>)
    requires player != Chance && k <= |cs|
    ensures FoldSize(ChildrenCover(g, cs, k, targets, player, acc)) + ChildNodeCount(cs[..k]) == FoldSize(acc) + ChildNodeCount(cs)
    decreases cs, |cs| - k
  {
    if k < |cs| {
      var pair := cs[k];
      assert pair in cs && pair.1 < pair;
      var child := pair.1;
      var c := KCoverRec(g, child, targets, player);
      KCoverRecConserves(g, child, targets, player);
      var next := FoldStep(acc, cs[k].0, c);
      if c.returned.Some? {
        assert next.children[..|next.children| - 1] == acc.children;
      }
      NodeCountAppend(acc.found, c.found);
      assert FoldSize(next) == FoldSize(acc) + Size(child);
      assert cs[..k + 1][..k] == cs[..k];
      ChildrenCoverConserves(g, cs, k + 1, targets, player, next);
    } else {
      assert cs[..k] == cs;
    }
  }

  /** The opponent's traces of a list of histories. */
  function OpponentTraces<S, A, T>(g: CopilotCore.Game<S, A, T>, hs: seq<History<S, A>>, opponent: Player): set<T>
  {
    if |hs| == 0 then {}
    else OpponentTraces(g, hs[..|hs| - 1], opponent) + {g.trace(hs[|hs| - 1].game, opponent)}
  }

  /** The opponent's traces are exactly the traces the opponent sees in the listed histories. */
  lemma {:induction false} OpponentTracesMembers<S, A, T>(g: CopilotCore.Game<S, A, T>, hs: seq<History<S, A>>, opponent: Player, t: T)
    ensures t in OpponentTraces(g, hs, opponent) <==> exists i :: 0 <= i < |hs| && g.trace(hs[i].game, opponent) == t
    decreases |hs|
  {
    if |hs| > 0 {
      OpponentTracesMembers(g, hs[..|hs| - 1], opponent, t);
      if t in OpponentTraces(g, hs[..|hs| - 1], opponent) {
        var i :| 0 <= i < |hs| - 1 && g.trace(hs[..|hs| - 1][i].game, opponent) == t;
        assert hs[i] == hs[..|hs| - 1][i];
      }
      if exists i :: 0 <= i < |hs| && g.trace(hs[i].game, opponent) == t {
        var i :| 0 <= i < |hs| && g.trace(hs[i].game, opponent) == t;
        if i < |hs| - 1 {
          assert hs[i] == hs[..|hs| - 1][i];
        }
      }
    }
  }

  lemma {:induction false} OpponentTracesAppend<S, A, T>(g: CopilotCore.Game<S, A, T>, a: seq<History<S, A>>, b: seq<History<S, A>>, opponent: Player)
    ensures OpponentTraces(g, a + b, opponent) == OpponentTraces(g, a, opponent) + OpponentTraces(g, b, opponent)
    decreases |b|
  {
    if |b| > 0 {
      assert (a + b)[..|a + b| - 1] == a + b[..|b| - 1];
      OpponentTracesAppend(g, a, b[..|b| - 1], opponent);
    } else {
      assert a + b == a;
    }
  }

  /** Every found history is non-Terminal and matches a search trace, and the traces to search next are exactly the found histories' opponent traces. */
  predicate FoundMatch<S, A, T>(g: CopilotCore.Game<S, A, T>, found: seq<History<S, A>>, traces: set<T>, targets: set<T>, player: Player)
  {
    (forall i :: 0 <= i < |found| ==> !found[i].Terminal? && MatchesSome(g, g.trace(found[i].game, player), targets)) &&
    traces == OpponentTraces(g, found, Other(player))
  }

  lemma {:induction false} FoundMatchAppend<S, A, T>(g: CopilotCore.Game<S, A, T>, a: seq<History<S, A>>, ta: set<T>,
                                                     b: seq<History<S, A>>, tb: set<T>, targets: set<T>, player: Player)
    requires FoundMatch(g, a, ta, targets, player) && FoundMatch(g, b, tb, targets, player)
    ensures FoundMatch(g, a + b, ta + tb, targets, player)
  {
    OpponentTracesAppend(g, a, b, Other(player));
    forall i | 0 <= i < |a + b|
      ensures !(a + b)[i].Terminal? && MatchesSome(g, g.trace((a + b)[i].game, player), targets)
    {
      if i >= |a| {
        assert (a + b)[i] == b[i - |a|];
      }
    }
  }

  /** What the search finds matches a search trace, and the next search traces are the opponent views of what it found. */
  lemma {:induction false} KCoverRecFinds<S, A, T>(g: CopilotCore.Game<S, A, T>, h: History<S, A>, targets: set<T>, player: Player)
    requires player != Chance
    ensures var r := KCoverRec(g, h, targets, player); FoundMatch(g, r.found, r.traces, targets, player)
    decreases h, 1
  {
    if !h.Terminal? && !MatchesSome(g, g.trace(h.game, player), targets) && h.Expanded? && MayLeadToMatch(g, g.trace(h.game, player), targets) {
      ChildrenCoverFinds(g, h.children, 0, targets, player, Fold([], [], {}));
    } else if !h.Terminal? && MatchesSome(g, g.trace(h.game, player), targets) {
      assert [h][..0] == [];
    }
  }

  lemma {:induction false} ChildrenCoverFinds<S, A, T>(g: CopilotCore.Game<S, A, T>, cs: seq<(A, History<S, A>)>, k: nat, targets: set<T>, player: Player,
                                                       acc: Fold<S, A, T>)
    requires player != Chance && k <= |cs|
    requires FoundMatch(g, acc.found, acc.traces, targets, player)
    ensures var r := ChildrenCover(g, cs, k, targets, player, acc); FoundMatch(g, r.found, r.traces, targets, player)
    decreases cs, |cs| - k
  {
    if k < |cs| {
      var pair := cs[k];
      assert pair in cs && pair.1 < pair;
      var c := KCoverRec(g, pair.1, targets, player);
      KCoverRecFinds(g, pair.1, targets, player);
      FoundMatchAppend(g, acc.found, acc.traces, c.found, c.traces, targets, player);
      ChildrenCoverFinds(g, cs, k + 1, targets, player, FoldStep(acc, cs[k].0, c));
    }
  }

  // ---------------------------------------------------------------------
  // k_cover

  /** The state of one round over a list of histories: the histories kept for the next round, the ones found, and the next search traces. */
  datatype Round<S, A, T> = Round(histories: seq<History<S, A>>, found: seq<History<S, A>>, traces: set<T>)

  /** Searching one more history in a round. */
  function RoundStep<S, A, T>(acc: Round<S, A, T>, c: Cover<S, A, T>): Round<S, A, T>
  {
    Round(if c.returned.Some? then acc.histories + [c.returned.value] else acc.histories,
          acc.found + c.found, acc.traces + c.traces)
  }

  /** One round of `k_cover`: every history searched in order, the results gathered. */
  function Pass<S, A, T>(g: CopilotCore.Game<S, A, T>, hs: seq<History<S, A>>, targets: set<T>, player: Player): Round<S, A, T>
    requires player != Chance
  {
    if |hs| == 0 then Round([], [], {})
    else RoundStep(Pass(g, hs[..|hs| - 1], targets, player), KCoverRec(g, hs[|hs| - 1], targets, player))
  }

  /** The state of `k_cover` after some rounds: the histories to search, the traces to search for, the player whose trace is compared, and everything found so far. */
  datatype Search<S, A, T> = Search(histories: seq<History<S, A>>, traces: set<T>, player: Player, found: seq<History<S, A>>)

  /** The state of `k_cover` after j rounds, the player alternating each round. */
  function Rounds<S, A, T>(g: CopilotCore.Game<S, A, T>, hs: seq<History<S, A>>, target: T, player: Player, j: nat): (r: Search<S, A, T>)
    requires player != Chance
    ensures r.player != Chance
  {
    if j == 0 then Search(hs, {target}, player, [])
    else
      var prev := Rounds(g, hs, target, player, j - 1);
      var p := Pass(g, prev.histories, prev.traces, prev.player);
      Search(p.histories, p.traces, CopilotOther(prev.player), prev.found + p.found)
  }

  /** `k_cover`: nothing when there are no histories or k is 0, else everything found in k rounds. */
  function KCover<S, A, T(==)>(g: CopilotCore.Game<S, A, T>, hs: seq<History<S, A>>, target: T, player: Player, k: nat): seq<History<S, A>>
    requires player != Chance
  {
    if |hs| == 0 || k == 0 then [] else Rounds(g, hs, target, player, k).found
  }

  /** `k_cover` as the source runs it: an outer loop over the rounds and an inner loop over the histories of the round. */
  method KCoverSearch<S, A, T(==)>(g: CopilotCore.Game<S, A, T>, roots: seq<History<S, A>>, target: T, player: Player, k: nat)
    returns (found: seq<History<S, A>>)
    requires player != Chance
    ensures found == KCover(g, roots, target, player, k)
  {
    if |roots| == 0 || k == 0 {
      return [];
    }
    var current := roots;
    var search := {target};
    var who := player;
    found := [];
    for j := 0 to k
      invariant Rounds(g, roots, target, player, j) == Search(current, search, who, found)
    {
      var next := Round([], [], {});
      for i := 0 to |current|
        invariant next == Pass(g, current[..i], search, who)
      {
        assert current[..i + 1][..i] == current[..i];
        next := RoundStep(next, KCoverRec(g, current[i], search, who));
      }
      assert current[..|current|] == current;
      found := found + next.found;
      current := next.histories;
      search := next.traces;
      who := CopilotOther(who);
    }
  }

  /** A round moves every node of its histories into exactly one place: a kept history or a found one. */
  lemma {:induction false} PassConserves<S, A, T>(g: CopilotCore.Game<S, A, T>, hs: seq<History<S, A>>, targets: set<T>, player: Player)
    requires player != Chance
    ensures var p := Pass(g, hs, targets, player); NodeCount(p.histories) + NodeCount(p.found) == NodeCount(hs)
    decreases |hs|
  {
    if |hs| > 0 {
      var prev := Pass(g, hs[..|hs| - 1], targets, player);
      var c := KCoverRec(g, hs[|hs| - 1], targets, player);
      PassConserves(g, hs[..|hs| - 1], targets, player);
      KCoverRecConserves(g, hs[|hs| - 1], targets, player);
      NodeCountAppend(prev.found, c.found);
      if c.returned.Some? {
        NodeCountAppend(prev.histories, [c.returned.value]);
        assert NodeCount([c.returned.value]) == NodeCount([c.returned.value][..0]) + Size(c.returned.value);
      }
    }
  }

  /** Across the rounds no node is lost or duplicated: the histories still searched and those found hold the nodes of the roots. */
  lemma {:induction false} RoundsConserve<S, A, T>(g: CopilotCore.Game<S, A, T>, hs: seq<History<S, A>>, target: T, player: Player, j: nat)
    requires player != Chance
    ensures var r := Rounds(g, hs, target, player, j); NodeCount(r.histories) + NodeCount(r.found) == NodeCount(hs)
  {
    if j > 0 {
      RoundsConserve(g, hs, target, player, j - 1);
      var prev := Rounds(g, hs, target, player, j - 1);
      var p := Pass(g, prev.histories, prev.traces, prev.player);
      PassConserves(g, prev.histories, prev.traces, prev.player);
      NextRoundConserves(prev, p, NodeCount(hs));
    } else {
      assert NodeCount(Rounds(g, hs, target, player, 0).found) == 0;
    }
  }

  /** One more round keeps the node count: what the round kept and found replaces what it searched. */
  lemma {:induction false} NextRoundConserves<S, A, T>(prev: Search<S, A, T>, p: Round<S, A, T>, n: nat)
    requires NodeCount(prev.histories) + NodeCount(prev.found) == n
    requires NodeCount(p.histories) + NodeCount(p.found) == NodeCount(prev.histories)
    ensures NodeCount(p.histories) + NodeCount(prev.found + p.found) == n
  {
    NodeCountAppend(prev.found, p.found);
  }

  /** `k_cover` returns no more nodes than the trees it searched. */
  lemma {:induction false} KCoverBounded<S, A, T>(g: CopilotCore.Game<S, A, T>, hs: seq<History<S, A>>, target: T, player: Player, k: nat)
    requires player != Chance
    ensures NodeCount(KCover(g, hs, target, player, k)) <= NodeCount(hs)
  {
    if |hs| > 0 && k > 0 {
      RoundsConserve(g, hs, target, player, k);
    }
  }

  /** The histories found in a round match its search traces, and the next round searches exactly their opponent's traces. */
  lemma {:induction false} PassFinds<S, A, T>(g: CopilotCore.Game<S, A, T>, hs: seq<History<S, A>>, targets: set<T>, player: Player)
    requires player != Chance
    ensures var p := Pass(g, hs, targets, player); FoundMatch(g, p.found, p.traces, targets, player)
    decreases |hs|
  {
    if |hs| > 0 {
      var prev := Pass(g, hs[..|hs| - 1], targets, player);
      var c := KCoverRec(g, hs[|hs| - 1], targets, player);
      PassFinds(g, hs[..|hs| - 1], targets, player);
      KCoverRecFinds(g, hs[|hs| - 1], targets, player);
      FoundMatchAppend(g, prev.found, prev.traces, c.found, c.traces, targets, player);
    } else {
      assert OpponentTraces(g, [], Other(player)) == {};
    }
  }

  /**
   * Knowledge order 1: with k = 1, `k_cover` returns histories in which the
   * player's own trace equals the target trace.
   */
  lemma {:induction false} KCoverFirstOrder<S, A, T>(g: CopilotCore.Game<S, A, T>, hs: seq<History<S, A>>, target: T, player: Player)
    requires player != Chance
    ensures var found := KCover(g, hs, target, player, 1);
      forall i :: 0 <= i < |found| ==>
        !found[i].Terminal? && g.compare(g.trace(found[i].game, player), target) == Some(Equal)
  {
    if |hs| > 0 {
      var p := Pass(g, hs, {target}, player);
      PassFinds(g, hs, {target}, player);
      var r0 := Rounds(g, hs, target, player, 0);
      assert r0 == Search(hs, {target}, player, []);
      assert Rounds(g, hs, target, player, 1).found == r0.found + Pass(g, r0.histories, r0.traces, r0.player).found;
      assert r0.found + p.found == p.found;
      forall i | 0 <= i < |p.found|
        ensures g.compare(g.trace(p.found[i].game, player), target) == Some(Equal)
      {
        MatchesSingle(g, g.trace(p.found[i].game, player), target);
      }
    }
  }

  lemma {:induction false} MatchesSingle<S, A, T>(g: CopilotCore.Game<S, A, T>, my: T, target: T)
    requires MatchesSome(g, my, {target})
    ensures g.compare(my, target) == Some(Equal)
  {
  }

  /** Searching one more round keeps everything found so far, in order: the knowledge order only widens the cover. */
  lemma {:induction false} KCoverGrows<S, A, T>(g: CopilotCore.Game<S, A, T>, hs: seq<History<S, A>>, target: T, player: Player, k: nat)
    requires player != Chance
    ensures KCover(g, hs, target, player, k) <= KCover(g, hs, target, player, k + 1)
  {
  }

  // ---------------------------------------------------------------------
  // construct_subgame, step 2: normalising the covered histories

  /** The net reach probabilities of a list of histories. */
  function NetProbs<S, A>(hs: seq<History<S, A>>): (ps: seq<real>)
    ensures |ps| == |hs| && forall i :: 0 <= i < |hs| ==> ps[i] == NetReachProb(hs[i])
  {
    seq(|hs|, i requires 0 <= i < |hs| => NetReachProb(hs[i]))
  }

  /** The reach entries one player holds in a list of histories. */
  function PlayerReach<S, A>(hs: seq<History<S, A>>, player: Player): (ps: seq<real>)
    ensures |ps| == |hs| && forall i :: 0 <= i < |hs| ==> ps[i] == Get(hs[i].reach, player)
  {
    seq(|hs|, i requires 0 <= i < |hs| => Get(hs[i].reach, player))
  }

  /** When the net reach probabilities have a positive total, each history's entry for `player` becomes its share of that total. */
  function Normalize<S, A>(hs: seq<History<S, A>>, player: Player): seq<History<S, A>>
  {
    var total := Sum(NetProbs(hs));
    if total > 0.0 then seq(|hs|, i requires 0 <= i < |hs| => SetReachProb(hs[i], player, NetReachProb(hs[i]) / total))
    else hs
  }

  /** The net reach probabilities of a non-empty list have a positive total: each is at least 1e-12. */
  lemma {:induction false} NetProbsPositive<S, A>(hs: seq<History<S, A>>)
    requires |hs| > 0
    ensures Sum(NetProbs(hs)) > 0.0
  {
    var ps := NetProbs(hs);
    SumNonNegative(ps[..|ps| - 1]);
  }

  /** Normalisation only rewrites the player's reach entries: games, payoffs, children and the other entries stay. */
  lemma {:induction false} NormalizeFrame<S, A>(hs: seq<History<S, A>>, player: Player)
    ensures var r := Normalize(hs, player);
      |r| == |hs| &&
      forall i :: 0 <= i < |hs| ==>
        r[i] == hs[i].(reach := r[i].reach) && forall q :: q != player ==> Get(r[i].reach, q) == Get(hs[i].reach, q)
  {
  }

  /**
   * A non-empty list comes out of normalisation with each history's entry
   * for the player equal to its share of the total net reach, so that
   * those entries form a distribution.
   */
  lemma {:induction false} NormalizeDistribution<S, A>(hs: seq<History<S, A>>, player: Player)
    requires |hs| > 0
    ensures var r := Normalize(hs, player); var total := Sum(NetProbs(hs));
      total > 0.0 && |r| == |hs| &&
      (forall i :: 0 <= i < |hs| ==> Get(r[i].reach, player) == NetReachProb(hs[i]) / total) &&
      IsDistribution(PlayerReach(r, player))
  {
    var total := Sum(NetProbs(hs));
    NetProbsPositive(hs);
    var r := Normalize(hs, player);
    var ps := PlayerReach(r, player);
    var shares := Divided(NetProbs(hs), total);
    forall i | 0 <= i < |hs|
      ensures ps[i] == shares[i] && ps[i] >= 0.0
    {
      assert r[i] == SetReachProb(hs[i], player, NetReachProb(hs[i]) / total);
      DivNonNegative(NetReachProb(hs[i]), total);
    }
    assert ps == shares;
    SumDivided(NetProbs(hs), total);
  }

  lemma {:induction false} DivNonNegative(x: real, d: real)
    requires x >= 0.0 && d > 0.0
    ensures x / d >= 0.0
  {
  }

  /** Step 2 of `construct_subgame` as the source runs it: one loop sums the net reach, a second rewrites each history in place. */
  method NormalizeReach<S, A>(hs: seq<History<S, A>>, player: Player) returns (r: seq<History<S, A>>)
    ensures r == Normalize(hs, player)
  {
    var total := 0.0;
    ghost var ps := NetProbs(hs);
    for i := 0 to |hs|
      invariant total == Sum(ps[..i])
    {
      assert ps[..i + 1][..i] == ps[..i];
      total := total + NetReachProb(hs[i]);
    }
    assert ps[..|hs|] == ps;
    r := hs;
    if total > 0.0 {
      for i := 0 to |hs|
        invariant |r| == |hs|
        invariant forall j :: 0 <= j < i ==> r[j] == SetReachProb(hs[j], player, NetReachProb(hs[j]) / total)
        invariant forall j :: i <= j < |hs| ==> r[j] == hs[j]
      {
        r := r[i := SetReachProb(r[i], player, NetReachProb(r[i]) / total)];
      }
    }
  }

  // ---------------------------------------------------------------------
  // construct_subgame, step 3: grouping by the opponent's trace

  /** One history to be grouped: its key (the opponent's trace), its probability, its value. */
  datatype Entry<T, H> = Entry(key: T, prob: real, value: real, history: H)

  /**
   * `entry(key).and_modify(..).or_insert(..)`: an existing group adds the
   * probability, moves its value to the running mean including the new
   * value, and appends the history; otherwise a group of just this entry
   * is appended.
   */
  function Upsert<T(==), H>(pos: SG.Positions<T, H>, e: Entry<T, H>): SG.Positions<T, H>
  {
    var i := SG.KeyIndex(pos, e.key);
    if i < |pos| then
      var grp := pos[i].1;
      pos[i := (e.key, SG.Pre(grp.prob + e.prob, RunningMean(grp.alt, |grp.histories|, e.value), grp.histories + [e.history]))]
    else pos + [(e.key, SG.Pre(e.prob, e.value, [e.history]))]
  }

  /** The mean of n values moved to include one more value. */
  function RunningMean(mean: real, n: nat, v: real): real
  {
    (mean * (n as real) + v) / (n as real + 1.0)
  }

  /** Upserting a list of entries in order. */
  function UpsertAll<T(==), H>(pos: SG.Positions<T, H>, es: seq<Entry<T, H>>): SG.Positions<T, H>
  {
    if |es| == 0 then pos else Upsert(UpsertAll(pos, es[..|es| - 1]), es[|es| - 1])
  }

  /** The entries with the given key, in order. */
  ghost function Select<T, H>(es: seq<Entry<T, H>>, key: T): seq<Entry<T, H>>
  {
    if |es| == 0 then []
    else Select(es[..|es| - 1], key) + (if es[|es| - 1].key == key then [es[|es| - 1]] else [])
  }

  function Histories<T, H>(es: seq<Entry<T, H>>): (hs: seq<H>)
    ensures |hs| == |es| && forall i :: 0 <= i < |es| ==> hs[i] == es[i].history
  {
    seq(|es|, i requires 0 <= i < |es| => es[i].history)
  }

  function Probs<T, H>(es: seq<Entry<T, H>>): (ps: seq<real>)
    ensures |ps| == |es| && forall i :: 0 <= i < |es| ==> ps[i] == es[i].prob
  {
    seq(|es|, i requires 0 <= i < |es| => es[i].prob)
  }

  function Values<T, H>(es: seq<Entry<T, H>>): (vs: seq<real>)
    ensures |vs| == |es| && forall i :: 0 <= i < |es| ==> vs[i] == es[i].value
  {
    seq(|es|, i requires 0 <= i < |es| => es[i].value)
  }

  /** A group summarises its entries: their histories in order, their summed probability, the mean of their values. */
  ghost predicate Summarises<T, H>(grp: SG.Pre<H>, sel: seq<Entry<T, H>>)
  {
    |sel| > 0 && grp.histories == Histories(sel) && grp.prob == Sum(Probs(sel)) && grp.alt == Mean(Values(sel))
  }

  /** The positions group the entries: keys are distinct, each group summarises the entries with its key, and every entry's key has a group. */
  ghost predicate Grouped<T, H>(pos: SG.Positions<T, H>, es: seq<Entry<T, H>>)
  {
    SG.DistinctKeys(pos) &&
    (forall j :: 0 <= j < |pos| ==> Summarises(pos[j].1, Select(es, pos[j].0))) &&
    (forall i :: 0 <= i < |es| ==> SG.KeyIndex(pos, es[i].key) < |pos|)
  }

  lemma {:induction false} SelectSnoc<T, H>(es: seq<Entry<T, H>>, e: Entry<T, H>, key: T)
    ensures Select(es + [e], key) == Select(es, key) + (if e.key == key then [e] else [])
  {
    assert (es + [e])[..|es|] == es;
  }

  /** No entry has the key: nothing is selected. */
  lemma {:induction false} SelectAbsent<T, H>(es: seq<Entry<T, H>>, key: T)
    requires forall i :: 0 <= i < |es| ==> es[i].key != key
    ensures Select(es, key) == []
  {
    if |es| > 0 {
      SelectAbsent(es[..|es| - 1], key);
    }
  }

  /** The running mean: the mean of n > 0 values and one more is (mean * n + value) / (n + 1). */
  lemma {:induction false} MeanSnoc(vs: seq<real>, v: real)
    requires |vs| > 0
    ensures Mean(vs + [v]) == RunningMean(Mean(vs), |vs|, v)
  {
    var n := |vs| as real;
    SumAppend(vs, [v]);
    SumSingle(v);
    assert Mean(vs) * n == Sum(vs);
  }

  /** Two position lists with the same keys agree on every key's index. */
  lemma {:induction false} KeyIndexSameKeys<T, H>(pos: SG.Positions<T, H>, pos': SG.Positions<T, H>, key: T)
    requires |pos'| == |pos| && forall j :: 0 <= j < |pos| ==> pos'[j].0 == pos[j].0
    ensures SG.KeyIndex(pos', key) == SG.KeyIndex(pos, key)
  {
    if |pos| > 0 && pos[0].0 != key {
      KeyIndexSameKeys(pos[1..], pos'[1..], key);
    }
  }

  /** Appending a group leaves the index of every key already present, and gives the appended key its place at the end. */
  lemma {:induction false} KeyIndexAppend<T, H>(pos: SG.Positions<T, H>, x: (T, SG.Pre<H>), key: T)
    ensures SG.KeyIndex(pos, key) < |pos| ==> SG.KeyIndex(pos + [x], key) == SG.KeyIndex(pos, key)
    ensures SG.KeyIndex(pos, key) == |pos| && x.0 == key ==> SG.KeyIndex(pos + [x], key) == |pos|
  {
    if |pos| > 0 && pos[0].0 != key {
      assert (pos + [x])[1..] == pos[1..] + [x];
      KeyIndexAppend(pos[1..], x, key);
    }
  }

  /** The groups of a summarised selection, extended by one entry of the same key. */
  lemma {:induction false} SummarisesSnoc<T, H>(grp: SG.Pre<H>, sel: seq<Entry<T, H>>, e: Entry<T, H>)
    requires Summarises(grp, sel)
    ensures Summarises(SG.Pre(grp.prob + e.prob, RunningMean(grp.alt, |grp.histories|, e.value), grp.histories + [e.history]), sel + [e])
  {
    assert Histories(sel + [e]) == Histories(sel) + [e.history];
    assert Probs(sel + [e]) == Probs(sel) + [e.prob];
    assert Values(sel + [e]) == Values(sel) + [e.value];
    SumAppend(Probs(sel), [e.prob]);
    SumSingle(e.prob);
    MeanSnoc(Values(sel), e.value);
  }

  /** A group of one entry summarises it. */
  lemma {:induction false} SummarisesSingle<T, H>(e: Entry<T, H>)
    ensures Summarises(SG.Pre(e.prob, e.value, [e.history]), [e])
  {
    assert Histories([e]) == [e.history];
    assert Probs([e]) == [e.prob];
    assert Values([e]) == [e.value];
    SumSingle(e.prob);
    SumSingle(e.value);
  }

  /** An entry of another key leaves a group's selection as it was. */
  lemma {:induction false} GroupUnchanged<T, H>(grp: SG.Pre<H>, es: seq<Entry<T, H>>, e: Entry<T, H>, key: T)
    requires Summarises(grp, Select(es, key)) && e.key != key
    ensures Summarises(grp, Select(es + [e], key))
  {
    SelectSnoc(es, e, key);
    assert Select(es, key) + [] == Select(es, key);
  }

  /** Upserting an entry whose key has a group keeps the positions grouping the entries, now with the new one. */
  lemma {:induction false} UpsertExisting<T, H>(pos: SG.Positions<T, H>, es: seq<Entry<T, H>>, e: Entry<T, H>)
    requires Grouped(pos, es) && SG.KeyIndex(pos, e.key) < |pos|
    ensures Grouped(Upsert(pos, e), es + [e])
  {
    var i := SG.KeyIndex(pos, e.key);
    var pos' := Upsert(pos, e);
    var es' := es + [e];
    forall j | 0 <= j < |pos'|
      ensures Summarises(pos'[j].1, Select(es', pos'[j].0))
    {
      if j == i {
        SelectSnoc(es, e, e.key);
        SummarisesSnoc(pos[i].1, Select(es, e.key), e);
      } else {
        assert pos'[j] == pos[j] && pos[j].0 != pos[i].0;
        GroupUnchanged(pos[j].1, es, e, pos[j].0);
      }
    }
    forall k | 0 <= k < |es'|
      ensures SG.KeyIndex(pos', es'[k].key) < |pos'|
    {
      KeyIndexSameKeys(pos, pos', es'[k].key);
    }
  }

  /** Upserting an entry with a new key appends its group and keeps the positions grouping the entries, now with the new one. */
  lemma {:induction false} UpsertNew<T, H>(pos: SG.Positions<T, H>, es: seq<Entry<T, H>>, e: Entry<T, H>)
    requires Grouped(pos, es) && SG.KeyIndex(pos, e.key) == |pos|
    ensures Grouped(Upsert(pos, e), es + [e])
  {
    var pos' := Upsert(pos, e);
    var es' := es + [e];
    UpsertCount(pos, e);
    forall i | 0 <= i < |es|
      ensures es[i].key != e.key
    {
    }
    SelectAbsent(es, e.key);
    forall j | 0 <= j < |pos'|
      ensures Summarises(pos'[j].1, Select(es', pos'[j].0))
    {
      if j == |pos| {
        SelectSnoc(es, e, e.key);
        SummarisesSingle(e);
      } else {
        assert pos'[j] == pos[j] && pos[j].0 != e.key;
        GroupUnchanged(pos[j].1, es, e, pos[j].0);
      }
    }
    forall k | 0 <= k < |es'|
      ensures SG.KeyIndex(pos', es'[k].key) < |pos'|
    {
      KeyIndexAppend(pos, (e.key, SG.Pre(e.prob, e.value, [e.history])), es'[k].key);
    }
  }

  /** Upserting keeps the grouping invariant and adds one history. */
  lemma {:induction false} UpsertProperties<T, H>(pos: SG.Positions<T, H>, es: seq<Entry<T, H>>, e: Entry<T, H>)
    requires Grouped(pos, es)
    ensures Grouped(Upsert(pos, e), es + [e])
    ensures SG.TotalHistories(Upsert(pos, e)) == SG.TotalHistories(pos) + 1
  {
    if SG.KeyIndex(pos, e.key) < |pos| {
      UpsertExisting(pos, es, e);
    } else {
      UpsertNew(pos, es, e);
    }
    UpsertCount(pos, e);
  }

  /** Upserting keeps the keys distinct and adds one history: it places histories exactly as the grouping of the subgame module does. */
  lemma {:induction false} UpsertCount<T, H>(pos: SG.Positions<T, H>, e: Entry<T, H>)
    requires SG.DistinctKeys(pos)
    ensures SG.DistinctKeys(Upsert(pos, e)) && SG.TotalHistories(Upsert(pos, e)) == SG.TotalHistories(pos) + 1
  {
    var start := SG.Pre(e.prob, e.value, [e.history]);
    SG.InsertProperties(pos, e.key, e.history, e.prob, start);
    assert SG.Lengths(Upsert(pos, e)) == SG.Lengths(SG.Insert(pos, e.key, e.history, e.prob, start));
  }

  lemma {:induction false} SnocOfPrefix<X>(before: seq<X>, es: seq<X>)
    requires |es| > 0
    ensures before + es[..|es| - 1] + [es[|es| - 1]] == before + es
  {
    assert es[..|es| - 1] + [es[|es| - 1]] == es;
  }

  /**
   * Upserting entries one by one into positions that group earlier
   * entries groups all of them, and adds one history per entry.
   */
  lemma {:induction false} UpsertAllProperties<T, H>(pos: SG.Positions<T, H>, before: seq<Entry<T, H>>, es: seq<Entry<T, H>>)
    requires Grouped(pos, before)
    ensures Grouped(UpsertAll(pos, es), before + es)
    ensures SG.TotalHistories(UpsertAll(pos, es)) == SG.TotalHistories(pos) + |es|
  {
    if |es| == 0 {
      assert before + es == before;
    } else {
      var n := |es| - 1;
      var mid := before + es[..n];
      UpsertAllProperties(pos, before, es[..n]);
      UpsertProperties(UpsertAll(pos, es[..n]), mid, es[n]);
      SnocOfPrefix(before, es);
    }
  }

  /** A covered history's entry: keyed by the opponent's trace, with its net reach and its value. */
  function CoveredEntry<S, A, T>(g: CopilotCore.Game<S, A, T>, h: History<S, A>, player: Player): Entry<T, History<S, A>>
    requires player != Chance
  {
    Entry(g.trace(h.game, CopilotOther(player)), NetReachProb(h), CR.HistoryValue(g, h), h)
  }

  function CoveredEntries<S, A, T>(g: CopilotCore.Game<S, A, T>, hs: seq<History<S, A>>, player: Player): (es: seq<Entry<T, History<S, A>>>)
    requires player != Chance
    ensures |es| == |hs| && forall i :: 0 <= i < |hs| ==> es[i] == CoveredEntry(g, hs[i], player)
  {
    seq(|hs|, i requires 0 <= i < |hs| => CoveredEntry(g, hs[i], player))
  }

  /** Step 3 of `construct_subgame` as the source runs it: one upsert per covered history, in order. */
  method GroupByOpponent<S, A, T(==)>(g: CopilotCore.Game<S, A, T>, hs: seq<History<S, A>>, player: Player)
    returns (pos: CR.Positions<S, A, T>)
    requires player != Chance
    ensures pos == UpsertAll([], CoveredEntries(g, hs, player))
  {
    ghost var es := CoveredEntries(g, hs, player);
    pos := [];
    for i := 0 to |hs|
      invariant pos == UpsertAll([], es[..i])
    {
      assert es[..i + 1][..i] == es[..i];
      pos := Upsert(pos, CoveredEntry(g, hs[i], player));
    }
    assert es[..|hs|] == es;
  }

  /**
   * Grouping the covered histories: distinct opponent traces, each group
   * holding exactly the histories with its trace in order, with their
   * summed net reach and the mean of their values, and every history in
   * some group.
   */
  lemma {:induction false} GroupByOpponentProperties<S, A, T>(g: CopilotCore.Game<S, A, T>, hs: seq<History<S, A>>, player: Player)
    requires player != Chance
    ensures var es := CoveredEntries(g, hs, player); var pos := UpsertAll([], es);
      Grouped(pos, es) && SG.TotalHistories(pos) == |hs|
  {
    var es := CoveredEntries(g, hs, player);
    var empty: CR.Positions<S, A, T> := [];
    var none: seq<Entry<T, History<S, A>>> := [];
    assert Grouped(empty, none);
    UpsertAllProperties(empty, none, es);
    assert none + es == es;
    assert SG.TotalHistories(empty) == 0;
  }

  // ---------------------------------------------------------------------
  // sample_additional_positions

  /** The game identifiers of every history in the positions. */
  function PositionIds<S, A, T>(g: CopilotCore.Game<S, A, T>, pos: CR.Positions<S, A, T>): set<nat>
  {
    set j, m | 0 <= j < |pos| && 0 <= m < |pos[j].1.histories| :: g.identifier(pos[j].1.histories[m].game)
  }

  lemma {:induction false} TotalHistoriesNonNegative<T, H>(pos: SG.Positions<T, H>)
    ensures SG.TotalHistories(pos) >= 0
  {
    var ls := SG.Lengths(pos);
    SumIntNonNegative(ls);
  }

  lemma {:induction false} SumIntNonNegative(s: seq<int>)
    requires forall i :: 0 <= i < |s| ==> s[i] >= 0
    ensures SumInt(s) >= 0
  {
    if |s| > 0 {
      SumIntNonNegative(s[..|s| - 1]);
    }
  }

  /** A sampled position's entry: keyed by the opponent's trace, with the uniform probability 1/min and the game's evaluation. */
  function SampledEntry<S, A, T>(g: CopilotCore.Game<S, A, T>, s: S, player: Player, min: nat): Entry<T, History<S, A>>
    requires player != Chance && min > 0
  {
    Entry(g.trace(s, CopilotOther(player)), 1.0 / (min as real), g.evaluate(s), NewHistory(g, s))
  }

  function SampledEntries<S, A, T>(g: CopilotCore.Game<S, A, T>, ss: seq<S>, player: Player, min: nat): (es: seq<Entry<T, History<S, A>>>)
    requires player != Chance && min > 0
    ensures |es| == |ss| && forall i :: 0 <= i < |ss| ==> es[i] == SampledEntry(g, ss[i], player, min)
  {
    seq(|ss|, i requires 0 <= i < |ss| => SampledEntry(g, ss[i], player, min))
  }

  /** The positions after sampling, and the sampled games that were added, in order. */
  datatype Sampled<S, A, T> = Sampled(pos: CR.Positions<S, A, T>, added: seq<S>)

  /**
   * The games the sampling loop adds from sample k on, with `count`
   * positions added so far: stop once `needed` are added or the sampler is
   * exhausted; skip a game whose identifier is in `skip`; otherwise add it.
   * With `remember`, an added game's identifier joins `skip`; the source
   * never updates its set of identifiers (`remember` false).
   */
  function Chosen<S, A, T>(g: CopilotCore.Game<S, A, T>, samples: seq<S>, k: nat, skip: set<nat>, remember: bool,
                           count: nat, needed: int): seq<S>
    requires k <= |samples|
    decreases |samples| - k
  {
    if count >= needed || k == |samples| then []
    else
      var s := samples[k];
      var id := g.identifier(s);
      if id in skip then Chosen(g, samples, k + 1, skip, remember, count, needed)
      else [s] + Chosen(g, samples, k + 1, Remember(skip, id, remember), remember, count + 1, needed)
  }

  /** The sampling loop from sample k on: the games it adds, each game's entry upserted in the order they are added. */
  function SampleFrom<S, A, T(==)>(g: CopilotCore.Game<S, A, T>, pos: CR.Positions<S, A, T>, samples: seq<S>, k: nat,
                                   skip: set<nat>, remember: bool, count: nat, needed: int, player: Player, min: nat): Sampled<S, A, T>
    requires player != Chance && min > 0 && k <= |samples|
  {
    var added := Chosen(g, samples, k, skip, remember, count, needed);
    Sampled(UpsertAll(pos, SampledEntries(g, added, player, min)), added)
  }

  /** The identifiers to skip after adding a game: its own is added only when the sampler remembers it. */
  function Remember(skip: set<nat>, id: nat, remember: bool): (r: set<nat>)
    ensures remember ==> r == skip + {id}
    ensures !remember ==> r == skip
  {
    if remember then skip + {id} else skip
  }

  /** The groups' probabilities, in order. */
  function GroupProbs<T, H>(pos: SG.Positions<T, H>): (ps: seq<real>)
    ensures |ps| == |pos| && forall j :: 0 <= j < |pos| ==> ps[j] == pos[j].1.prob
  {
    seq(|pos|, j requires 0 <= j < |pos| => pos[j].1.prob)
  }

  /** When the group probabilities have a positive total, each is divided by it. */
  function Renormalize<T, H>(pos: SG.Positions<T, H>): SG.Positions<T, H>
  {
    var total := Sum(GroupProbs(pos));
    if total > 0.0 then seq(|pos|, j requires 0 <= j < |pos| => (pos[j].0, pos[j].1.(prob := pos[j].1.prob / total)))
    else pos
  }

  /**
   * `sample_additional_positions` with the sampler given as the finite
   * sequence of games it yields: nothing happens when no position is
   * needed; otherwise up to min - count sampled games are added, skipping
   * identifiers already present, and the group probabilities are
   * renormalised.
   */
  function SampleAdditionalWith<S, A, T(==)>(g: CopilotCore.Game<S, A, T>, pos: CR.Positions<S, A, T>, samples: seq<S>,
                                             player: Player, min: nat, remember: bool): Sampled<S, A, T>
    requires player != Chance
  {
    var count := SG.TotalHistories(pos);
    var needed := if min > count then min - count else 0;
    if needed == 0 then Sampled(pos, [])
    else
      var r := SampleMissing(g, pos, samples, player, min, remember);
      Sampled(Renormalize(r.pos), r.added)
  }

  /** The sampler run for the histories missing below `min`, skipping the identifiers present, before the renormalisation. */
  function SampleMissing<S, A, T(==)>(g: CopilotCore.Game<S, A, T>, pos: CR.Positions<S, A, T>, samples: seq<S>,
                                      player: Player, min: nat, remember: bool): Sampled<S, A, T>
    requires player != Chance && SG.TotalHistories(pos) < min
  {
    TotalHistoriesNonNegative(pos);
    SampleFrom(g, pos, samples, 0, PositionIds(g, pos), remember, 0, min - SG.TotalHistories(pos), player, min)
  }

  /** `sample_additional_positions` as written: the identifiers to skip are only those present before sampling. */
  function SampleAdditionalAsWritten<S, A, T(==)>(g: CopilotCore.Game<S, A, T>, pos: CR.Positions<S, A, T>, samples: seq<S>,
                                                  player: Player, min: nat): Sampled<S, A, T>
    requires player != Chance
  {
    SampleAdditionalWith(g, pos, samples, player, min, false)
  }

  /** `sample_additional_positions` as intended: every added identifier is skipped from then on as well. */
  function SampleAdditional<S, A, T(==)>(g: CopilotCore.Game<S, A, T>, pos: CR.Positions<S, A, T>, samples: seq<S>,
                                         player: Player, min: nat): Sampled<S, A, T>
    requires player != Chance
  {
    SampleAdditionalWith(g, pos, samples, player, min, true)
  }

  /** No game of the list has an identifier in the set. */
  predicate AvoidIds<S, A, T>(g: CopilotCore.Game<S, A, T>, ss: seq<S>, ids: set<nat>)
  {
    forall i :: 0 <= i < |ss| ==> g.identifier(ss[i]) !in ids
  }

  /** The identifiers of a list of games are pairwise distinct. */
  predicate DistinctIds<S, A, T>(g: CopilotCore.Game<S, A, T>, ss: seq<S>)
  {
    forall i, j :: 0 <= i < j < |ss| ==> g.identifier(ss[i]) != g.identifier(ss[j])
  }

  lemma {:induction false} ConsAssociates<X>(a: seq<X>, x: X, b: seq<X>)
    ensures a + [x] + b == a + ([x] + b)
  {
  }

  /** Adding the k-th sample moves it from the rest of the run to the games already added. */
  lemma {:induction false} ChosenTakeStep<S, A, T>(g: CopilotCore.Game<S, A, T>, samples: seq<S>, k: nat, skip: set<nat>,
                                                   count: nat, needed: int, added: seq<S>)
    requires k < |samples| && count < needed && g.identifier(samples[k]) !in skip
    ensures var s := samples[k];
      added + Chosen(g, samples, k, skip, true, count, needed)
        == (added + [s]) + Chosen(g, samples, k + 1, skip + {g.identifier(s)}, true, count + 1, needed)
  {
    ConsAssociates(added, samples[k], Chosen(g, samples, k + 1, skip + {g.identifier(samples[k])}, true, count + 1, needed));
  }

  /** Upserting one more entry after a list of them is upserting the longer list. */
  lemma {:induction false} UpsertAllSnoc<T, H>(pos: SG.Positions<T, H>, es: seq<Entry<T, H>>, e: Entry<T, H>)
    ensures UpsertAll(pos, es + [e]) == Upsert(UpsertAll(pos, es), e)
  {
    assert (es + [e])[..|es|] == es;
  }

  /** The entries of one more sampled game follow those of the earlier ones. */
  lemma {:induction false} SampledEntriesSnoc<S, A, T>(g: CopilotCore.Game<S, A, T>, ss: seq<S>, s: S, player: Player, min: nat)
    requires player != Chance && min > 0
    ensures SampledEntries(g, ss + [s], player, min) == SampledEntries(g, ss, player, min) + [SampledEntry(g, s, player, min)]
  {
  }

  /** Upserting entries one by one over distinct keys keeps the keys distinct and adds one history per entry. */
  lemma {:induction false} UpsertAllCount<T, H>(pos: SG.Positions<T, H>, es: seq<Entry<T, H>>)
    requires SG.DistinctKeys(pos)
    ensures SG.DistinctKeys(UpsertAll(pos, es)) && SG.TotalHistories(UpsertAll(pos, es)) == SG.TotalHistories(pos) + |es|
  {
    if |es| > 0 {
      UpsertAllCount(pos, es[..|es| - 1]);
      UpsertCount(UpsertAll(pos, es[..|es| - 1]), es[|es| - 1]);
    }
  }

  /** The sampling loop adds no more games than it needs. */
  lemma {:induction false} ChosenCount<S, A, T>(g: CopilotCore.Game<S, A, T>, samples: seq<S>, k: nat, skip: set<nat>,
                                                remember: bool, count: nat, needed: int)
    requires k <= |samples| && count <= needed
    ensures count + |Chosen(g, samples, k, skip, remember, count, needed)| <= needed
    decreases |samples| - k
  {
    if count < needed && k < |samples| {
      var id := g.identifier(samples[k]);
      if id in skip {
        ChosenCount(g, samples, k + 1, skip, remember, count, needed);
      } else {
        ChosenCount(g, samples, k + 1, Remember(skip, id, remember), remember, count + 1, needed);
      }
    }
  }

  /**
   * No added game has an identifier in the skip set; when added
   * identifiers are remembered, the added games' identifiers are also
   * pairwise distinct.
   */
  lemma {:induction false} ChosenSkips<S, A, T>(g: CopilotCore.Game<S, A, T>, samples: seq<S>, k: nat, skip: set<nat>,
                                                remember: bool, count: nat, needed: int)
    requires k <= |samples|
    ensures var added := Chosen(g, samples, k, skip, remember, count, needed);
      AvoidIds(g, added, skip) && (remember ==> DistinctIds(g, added))
    decreases |samples| - k
  {
    if count < needed && k < |samples| {
      var s := samples[k];
      var id := g.identifier(s);
      if id in skip {
        ChosenSkips(g, samples, k + 1, skip, remember, count, needed);
      } else {
        var skip' := Remember(skip, id, remember);
        ChosenSkips(g, samples, k + 1, skip', remember, count + 1, needed);
        var rest := Chosen(g, samples, k + 1, skip', remember, count + 1, needed);
        var added := [s] + rest;
        assert AvoidIds(g, rest, skip');
        forall i | 0 <= i < |added|
          ensures g.identifier(added[i]) !in skip
        {
          if i > 0 {
            assert added[i] == rest[i - 1];
          }
        }
        if remember {
          forall i, j | 0 <= i < j < |added|
            ensures g.identifier(added[i]) != g.identifier(added[j])
          {
            assert added[j] == rest[j - 1];
            if i > 0 {
              assert added[i] == rest[i - 1];
            }
          }
        }
      }
    }
  }

  /** Renormalising keeps every group's key, histories and value, and when the probabilities have a positive total makes them sum to 1. */
  lemma {:induction false} RenormalizeProperties<T, H>(pos: SG.Positions<T, H>)
    ensures var r := Renormalize(pos); var total := Sum(GroupProbs(pos));
      |r| == |pos| &&
      (forall j :: 0 <= j < |pos| ==> r[j].0 == pos[j].0 && r[j].1.histories == pos[j].1.histories && r[j].1.alt == pos[j].1.alt) &&
      (total > 0.0 ==> Sum(GroupProbs(r)) == 1.0 && forall j :: 0 <= j < |pos| ==> r[j].1.prob == pos[j].1.prob / total)
  {
    var total := Sum(GroupProbs(pos));
    if total > 0.0 {
      assert GroupProbs(Renormalize(pos)) == Divided(GroupProbs(pos), total);
      SumDivided(GroupProbs(pos), total);
    }
  }

  /**
   * `sample_additional_positions`, as written or as intended: nothing
   * changes when enough positions are present; otherwise at most
   * min - count games are added, one history each, the keys stay
   * distinct, and when the group probabilities total more than 0 they
   * sum to 1.
   */
  lemma {:induction false} SampleAdditionalCounts<S, A, T>(g: CopilotCore.Game<S, A, T>, pos: CR.Positions<S, A, T>, samples: seq<S>,
                                        player: Player, min: nat, remember: bool)
    requires player != Chance && SG.DistinctKeys(pos)
    ensures var r := SampleAdditionalWith(g, pos, samples, player, min, remember); var count := SG.TotalHistories(pos);
      SG.TotalHistories(r.pos) == count + |r.added| &&
      (count >= min ==> r == Sampled(pos, [])) &&
      (count < min ==> count + |r.added| <= min) &&
      SG.DistinctKeys(r.pos)
  {
    var count := SG.TotalHistories(pos);
    TotalHistoriesNonNegative(pos);
    if count < min {
      var q := SampleMissing(g, pos, samples, player, min, remember);
      SampleMissingCounts(g, pos, samples, player, min, remember);
      SampleAdditionalMissing(g, pos, samples, player, min, remember);
      RenormalizeKeepsCounts(q.pos);
    }
  }

  /** The sampler's run for the missing histories adds at most the missing number, one history per added game, under distinct keys. */
  lemma {:induction false} SampleMissingCounts<S, A, T>(g: CopilotCore.Game<S, A, T>, pos: CR.Positions<S, A, T>, samples: seq<S>,
                                     player: Player, min: nat, remember: bool)
    requires player != Chance && SG.DistinctKeys(pos) && SG.TotalHistories(pos) < min
    ensures var q := SampleMissing(g, pos, samples, player, min, remember);
      SG.TotalHistories(pos) + |q.added| <= min && SG.TotalHistories(q.pos) == SG.TotalHistories(pos) + |q.added| &&
      SG.DistinctKeys(q.pos)
  {
    TotalHistoriesNonNegative(pos);
    SampleMissingIs(g, pos, samples, player, min, remember);
    var added := Chosen(g, samples, 0, PositionIds(g, pos), remember, 0, min - SG.TotalHistories(pos));
    ChosenCount(g, samples, 0, PositionIds(g, pos), remember, 0, min - SG.TotalHistories(pos));
    UpsertAllCount(pos, SampledEntries(g, added, player, min));
  }

  /** Renormalising keeps the keys and the number of histories. */
  lemma {:induction false} RenormalizeKeepsCounts<T, H>(pos: SG.Positions<T, H>)
    ensures SG.TotalHistories(Renormalize(pos)) == SG.TotalHistories(pos)
    ensures SG.DistinctKeys(pos) ==> SG.DistinctKeys(Renormalize(pos))
  {
    RenormalizeProperties(pos);
    assert SG.Lengths(Renormalize(pos)) == SG.Lengths(pos);
  }

  /**
   * When positions were needed, the sampled groups, before the final
   * renormalisation, group the earlier entries and the added games'
   * entries, and the renormalised probabilities sum to 1 when their total
   * was positive.
   */
  lemma {:induction false} SampleAdditionalGroups<S, A, T>(g: CopilotCore.Game<S, A, T>, pos: CR.Positions<S, A, T>, samples: seq<S>,
                                        player: Player, min: nat, remember: bool, es: seq<Entry<T, History<S, A>>>)
    requires player != Chance && Grouped(pos, es) && 0 < min && SG.TotalHistories(pos) < min
    ensures var r := SampleAdditionalWith(g, pos, samples, player, min, remember);
      var q := SampleMissing(g, pos, samples, player, min, remember).pos;
      Grouped(q, es + SampledEntries(g, r.added, player, min)) && r.pos == Renormalize(q) &&
      (Sum(GroupProbs(q)) > 0.0 ==> Sum(GroupProbs(r.pos)) == 1.0)
  {
    var q := SampleMissing(g, pos, samples, player, min, remember);
    SampleMissingGroups(g, pos, samples, player, min, remember, es);
    SampleAdditionalMissing(g, pos, samples, player, min, remember);
    var r := SampleAdditionalWith(g, pos, samples, player, min, remember);
    assert r.added == q.added && r.pos == Renormalize(q.pos);
    if Sum(GroupProbs(q.pos)) > 0.0 {
      RenormalizeSumsToOne(q.pos);
    }
  }

  /** Renormalised probabilities whose total was positive sum to 1. */
  lemma {:induction false} RenormalizeSumsToOne<T, H>(pos: SG.Positions<T, H>)
    requires Sum(GroupProbs(pos)) > 0.0
    ensures Sum(GroupProbs(Renormalize(pos))) == 1.0
  {
    RenormalizeProperties(pos);
  }

  /** The sampler's run for the missing histories groups the earlier entries and the added games' entries. */
  lemma {:induction false} SampleMissingGroups<S, A, T>(g: CopilotCore.Game<S, A, T>, pos: CR.Positions<S, A, T>, samples: seq<S>,
                                     player: Player, min: nat, remember: bool, es: seq<Entry<T, History<S, A>>>)
    requires player != Chance && Grouped(pos, es) && 0 < min && SG.TotalHistories(pos) < min
    ensures var q := SampleMissing(g, pos, samples, player, min, remember);
      Grouped(q.pos, es + SampledEntries(g, q.added, player, min))
  {
    SampleMissingIs(g, pos, samples, player, min, remember);
    var added := Chosen(g, samples, 0, PositionIds(g, pos), remember, 0, min - SG.TotalHistories(pos));
    UpsertAllProperties(pos, es, SampledEntries(g, added, player, min));
  }

  /** The run for the missing histories is the sampler's run from the first game, for `min` less the histories present. */
  lemma {:induction false} SampleMissingIs<S, A, T>(g: CopilotCore.Game<S, A, T>, pos: CR.Positions<S, A, T>, samples: seq<S>,
                                                    player: Player, min: nat, remember: bool)
    requires player != Chance && 0 < min && SG.TotalHistories(pos) < min
    ensures SampleMissing(g, pos, samples, player, min, remember)
      == SampleFrom(g, pos, samples, 0, PositionIds(g, pos), remember, 0, min - SG.TotalHistories(pos), player, min)
  {
  }

  /** Below the minimum, the result is the sampler's run for the missing histories, renormalised. */
  lemma {:induction false} SampleAdditionalMissing<S, A, T>(g: CopilotCore.Game<S, A, T>, pos: CR.Positions<S, A, T>, samples: seq<S>,
                                         player: Player, min: nat, remember: bool)
    requires player != Chance && SG.TotalHistories(pos) < min
    ensures var q := SampleMissing(g, pos, samples, player, min, remember);
      SampleAdditionalWith(g, pos, samples, player, min, remember) == Sampled(Renormalize(q.pos), q.added)
  {
  }

  /** As intended, no added game repeats an identifier already present or one added before it. */
  lemma {:induction false} SampleAdditionalFresh<S, A, T>(g: CopilotCore.Game<S, A, T>, pos: CR.Positions<S, A, T>, samples: seq<S>,
                                       player: Player, min: nat)
    requires player != Chance
    ensures var r := SampleAdditional(g, pos, samples, player, min);
      AvoidIds(g, r.added, PositionIds(g, pos)) && DistinctIds(g, r.added)
  {
    var count := SG.TotalHistories(pos);
    TotalHistoriesNonNegative(pos);
    if count < min {
      SampleMissingIs(g, pos, samples, player, min, true);
      SampleAdditionalMissing(g, pos, samples, player, min, true);
      ChosenSkips(g, samples, 0, PositionIds(g, pos), true, 0, min - count);
    }
  }

  /**
   * As written, a sampler that yields the same game twice gets it added
   * twice: with no positions and two needed, both copies are added,
   * against the intent of skipping positions already present.
   */
  lemma {:induction false} SampleAdditionalAsWrittenDuplicates<S, A, T>(g: CopilotCore.Game<S, A, T>, s: S, player: Player)
    requires player != Chance
    ensures var r := SampleAdditionalAsWritten(g, [], [s, s], player, 2);
      r.added == [s, s] && !DistinctIds(g, r.added)
  {
    var empty: CR.Positions<S, A, T> := [];
    assert SG.TotalHistories(empty) == 0;
    assert PositionIds(g, empty) == {};
    assert Chosen(g, [s, s], 2, {}, false, 2, 2) == [];
    assert Chosen(g, [s, s], 1, {}, false, 1, 2) == [s];
    assert Chosen(g, [s, s], 0, {}, false, 0, 2) == [s, s];
  }

  /** As intended, the same input adds the game once. */
  lemma {:induction false} SampleAdditionalOnce<S, A, T>(g: CopilotCore.Game<S, A, T>, s: S, player: Player)
    requires player != Chance
    ensures SampleAdditional(g, [], [s, s], player, 2).added == [s]
  {
    var empty: CR.Positions<S, A, T> := [];
    assert SG.TotalHistories(empty) == 0;
    assert PositionIds(g, empty) == {};
    var id := g.identifier(s);
    assert Chosen(g, [s, s], 2, {id}, true, 1, 2) == [];
    assert Chosen(g, [s, s], 1, {id}, true, 1, 2) == [];
    var none: set<nat> := {};
    assert none + {id} == {id};
    assert Chosen(g, [s, s], 0, none, true, 0, 2) == [s];
  }

  /** The final renormalisation of `sample_additional_positions` as the source runs it: one loop sums the group probabilities, a second divides each. */
  method RenormalizeGroups<T, H>(pos: SG.Positions<T, H>) returns (r: SG.Positions<T, H>)
    ensures r == Renormalize(pos)
  {
    var total := 0.0;
    ghost var ps := GroupProbs(pos);
    for j := 0 to |pos|
      invariant total == Sum(ps[..j])
    {
      assert ps[..j + 1][..j] == ps[..j];
      total := total + pos[j].1.prob;
    }
    assert ps[..|pos|] == ps;
    r := pos;
    if total > 0.0 {
      for j := 0 to |pos|
        invariant |r| == |pos|
        invariant forall i :: 0 <= i < j ==> r[i] == (pos[i].0, pos[i].1.(prob := pos[i].1.prob / total))
        invariant forall i :: j <= i < |pos| ==> r[i] == pos[i]
      {
        r := r[j := (r[j].0, r[j].1.(prob := r[j].1.prob / total))];
      }
    }
  }

  /**
   * `sample_additional_positions` as a loop over the sampler: each game
   * not yet present is upserted, until enough are added or the sampler is
   * exhausted; then the probabilities are renormalised.
   */
  method SampleAdditionalPositions<S, A, T(==)>(g: CopilotCore.Game<S, A, T>, pos: CR.Positions<S, A, T>, samples: seq<S>,
                                                player: Player, min: nat)
    returns (r: Sampled<S, A, T>)
    requires player != Chance
    ensures r == SampleAdditional(g, pos, samples, player, min)
  {
    var count := SG.TotalHistories(pos);
    var needed := if min > count then min - count else 0;
    if needed == 0 {
      return Sampled(pos, []);
    }
    TotalHistoriesNonNegative(pos);
    var current, added := SampleLoop(g, pos, samples, player, min, needed);
    var renormalized := RenormalizeGroups(current);
    r := Sampled(renormalized, added);
  }

  /** The loop over the sampler: each game not yet present is upserted, until `needed` are added or the sampler is exhausted. */
  method SampleLoop<S, A, T(==)>(g: CopilotCore.Game<S, A, T>, pos: CR.Positions<S, A, T>, samples: seq<S>,
                                 player: Player, min: nat, needed: nat)
    returns (current: CR.Positions<S, A, T>, added: seq<S>)
    requires player != Chance && min > 0
    ensures Sampled(current, added) == SampleFrom(g, pos, samples, 0, PositionIds(g, pos), true, 0, needed, player, min)
  {
    ghost var whole := Chosen(g, samples, 0, PositionIds(g, pos), true, 0, needed);
    var skip := PositionIds(g, pos);
    current := pos;
    added := [];
    var n, k := 0, 0;
    while n < needed && k < |samples|
      invariant k <= |samples| && n <= needed
      invariant whole == added + Chosen(g, samples, k, skip, true, n, needed)
      invariant current == UpsertAll(pos, SampledEntries(g, added, player, min))
      decreases |samples| - k
    {
      var s := samples[k];
      var id := g.identifier(s);
      if id !in skip {
        ChosenTakeStep(g, samples, k, skip, n, needed, added);
        UpsertAllSnoc(pos, SampledEntries(g, added, player, min), SampledEntry(g, s, player, min));
        SampledEntriesSnoc(g, added, s, player, min);
        current := Upsert(current, SampledEntry(g, s, player, min));
        added := added + [s];
        skip := skip + {id};
        n := n + 1;
      }
      k := k + 1;
    }
    assert added + [] == added;
  }

  // ---------------------------------------------------------------------
  // construct_subgame

  /**
   * The positions `construct_subgame` builds: the k-cover of the old tree,
   * normalised, grouped by the opponent's trace, and padded with sampled
   * positions when fewer than `min` histories were covered. The sampler's
   * games for the observation are given as `samples`.
   */
  function SubgamePositions<S, A, T(==)>(g: CopilotCore.Game<S, A, T>, oldTree: seq<History<S, A>>, observation: T,
                                         player: Player, min: nat, k: nat, samples: seq<S>): CR.Positions<S, A, T>
    requires player != Chance
  {
    var covered := Normalize(KCover(g, oldTree, observation, player, k), player);
    var pos := UpsertAll([], CoveredEntries(g, covered, player));
    if SG.TotalHistories(pos) < min then SampleAdditional(g, pos, samples, player, min).pos else pos
  }

  /** `construct_subgame` as the source runs it, one step after another. */
  method ConstructSubgame<S, A, T(==)>(g: CopilotCore.Game<S, A, T>, oldTree: seq<History<S, A>>, observation: T,
                                       player: Player, min: nat, k: nat, samples: seq<S>)
    returns (pos: CR.Positions<S, A, T>)
    requires player != Chance
    ensures pos == SubgamePositions(g, oldTree, observation, player, min, k, samples)
  {
    var found := KCoverSearch(g, oldTree, observation, player, k);
    var covered := NormalizeReach(found, player);
    pos := GroupByOpponent(g, covered, player);
    var count := SG.TotalHistories(pos);
    if count < min {
      var r := SampleAdditionalPositions(g, pos, samples, player, min);
      pos := r.pos;
    }
  }

  /**
   * With at least `min` covered histories, the subgame is exactly their
   * grouping: distinct opponent traces, one history per covered history,
   * each group summarising its histories. In every case the keys are
   * distinct and no covered history is lost.
   */
  lemma {:induction false} ConstructSubgameCovered<S, A, T>(g: CopilotCore.Game<S, A, T>, oldTree: seq<History<S, A>>, observation: T,
                                         player: Player, min: nat, k: nat, samples: seq<S>)
    requires player != Chance
    ensures var covered := Normalize(KCover(g, oldTree, observation, player, k), player);
      var r := SubgamePositions(g, oldTree, observation, player, min, k, samples);
      SG.DistinctKeys(r) && SG.TotalHistories(r) >= |covered| &&
      (|covered| >= min ==> Grouped(r, CoveredEntries(g, covered, player)) && SG.TotalHistories(r) == |covered|) &&
      (|covered| < min ==> SG.TotalHistories(r) <= min)
  {
    var covered := Normalize(KCover(g, oldTree, observation, player, k), player);
    var es := CoveredEntries(g, covered, player);
    var pos := UpsertAll([], es);
    GroupByOpponentProperties(g, covered, player);
    SampleAdditionalCounts(g, pos, samples, player, min, true);
  }

  /**
   * With fewer than `min` covered histories, the subgame groups the
   * covered histories and the added sampled games, none of which repeats
   * a game already present, and its probabilities are renormalised to sum
   * to 1 whenever their total was positive.
   */
  lemma {:induction false} ConstructSubgameSampled<S, A, T>(g: CopilotCore.Game<S, A, T>, oldTree: seq<History<S, A>>, observation: T,
                                         player: Player, min: nat, k: nat, samples: seq<S>)
    requires player != Chance
    requires |KCover(g, oldTree, observation, player, k)| < min
    ensures var covered := Normalize(KCover(g, oldTree, observation, player, k), player);
      var es := CoveredEntries(g, covered, player);
      var added := SampleAdditional(g, UpsertAll([], es), samples, player, min).added;
      var r := SubgamePositions(g, oldTree, observation, player, min, k, samples);
      DistinctIds(g, added) && AvoidIds(g, added, PositionIds(g, UpsertAll([], es))) &&
      exists q :: Grouped(q, es + SampledEntries(g, added, player, min)) && r == Renormalize(q) &&
        (Sum(GroupProbs(q)) > 0.0 ==> Sum(GroupProbs(r)) == 1.0)
  {
    var covered := Normalize(KCover(g, oldTree, observation, player, k), player);
    NormalizeFrame(KCover(g, oldTree, observation, player, k), player);
    var es := CoveredEntries(g, covered, player);
    var pos := UpsertAll([], es);
    GroupByOpponentProperties(g, covered, player);
    SampleAdditionalFresh(g, pos, samples, player, min);
    SampleAdditionalGroups(g, pos, samples, player, min, true, es);
    var q := SampleMissing(g, pos, samples, player, min, true).pos;
    assert Grouped(q, es + SampledEntries(g, SampleAdditional(g, pos, samples, player, min).added, player, min));
  }

  // ---------------------------------------------------------------------
  // prune_old_tree and knowledge_distance

  /** `prune_old_tree`: the histories whose trace for the player is comparable with the observation, in order. */
  function PruneOldTree<S, A, T>(g: CopilotCore.Game<S, A, T>, oldTree: seq<History<S, A>>, observation: T, player: Player)
    : (r: seq<History<S, A>>)
    ensures |r| <= |oldTree|
    ensures forall i :: 0 <= i < |r| ==> g.compare(Trace(g, r[i], player), observation).Some?
    decreases |oldTree|
  {
    if |oldTree| == 0 then []
    else
      var rest := PruneOldTree(g, oldTree[..|oldTree| - 1], observation, player);
      var h := oldTree[|oldTree| - 1];
      if g.compare(Trace(g, h, player), observation).Some? then rest + [h] else rest
  }

  /** A history is kept exactly when it is in the old tree and comparable with the observation. */
  lemma {:induction false} PruneOldTreeMembers<S, A, T>(g: CopilotCore.Game<S, A, T>, oldTree: seq<History<S, A>>, observation: T,
                                                        player: Player, h: History<S, A>)
    ensures h in PruneOldTree(g, oldTree, observation, player) <==>
      h in oldTree && g.compare(Trace(g, h, player), observation).Some?
    decreases |oldTree|
  {
    if |oldTree| > 0 {
      var front := oldTree[..|oldTree| - 1];
      PruneOldTreeMembers(g, front, observation, player, h);
      assert oldTree == front + [oldTree[|oldTree| - 1]];
    }
  }

  /** Pruning twice prunes nothing more. */
  lemma {:induction false} PruneOldTreeIdempotent<S, A, T>(g: CopilotCore.Game<S, A, T>, oldTree: seq<History<S, A>>, observation: T,
                                                           player: Player)
    ensures var r := PruneOldTree(g, oldTree, observation, player);
      PruneOldTree(g, r, observation, player) == r
    decreases |oldTree|
  {
    if |oldTree| > 0 {
      var front := oldTree[..|oldTree| - 1];
      var rest := PruneOldTree(g, front, observation, player);
      PruneOldTreeIdempotent(g, front, observation, player);
      var h := oldTree[|oldTree| - 1];
      if g.compare(Trace(g, h, player), observation).Some? {
        assert (rest + [h])[..|rest|] == rest;
      }
    }
  }

  /** `knowledge_distance`: 0 for equal traces, 1 for comparable ones, none for incomparable ones. */
  function KnowledgeDistance<S, A, T>(g: CopilotCore.Game<S, A, T>, t1: T, t2: T): (d: Option<nat>)
    ensures d == Some(0) <==> g.compare(t1, t2) == Some(Equal)
    ensures d.None? <==> g.compare(t1, t2).None?
    ensures d.Some? ==> d.value <= 1
  {
    match g.compare(t1, t2)
    case Some(Equal) => Some(0)
    case Some(_) => Some(1)
    case None => None
  }

  /** Pruning keeps exactly the histories at some knowledge distance from the observation. */
  lemma {:induction false} PruneOldTreeByDistance<S, A, T>(g: CopilotCore.Game<S, A, T>, oldTree: seq<History<S, A>>, observation: T,
                                        player: Player, h: History<S, A>)
    ensures h in PruneOldTree(g, oldTree, observation, player) <==>
      h in oldTree && KnowledgeDistance(g, Trace(g, h, player), observation).Some?
  {
    PruneOldTreeMembers(g, oldTree, observation, player, h);
  }

  /** Every history of the first-order cover is at knowledge distance 0 from the target, so pruning keeps it. */
  lemma {:induction false} KCoverFirstOrderDistance<S, A, T>(g: CopilotCore.Game<S, A, T>, hs: seq<History<S, A>>, target: T, player: Player)
    requires player != Chance
    ensures var found := KCover(g, hs, target, player, 1);
      forall i :: 0 <= i < |found| ==>
        KnowledgeDistance(g, Trace(g, found[i], player), target) == Some(0) &&
        found[i] in PruneOldTree(g, found, target, player)
  {
    var found := KCover(g, hs, target, player, 1);
    KCoverFirstOrder(g, hs, target, player);
    forall i | 0 <= i < |found|
      ensures found[i] in PruneOldTree(g, found, target, player)
    {
      PruneOldTreeMembers(g, found, target, player, found[i]);
    }
  }

  /** An empty old tree, or a depth of 0, covers nothing. */
  lemma {:induction false} KCoverEmpty<S, A, T>(g: CopilotCore.Game<S, A, T>, hs: seq<History<S, A>>, target: T, player: Player, k: nat)
    requires player != Chance && (|hs| == 0 || k == 0)
    ensures KCover(g, hs, target, player, k) == []
  {
  }
}

