// The history tree of the Python prototype (old/obscuro.py, classes
// `Game`, `History` and the `Info` bookkeeping `History.expand` does),
// over the rock-paper-scissors game the file defines.
//
// A History object is reached from the root through one child per action
// and points back to its parent; within one tree a node is therefore
// identified by the actions on its path, and the parent chain of the node
// at `path` is the nodes at the prefixes of `path`. Nodes are values here,
// and the information sets a map from observation sequences to records.
module PyHistory {
  import opened Reals
  import opened Seqs
  import opened Wrappers
  import OO = OldObscuro
  import PP = PyPolicy

  // ---------------------------------------------------------------------
  // The rock-paper-scissors game

  datatype Move = Rock | Paper | Scissors

  /** The enum value: the row and column of the payoff table. */
  function Index(m: Move): (i: nat)
    ensures i < 3
  {
    match m
    case Rock => 0
    case Paper => 1
    case Scissors => 2
  }

  /** `available_actions`: the same three moves in every position. */
  const Moves: seq<Move> := [Rock, Paper, Scissors]

  /** `current_player`: P1 moves first, then P2, then the game is over; a longer history is an index error. */
  function CurrentPlayer(g: seq<Move>): (p: OO.Player)
    requires |g| < 3
    ensures p == OO.Player.Terminal <==> |g| == 2
  {
    [OO.P1, OO.P2, OO.Player.Terminal][|g|]
  }

  /** `is_over`, whose assertion bounds the history at two moves. */
  predicate IsOver(g: seq<Move>)
    requires |g| < 3
  {
    |g| == 2
  }

  /** The payoff table, indexed by the last move, then the first. */
  const Payoffs: seq<seq<real>> := [[0.0, 1.0, -5.0], [-1.0, 0.0, 1.0], [5.0, -1.0, 0.0]]

  /** `evaluate`: 0 until the game is over, then the table entry for P2's move and P1's move. */
  function Evaluate(g: seq<Move>): real
    requires |g| < 3
  {
    if !IsOver(g) then 0.0 else Payoffs[Index(g[1])][Index(g[0])]
  }

  /** Which move beats which: rock blunts scissors, paper covers rock, scissors cut paper. */
  predicate Beats(a: Move, b: Move)
  {
    (a == Rock && b == Scissors) || (a == Paper && b == Rock) || (a == Scissors && b == Paper)
  }

  /**
   * The table makes a zero-sum symmetric game: P1 gains exactly when its
   * move beats P2's, a draw is worth 0, swapping the moves negates the
   * payoff, and only rock against scissors is worth 5.
   */
  lemma {:induction false} EvaluateRules(a: Move, b: Move)
    ensures Evaluate([a, b]) > 0.0 <==> Beats(a, b)
    ensures Evaluate([a, b]) == 0.0 <==> a == b
    ensures Evaluate([a, b]) == -Evaluate([b, a])
    ensures Evaluate([a, b]) == 5.0 || Evaluate([a, b]) == -5.0 <==>
      (a == Rock && b == Scissors) || (a == Scissors && b == Rock)
  {
    assert [a, b][1] == b && [a, b][0] == a;
    assert [b, a][1] == a && [b, a][0] == b;
    match a
    case Rock => {}
    case Paper => {}
    case Scissors => {}
  }

  /** The six assertions of `unit_tests`: each winning pair is positive, each losing pair negative. */
  lemma {:induction false} RpsUnitTests()
    ensures Evaluate([Rock, Scissors]) > 0.0 && Evaluate([Paper, Rock]) > 0.0 && Evaluate([Scissors, Paper]) > 0.0
    ensures Evaluate([Rock, Paper]) < 0.0 && Evaluate([Paper, Scissors]) < 0.0 && Evaluate([Scissors, Rock]) < 0.0
  {
    EvaluateRules(Rock, Scissors);
    EvaluateRules(Paper, Rock);
    EvaluateRules(Scissors, Paper);
    EvaluateRules(Rock, Paper);
    EvaluateRules(Paper, Scissors);
    EvaluateRules(Scissors, Rock);
  }

  // ---------------------------------------------------------------------
  // Observations and the observation history `history(p)`

  /** An `Observation` object: the last move, or None. It is never Python's None itself. */
  datatype Obs = Obs(last: Option<Move>)

  /**
   * `observations.get(p)` of the node whose game is `g`: P1 observes the
   * last move, P2 observes `Observation(None)`; other players have no
   * entry in the dictionary.
   */
  function ObsOf(g: seq<Move>, p: OO.Player): (o: Option<Obs>)
    ensures o.Some? <==> p == OO.P1 || p == OO.P2
  {
    if p == OO.P1 || p == OO.P2 then
      Some(Obs(if |g| > 0 && p == OO.P1 then Some(g[|g| - 1]) else None))
    else None
  }

  function OptionSeq<T>(o: Option<T>): (s: seq<T>)
    ensures |s| <= 1
  {
    if o.Some? then [o.value] else []
  }

  /** `history(p)`, root first: p's observation at every node of the parent chain that has one. */
  function ObsHistory(path: seq<Move>, p: OO.Player): seq<Obs>
  {
    (if |path| == 0 then [] else ObsHistory(path[..|path| - 1], p)) + OptionSeq(ObsOf(path, p))
  }

  function Reversed<T>(s: seq<T>): (r: seq<T>)
    ensures |r| == |s| && forall i :: 0 <= i < |s| ==> r[i] == s[|s| - 1 - i]
  {
    seq(|s|, i requires 0 <= i < |s| => s[|s| - 1 - i])
  }

  /** The chain's observations from the root down to depth d; none above the root. */
  function UpTo(path: seq<Move>, d: int, p: OO.Player): seq<Obs>
    requires d <= |path|
  {
    if d < 0 then [] else ObsHistory(path[..d], p)
  }

  lemma {:induction false} UpToStep(path: seq<Move>, d: int, p: OO.Player)
    requires 0 <= d <= |path|
    ensures UpTo(path, d, p) == UpTo(path, d - 1, p) + OptionSeq(ObsOf(path[..d], p))
  {
    if d > 0 {
      assert path[..d][..d - 1] == path[..d - 1];
    }
  }

  lemma {:induction false} ReversedSnoc<T>(s: seq<T>, x: seq<T>)
    requires |x| <= 1
    ensures Reversed(s + x) == x + Reversed(s)
  {
  }

  /**
   * The loop of `history(p)`: walk the parent chain from the node up,
   * collecting each observation that is not None, then reverse.
   */
  method History(path: seq<Move>, p: OO.Player) returns (r: seq<Obs>)
    ensures r == ObsHistory(path, p)
  {
    var agg: seq<Obs> := [];
    var d: int := |path|;
    assert path[..d] == path;
    while d >= 0
      invariant -1 <= d <= |path|
      invariant ObsHistory(path, p) == UpTo(path, d, p) + Reversed(agg)
      decreases d + 1
    {
      var o := OptionSeq(ObsOf(path[..d], p));
      UpToStep(path, d, p);
      ReversedSnoc(agg, o);
      agg := agg + o;
      d := d - 1;
    }
    r := Reversed(agg);
  }

  /** For the two players every node of the chain contributes: one observation per node, root to node. */
  lemma {:induction false} ObsHistoryShape(path: seq<Move>, p: OO.Player)
    requires p == OO.P1 || p == OO.P2
    ensures |ObsHistory(path, p)| == |path| + 1
    ensures forall d :: 0 <= d <= |path| ==> ObsHistory(path, p)[d] == ObsOf(path[..d], p).value
    decreases |path|
  {
    if |path| > 0 {
      var q := path[..|path| - 1];
      ObsHistoryShape(q, p);
      forall d | 0 <= d < |path|
        ensures q[..d] == path[..d]
      {
      }
    }
  }

  /** P2 observes nothing: its observation history only counts the moves made. */
  lemma {:induction false} P2SeesOnlyDepth(a: seq<Move>, b: seq<Move>)
    ensures ObsHistory(a, OO.P2) == ObsHistory(b, OO.P2) <==> |a| == |b|
  {
    ObsHistoryShape(a, OO.P2);
    ObsHistoryShape(b, OO.P2);
    if |a| == |b| {
      assert forall d :: 0 <= d <= |a| ==> ObsHistory(a, OO.P2)[d] == Obs(None);
    }
  }

  /** P1 observes every move: its observation history determines the path. */
  lemma {:induction false} P1SeesPath(a: seq<Move>, b: seq<Move>)
    ensures ObsHistory(a, OO.P1) == ObsHistory(b, OO.P1) <==> a == b
  {
    ObsHistoryShape(a, OO.P1);
    ObsHistoryShape(b, OO.P1);
    if ObsHistory(a, OO.P1) == ObsHistory(b, OO.P1) {
      forall i | 0 <= i < |a|
        ensures a[i] == b[i]
      {
        assert ObsHistory(a, OO.P1)[i + 1] == ObsHistory(b, OO.P1)[i + 1];
        assert a[..i + 1][i] == a[i] && b[..i + 1][i] == b[i];
      }
    }
  }

  // ---------------------------------------------------------------------
  // The order on histories

  /**
   * `h.__le__(o)`: walk o's parent chain, from o up to the root, looking
   * for h. Nodes are identified by their paths.
   */
  method AtOrAbove(h: seq<Move>, o: seq<Move>) returns (r: bool)
    ensures r <==> h <= o
  {
    var d: int := |o|;
    while d >= 0
      invariant -1 <= d <= |o|
      invariant forall e :: d < e <= |o| ==> o[..e] != h
      decreases d + 1
    {
      if o[..d] == h {
        return true;
      }
      d := d - 1;
    }
    assert |h| <= |o| ==> o[..|h|] != h;
    r := false;
  }

  /** `__lt__`: a strict ancestor. */
  predicate Below(h: seq<Move>, o: seq<Move>)
  {
    o != h && h <= o
  }

  /** `__gt__` as written: `not self <= other`. */
  predicate AboveAsWritten(h: seq<Move>, o: seq<Move>)
  {
    !(h <= o)
  }

  /** As written, two siblings are each greater than the other. */
  lemma {:induction false} AboveAsWrittenSymmetric()
    ensures AboveAsWritten([Rock], [Paper]) && AboveAsWritten([Paper], [Rock])
  {
    assert [Rock][0] != [Paper][0];
  }

  /** `__gt__` as evidently intended: the converse of `__lt__`, a strict descendant. */
  predicate Above(h: seq<Move>, o: seq<Move>)
  {
    Below(o, h)
  }

  /** The intended `>` is a strict order: never both ways, and transitive. */
  lemma {:induction false} AboveIsStrict(a: seq<Move>, b: seq<Move>, c: seq<Move>)
    ensures !(Above(a, b) && Above(b, a))
    ensures Above(a, b) && Above(b, c) ==> Above(a, c)
  {
    assert Above(a, b) ==> |b| < |a|;
    assert Above(b, a) ==> |a| < |b|;
  }

  // ---------------------------------------------------------------------
  // Histories and information sets

  datatype Status = New | Expanded | Terminal | Visited

  /** A reach dictionary: `{P1: π1, P2: π2}`, the keys every History and Info has. */
  datatype Reach = Reach(p1: real, p2: real)

  /**
   * A History: its game (the moves on its path), its status, the key of
   * its information set (`info`, set when it is expanded), its reach, and
   * its children by action.
   */
  datatype Node = Node(path: seq<Move>, status: Status, info: Option<seq<Obs>>, reach: Reach, children: seq<(Move, Node)>)

  /**
   * `History(game, parent)`: TERMINAL when the game is over, otherwise
   * NEW below a parent and VISITED at the root; no children, no
   * information set, reach 1 for both players.
   */
  function Fresh(g: seq<Move>, hasParent: bool): (h: Node)
    requires |g| < 3
    ensures h.status == Terminal <==> IsOver(g)
    ensures h.status == New <==> !IsOver(g) && hasParent
    ensures h.status == Visited <==> !IsOver(g) && !hasParent
    ensures h.path == g && h.info == None && h.reach == Reach(1.0, 1.0) && h.children == []
  {
    Node(g, if IsOver(g) then Terminal else if hasParent then New else Visited, None, Reach(1.0, 1.0), [])
  }

  /** `__len__`: 1 plus the sizes of the children. */
  function Size(h: Node): (n: nat)
    ensures n >= 1 && (h.children == [] ==> n == 1)
    decreases h, 1
  {
    1 + ChildrenSize(h, 0)
  }

  /** The summed sizes of the children from index `k` on. */
  function ChildrenSize(h: Node, k: nat): (n: nat)
    requires k <= |h.children|
    ensures n >= |h.children| - k
    decreases h, 0, |h.children| - k
  {
    if k == |h.children| then 0
    else
      assert h.children[k] in h.children;
      Size(h.children[k].1) + ChildrenSize(h, k + 1)
  }

  /**
   * An `Info`: its known histories (by path), its player, its summed
   * reach, whether `make_utilities` visited it, and the fields of its
   * policy that the tree operations read or write: the multiplier, the
   * expectations, the cumulative regrets and their sum.
   */
  datatype Info = Info(known: seq<seq<Move>>, player: OO.Player, reach: Reach, visited: bool,
                       multiplier: int, expectations: seq<real>, accRegret: seq<real>, netRegret: real)

  /** The payoffs of the children of the node at `g`, in action order: the initial rewards of its policy. */
  function ChildPayoffs(g: seq<Move>): (r: seq<real>)
    requires |g| < 2
    ensures |r| == 3 && forall i :: 0 <= i < 3 ==> r[i] == Evaluate(g + [Moves[i]])
  {
    seq(3, i requires 0 <= i < 3 => Evaluate(g + [Moves[i]]))
  }

  /**
   * `Info(first_h)` for the expanded node at `g`: one known history, the
   * node's player and reach, not visited, and a policy (as the PyPolicy
   * constructor builds it) whose rewards are the children's payoffs, with
   * multiplier 1 for P1 and -1 otherwise.
   */
  function NewInfo(g: seq<Move>, reach: Reach): (i: Info)
    requires |g| < 2
    ensures i.known == [g] && i.player == CurrentPlayer(g) && i.reach == reach && !i.visited
    ensures i.multiplier == (if CurrentPlayer(g) == OO.P1 then 1 else -1)
    ensures i.expectations == i.accRegret == ChildPayoffs(g) && i.netRegret == Sum(ChildPayoffs(g))
  {
    var rewards := ChildPayoffs(g);
    Info([g], CurrentPlayer(g), reach, false, if CurrentPlayer(g) == OO.P1 then 1 else -1, rewards, rewards, Sum(rewards))
  }

  /** `add_history(h)`: each player's reach grows by h's, and h joins the known histories. */
  function AddHistory(i: Info, g: seq<Move>, reach: Reach): (j: Info)
    ensures j.known == i.known + [g]
    ensures j.reach.p1 == i.reach.p1 + reach.p1 && j.reach.p2 == i.reach.p2 + reach.p2
    ensures j.(known := i.known, reach := i.reach) == i
  {
    i.(known := i.known + [g], reach := Reach(i.reach.p1 + reach.p1, i.reach.p2 + reach.p2))
  }

  /** The three children `expand` creates, one per available action, each a fresh History below this one. */
  function Kids(g: seq<Move>): (kids: seq<(Move, Node)>)
    requires |g| < 2
    ensures |kids| == 3 && forall i :: 0 <= i < 3 ==> kids[i] == (Moves[i], Fresh(g + [Moves[i]], true))
  {
    seq(3, i requires 0 <= i < 3 => (Moves[i], Fresh(g + [Moves[i]], true)))
  }

  /** The information set key of the node at `g`: the observation history of the player to move. */
  function InfoKey(g: seq<Move>): seq<Obs>
    requires |g| < 3
  {
    ObsHistory(g, CurrentPlayer(g))
  }

  /**
   * `expand` as a function: the node becomes EXPANDED with one child per
   * action, and joins the information set under its key, which is
   * created if it did not exist.
   */
  function ExpandSpec(h: Node, infos: map<seq<Obs>, Info>): (r: (Node, map<seq<Obs>, Info>))
    requires h.status == Visited && |h.path| < 2
  {
    var key := InfoKey(h.path);
    (h.(status := Expanded, children := Kids(h.path), info := Some(key)),
     if key in infos then infos[key := AddHistory(infos[key], h.path, h.reach)]
     else infos[key := NewInfo(h.path, h.reach)])
  }

  /**
   * `expand`: asserts the node is VISITED (and, through `is_over`, that
   * its children are at most two moves deep), builds the children in a
   * loop over the available actions, then registers the node with its
   * information set.
   */
  method Expand(h: Node, infos: map<seq<Obs>, Info>) returns (h': Node, infos': map<seq<Obs>, Info>)
    requires h.status == Visited && |h.path| < 2
    ensures (h', infos') == ExpandSpec(h, infos)
  {
    var children: seq<(Move, Node)> := [];
    for i := 0 to 3
      invariant children == Kids(h.path)[..i]
    {
      children := children + [(Moves[i], Fresh(h.path + [Moves[i]], true))];
    }
    assert Kids(h.path)[..3] == Kids(h.path);
    var key := InfoKey(h.path);
    h' := h.(status := Expanded, children := children, info := Some(key));
    if key in infos {
      infos' := infos[key := AddHistory(infos[key], h.path, h.reach)];
    } else {
      infos' := infos[key := NewInfo(h.path, h.reach)];
    }
  }

  /**
   * What `expand` promises: the node is EXPANDED with one child per
   * action, NEW below the root and TERMINAL a level further down; the
   * node's information set is the only one that changes, gaining this
   * node as its last known history, and exactly one set is created when
   * none had the key. A leaf grows from size 1 to size 4.
   */
  lemma {:induction false} ExpandProperties(h: Node, infos: map<seq<Obs>, Info>)
    requires h.status == Visited && |h.path| < 2
    ensures var (h', infos') := ExpandSpec(h, infos);
      h'.status == Expanded && Firsts(h'.children) == Moves &&
      (forall i :: 0 <= i < 3 ==>
        (h'.children[i].1.path == h.path + [Moves[i]] &&
         h'.children[i].1.status == (if |h.path| == 0 then New else Terminal))) &&
      h'.info == Some(InfoKey(h.path)) &&
      infos'.Keys == infos.Keys + {InfoKey(h.path)} &&
      (forall k :: k in infos && k != InfoKey(h.path) ==> infos'[k] == infos[k]) &&
      infos'[InfoKey(h.path)].known ==
        (if InfoKey(h.path) in infos then infos[InfoKey(h.path)].known else []) + [h.path]
    ensures h.children == [] ==> Size(h) == 1 && Size(ExpandSpec(h, infos).0) == 4
  {
    var h' := ExpandSpec(h, infos).0;
    assert Firsts(h'.children) == Moves;
    if h.children == [] {
      forall i | 0 <= i < 3
        ensures Size(h'.children[i].1) == 1
      {
      }
      assert ChildrenSize(h', 3) == 0;
      assert ChildrenSize(h', 2) == 1;
      assert ChildrenSize(h', 1) == 2;
      assert ChildrenSize(h', 0) == 3;
    }
  }

  /**
   * P2 cannot tell P1's moves apart, so expanding two different nodes one
   * move deep puts both in one information set, whose reach is the sum of
   * theirs.
   */
  lemma {:induction false} SiblingsShareInfo(a: Move, b: Move, ra: Reach, rb: Reach)
    requires a != b
    ensures var ha := Node([a], Visited, None, ra, []);
      var hb := Node([b], Visited, None, rb, []);
      var infos := ExpandSpec(hb, ExpandSpec(ha, map[]).1).1;
      InfoKey([a]) == InfoKey([b]) && infos.Keys == {InfoKey([a])} &&
      infos[InfoKey([a])].known == [[a], [b]] &&
      infos[InfoKey([a])].reach == Reach(ra.p1 + rb.p1, ra.p2 + rb.p2)
  {
    assert CurrentPlayer([a]) == OO.P2 && CurrentPlayer([b]) == OO.P2;
    P2SeesOnlyDepth([a], [b]);
  }

  // ---------------------------------------------------------------------
  // make_utilities

  /** A child is smaller than its parent. */
  lemma {:induction false} ChildSmaller(h: Node, k: nat)
    requires k < |h.children|
    ensures Size(h.children[k].1) < Size(h)
  {
    ChildrenSizeAtLeast(h, 0, k);
  }

  lemma {:induction false} ChildrenSizeAtLeast(h: Node, j: nat, k: nat)
    requires j <= k < |h.children|
    ensures Size(h.children[k].1) <= ChildrenSize(h, j)
    decreases k - j
  {
    if j < k {
      ChildrenSizeAtLeast(h, j + 1, k);
    }
  }

  /** The size of a node depends on its children only. */
  lemma {:induction false} SizeOfChildren(a: Node, b: Node)
    requires a.children == b.children
    ensures Size(a) == Size(b)
  {
    ChildrenSizeOfChildren(a, b, 0);
  }

  lemma {:induction false} ChildrenSizeOfChildren(a: Node, b: Node, k: nat)
    requires a.children == b.children && k <= |a.children|
    ensures ChildrenSize(a, k) == ChildrenSize(b, k)
    decreases |a.children| - k
  {
    if k < |a.children| {
      ChildrenSizeOfChildren(a, b, k + 1);
    }
  }

  /**
   * A tree `make_utilities` can walk: every game at most two moves long,
   * and every EXPANDED node one move deep at most, with a known
   * information set.
   */
  predicate Walkable(h: Node, keys: set<seq<Obs>>)
    decreases Size(h)
  {
    |h.path| < 3 &&
    (h.status == Expanded ==>
      |h.path| < 2 && h.info.Some? && h.info.value in keys &&
      forall k :: 0 <= k < |h.children| ==> (ChildSmaller(h, k); Walkable(h.children[k].1, keys)))
  }

  /** Whether a tree can be walked does not depend on the reach of its root. */
  lemma {:induction false} WalkableWithReach(a: Node, b: Node, keys: set<seq<Obs>>)
    requires a.(reach := b.reach) == b && Walkable(a, keys)
    ensures Walkable(b, keys)
  {
    assert a.children == b.children;
    if b.status == Expanded {
      forall k | 0 <= k < |b.children|
        ensures Walkable(b.children[k].1, keys)
      {
        assert Walkable(a.children[k].1, keys);
      }
    }
  }

  /** Every information set's policy has one entry per action. */
  predicate PoliciesShaped(infos: map<seq<Obs>, Info>)
  {
    forall key :: key in infos ==> |infos[key].accRegret| == 3 && |infos[key].expectations| == 3
  }

  /** Two information set maps whose policies play alike: the same keys, cumulative regrets and net regrets. */
  predicate SameRegrets(a: map<seq<Obs>, Info>, b: map<seq<Obs>, Info>)
  {
    a.Keys == b.Keys &&
    forall key :: key in a ==> a[key].accRegret == b[key].accRegret && a[key].netRegret == b[key].netRegret
  }

  /** `info.policy.p_exploit(action)`. */
  function Prob(i: Info, a: Move): real
    requires |i.accRegret| == 3
  {
    PP.PExploit(i.accRegret, i.netRegret, Index(a))
  }

  function ReachOf(r: Reach, p: OO.Player): real
  {
    if p == OO.P1 then r.p1 else r.p2
  }

  /** `reach_probs[p] = v` for a player to move. */
  function WithReach(r: Reach, p: OO.Player, v: real): (r': Reach)
    ensures ReachOf(r', p) == v
    ensures p == OO.P1 ==> r'.p2 == r.p2
    ensures p != OO.P1 ==> r'.p1 == r.p1
  {
    if p == OO.P1 then r.(p1 := v) else r.(p2 := v)
  }

  /** What a child adds to its action's expectation: its value times the reach times the action's probability. */
  function Gain(v: real, reach: real, prob: real): real
  {
    v * reach * prob
  }

  /** The value of a node under every information set's exploit policy, with nothing changed: the reference for `make_utilities`. */
  function Expected(h: Node, infos: map<seq<Obs>, Info>): real
    requires Walkable(h, infos.Keys) && PoliciesShaped(infos)
    decreases Size(h), 1
  {
    if h.status != Expanded then Evaluate(h.path) else ExpectedFrom(h, 0, infos)
  }

  /** The probability-weighted values of the children from index `k` on. */
  function ExpectedFrom(h: Node, k: nat, infos: map<seq<Obs>, Info>): real
    requires Walkable(h, infos.Keys) && PoliciesShaped(infos) && h.status == Expanded && k <= |h.children|
    decreases Size(h), 0, |h.children| - k
  {
    if k == |h.children| then 0.0
    else
      ChildSmaller(h, k);
      Weighted(Prob(infos[h.info.value], h.children[k].0), Expected(h.children[k].1, infos)) + ExpectedFrom(h, k + 1, infos)
  }

  /**
   * `make_utilities(i, h, reach_prob)`: a NEW node becomes VISITED; a node
   * that is not EXPANDED is worth its payoff. At an EXPANDED node the
   * information set is marked visited, and every child the optimising
   * player `i` acts at, or whose action has positive exploit probability,
   * gets its reach for the player to move, is walked with the reach
   * scaled by that probability, adds its probability-weighted value to the
   * result, and adds value · reach · probability to the expectation of
   * its action. Returns the value, the updated node and the updated
   * information sets.
   */
  function Utilities(i: OO.Player, h: Node, reach: real, infos: map<seq<Obs>, Info>): (r: (real, Node, map<seq<Obs>, Info>))
    requires Walkable(h, infos.Keys) && PoliciesShaped(infos)
    ensures SameRegrets(r.2, infos) && PoliciesShaped(r.2)
    ensures r.1.(status := h.status, reach := h.reach, children := h.children) == h
    ensures r.1.status == (if h.status == New then Visited else h.status)
    decreases Size(h), 1
  {
    if h.status != Expanded then
      (Evaluate(h.path), h.(status := if h.status == New then Visited else h.status), infos)
    else
      var key := h.info.value;
      var infos1 := infos[key := infos[key].(visited := true)];
      assert infos1.Keys == infos.Keys;
      var r := UtilitiesFrom(i, h, 0, reach, 0.0, [], infos1);
      (r.0, h.(children := r.1), r.2)
  }

  /** Whether the loop walks child k: the optimising player acts here, or the action has positive exploit probability. */
  predicate Taken(i: OO.Player, h: Node, k: nat, infos: map<seq<Obs>, Info>)
    requires Walkable(h, infos.Keys) && PoliciesShaped(infos) && h.status == Expanded && k < |h.children|
  {
    CurrentPlayer(h.path) == i || Prob(infos[h.info.value], h.children[k].0) > 0.0
  }

  /**
   * One walked child: its reach for the player to move becomes the node's
   * reach times the action's probability, it is walked with the reach
   * scaled by that probability, and its value times the reach times the
   * probability is added to the action's expectation. Returns the child's
   * value, the updated child and the updated information sets.
   */
  function Visit(i: OO.Player, h: Node, k: nat, reach: real, infos: map<seq<Obs>, Info>): (r: (real, Node, map<seq<Obs>, Info>))
    requires Walkable(h, infos.Keys) && PoliciesShaped(infos) && h.status == Expanded && k < |h.children|
    ensures SameRegrets(r.2, infos) && PoliciesShaped(r.2)
    decreases Size(h), 0, |h.children| - k, 0
  {
    var a := h.children[k].0;
    var key := h.info.value;
    var prob := Prob(infos[key], a);
    var c := Utilities(i, Reached(h, k, infos), Scaled(reach, prob), infos);
    var info := c.2[key];
    var infos2 := c.2[key := info.(expectations := info.expectations[Index(a) := info.expectations[Index(a)] + Gain(c.0, reach, prob)])];
    assert infos2.Keys == infos.Keys && SameRegrets(infos2, infos) && PoliciesShaped(infos2);
    (c.0, c.1, infos2)
  }

  /** The reach passed down to a child: the reach so far times the action's probability. */
  function Scaled(reach: real, prob: real): real
  {
    reach * prob
  }

  /** Child k with its reach for the player to move set to the node's reach times the action's probability. */
  function Reached(h: Node, k: nat, infos: map<seq<Obs>, Info>): (c: Node)
    requires Walkable(h, infos.Keys) && PoliciesShaped(infos) && h.status == Expanded && k < |h.children|
    ensures c.(reach := h.children[k].1.reach) == h.children[k].1
    ensures Walkable(c, infos.Keys) && Size(c) < Size(h)
  {
    var active := CurrentPlayer(h.path);
    var child := h.children[k].1;
    var c := child.(reach := WithReach(child.reach, active, ReachOf(h.reach, active) * Prob(infos[h.info.value], h.children[k].0)));
    ChildSmaller(h, k);
    SizeOfChildren(child, c);
    WalkableWithReach(child, c, infos.Keys);
    c
  }

  /** `ev += prob * v`: the value so far plus a child's probability-weighted value. */
  function AddWeighted(ev: real, prob: real, v: real): real
  {
    ev + Weighted(prob, v)
  }

  /** The loop of `make_utilities` over the children from index `k` on, with the value and children so far. */
  function UtilitiesFrom(i: OO.Player, h: Node, k: nat, reach: real, ev: real, done: seq<(Move, Node)>,
                         infos: map<seq<Obs>, Info>): (r: (real, seq<(Move, Node)>, map<seq<Obs>, Info>))
    requires Walkable(h, infos.Keys) && PoliciesShaped(infos) && h.status == Expanded && k <= |h.children|
    ensures SameRegrets(r.2, infos) && PoliciesShaped(r.2)
    ensures |r.1| == |done| + |h.children| - k
    decreases Size(h), 0, |h.children| - k, 1
  {
    if k == |h.children| then (ev, done, infos)
    else
      var a := h.children[k].0;
      if Taken(i, h, k, infos) then
        var v := Visit(i, h, k, reach, infos);
        UtilitiesFrom(i, h, k + 1, reach, AddWeighted(ev, Prob(infos[h.info.value], a), v.0), done + [(a, v.1)], v.2)
      else
        UtilitiesFrom(i, h, k + 1, reach, ev, done + [(a, h.children[k].1)], infos)
  }

  /** Every exploit probability is non-negative, as after any `update` (regrets are clamped at 0). */
  predicate ExploitNonNegative(infos: map<seq<Obs>, Info>)
    requires PoliciesShaped(infos)
  {
    forall key, a :: key in infos ==> Prob(infos[key], a) >= 0.0
  }

  /** Exploit probabilities are read from the regrets alone. */
  lemma {:induction false} ExploitNonNegativeSame(a: map<seq<Obs>, Info>, b: map<seq<Obs>, Info>)
    requires PoliciesShaped(a) && PoliciesShaped(b) && SameRegrets(a, b) && ExploitNonNegative(b)
    ensures ExploitNonNegative(a)
  {
    forall key, m | key in a
      ensures Prob(a[key], m) >= 0.0
    {
      assert Prob(a[key], m) == Prob(b[key], m);
    }
  }

  /** The reference value reads only the policies' regrets. */
  lemma {:induction false} ExpectedSameRegrets(h: Node, a: map<seq<Obs>, Info>, b: map<seq<Obs>, Info>)
    requires Walkable(h, a.Keys) && PoliciesShaped(a) && PoliciesShaped(b) && SameRegrets(a, b)
    ensures Expected(h, a) == Expected(h, b)
    decreases Size(h), 1
  {
    if h.status == Expanded {
      ExpectedFromSameRegrets(h, 0, a, b);
    }
  }

  lemma {:induction false} ExpectedFromSameRegrets(h: Node, k: nat, a: map<seq<Obs>, Info>, b: map<seq<Obs>, Info>)
    requires Walkable(h, a.Keys) && PoliciesShaped(a) && PoliciesShaped(b) && SameRegrets(a, b)
    requires h.status == Expanded && k <= |h.children|
    ensures ExpectedFrom(h, k, a) == ExpectedFrom(h, k, b)
    decreases Size(h), 0, |h.children| - k
  {
    if k < |h.children| {
      var key := h.info.value;
      assert Prob(a[key], h.children[k].0) == Prob(b[key], h.children[k].0);
      ChildSmaller(h, k);
      ExpectedSameRegrets(h.children[k].1, a, b);
      ExpectedFromSameRegrets(h, k + 1, a, b);
    }
  }

  /** The reference value does not read the reach of the root either. */
  lemma {:induction false} ExpectedWithReach(x: Node, y: Node, infos: map<seq<Obs>, Info>)
    requires x.(reach := y.reach) == y && Walkable(x, infos.Keys) && PoliciesShaped(infos)
    ensures Walkable(y, infos.Keys) && Expected(x, infos) == Expected(y, infos)
  {
    WalkableWithReach(x, y, infos.Keys);
    if x.status == Expanded {
      ExpectedFromWithReach(x, y, 0, infos);
    }
  }

  lemma {:induction false} ExpectedFromWithReach(x: Node, y: Node, k: nat, infos: map<seq<Obs>, Info>)
    requires x.(reach := y.reach) == y && Walkable(x, infos.Keys) && Walkable(y, infos.Keys) && PoliciesShaped(infos)
    requires x.status == Expanded && k <= |x.children|
    ensures ExpectedFrom(x, k, infos) == ExpectedFrom(y, k, infos)
    decreases |x.children| - k
  {
    if k < |x.children| {
      ExpectedFromWithReach(x, y, k + 1, infos);
    }
  }

  /**
   * With no negative exploit probability, the value `make_utilities`
   * returns is the expected payoff under the exploit policies: skipping a
   * child of probability 0 that the optimising player does not act at
   * loses nothing, and the expectations, statuses and reaches it writes on
   * the way do not change the value of what is still to be walked.
   */
  lemma {:induction false} UtilitiesIsExpected(i: OO.Player, h: Node, reach: real, infos: map<seq<Obs>, Info>)
    requires Walkable(h, infos.Keys) && PoliciesShaped(infos) && ExploitNonNegative(infos)
    ensures Utilities(i, h, reach, infos).0 == Expected(h, infos)
    decreases Size(h), 1
  {
    if h.status == Expanded {
      var key := h.info.value;
      var infos1 := infos[key := infos[key].(visited := true)];
      assert SameRegrets(infos1, infos) && infos1.Keys == infos.Keys;
      ExploitNonNegativeSame(infos1, infos);
      UtilitiesFromIsExpected(i, h, 0, reach, 0.0, [], infos1);
      ExpectedFromSameRegrets(h, 0, infos1, infos);
    }
  }

  lemma {:induction false} UtilitiesFromIsExpected(i: OO.Player, h: Node, k: nat, reach: real, ev: real,
                                                    done: seq<(Move, Node)>, infos: map<seq<Obs>, Info>)
    requires Walkable(h, infos.Keys) && PoliciesShaped(infos) && ExploitNonNegative(infos)
    requires h.status == Expanded && k <= |h.children|
    ensures UtilitiesFrom(i, h, k, reach, ev, done, infos).0 == ev + ExpectedFrom(h, k, infos)
    decreases Size(h), 0, |h.children| - k, 2
  {
    if k < |h.children| {
      if Taken(i, h, k, infos) {
        TakenIsExpected(i, h, k, reach, ev, done, infos);
      } else {
        SkippedIsExpected(i, h, k, reach, ev, done, infos);
      }
    }
  }

  /** The step of UtilitiesFromIsExpected for a child the loop walks. */
  lemma {:induction false} TakenIsExpected(i: OO.Player, h: Node, k: nat, reach: real, ev: real,
                                           done: seq<(Move, Node)>, infos: map<seq<Obs>, Info>)
    requires Walkable(h, infos.Keys) && PoliciesShaped(infos) && ExploitNonNegative(infos)
    requires h.status == Expanded && k < |h.children| && Taken(i, h, k, infos)
    ensures UtilitiesFrom(i, h, k, reach, ev, done, infos).0 == ev + ExpectedFrom(h, k, infos)
    decreases Size(h), 0, |h.children| - k, 1
  {
    var a := h.children[k].0;
    var prob := Prob(infos[h.info.value], a);
    ChildSmaller(h, k);
    var v := Visit(i, h, k, reach, infos);
    VisitIsExpected(i, h, k, reach, infos);
    ExploitNonNegativeSame(v.2, infos);
    UtilitiesFromIsExpected(i, h, k + 1, reach, AddWeighted(ev, prob, v.0), done + [(a, v.1)], v.2);
    ExpectedFromSameRegrets(h, k + 1, v.2, infos);
    var rest := UtilitiesFrom(i, h, k + 1, reach, AddWeighted(ev, prob, v.0), done + [(a, v.1)], v.2);
    assert UtilitiesFrom(i, h, k, reach, ev, done, infos) == rest;
    assert ExpectedFrom(h, k, infos) == Weighted(prob, v.0) + ExpectedFrom(h, k + 1, infos);
  }

  /** The step of UtilitiesFromIsExpected for a child the loop skips: its probability is 0. */
  lemma {:induction false} SkippedIsExpected(i: OO.Player, h: Node, k: nat, reach: real, ev: real,
                                             done: seq<(Move, Node)>, infos: map<seq<Obs>, Info>)
    requires Walkable(h, infos.Keys) && PoliciesShaped(infos) && ExploitNonNegative(infos)
    requires h.status == Expanded && k < |h.children| && !Taken(i, h, k, infos)
    ensures UtilitiesFrom(i, h, k, reach, ev, done, infos).0 == ev + ExpectedFrom(h, k, infos)
    decreases Size(h), 0, |h.children| - k, 1
  {
    var a := h.children[k].0;
    var prob := Prob(infos[h.info.value], a);
    assert prob == 0.0;
    ChildSmaller(h, k);
    UtilitiesFromIsExpected(i, h, k + 1, reach, ev, done + [(a, h.children[k].1)], infos);
    assert UtilitiesFrom(i, h, k, reach, ev, done, infos) ==
      UtilitiesFrom(i, h, k + 1, reach, ev, done + [(a, h.children[k].1)], infos);
    assert ExpectedFrom(h, k, infos) == Weighted(prob, Expected(h.children[k].1, infos)) + ExpectedFrom(h, k + 1, infos);
  }

  /** A walked child is worth its reference value. */
  lemma {:induction false} VisitIsExpected(i: OO.Player, h: Node, k: nat, reach: real, infos: map<seq<Obs>, Info>)
    requires Walkable(h, infos.Keys) && PoliciesShaped(infos) && ExploitNonNegative(infos)
    requires h.status == Expanded && k < |h.children|
    ensures Visit(i, h, k, reach, infos).0 == Expected(h.children[k].1, infos)
    decreases Size(h), 0, |h.children| - k, 0
  {
    var child := h.children[k].1;
    var prob := Prob(infos[h.info.value], h.children[k].0);
    var child1 := Reached(h, k, infos);
    ExpectedWithReach(child, child1, infos);
    UtilitiesIsExpected(i, child1, Scaled(reach, prob), infos);
  }
}
