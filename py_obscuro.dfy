// The information-set side of the Python prototype (old/obscuro.py, class
// `Info` and the module-level Obscuro driver): the gift of an information
// set, filtering the tree of information sets by an observation history,
// sampling one known history, the subgame priors, p_max, the choice of
// `move` and the blended regrets of the subgame root.
//
// An information set's children (`Info.children()`, a Python set) are a
// sequence here; every result below holds for any order of that sequence.
// `random.random()` is the parameter `threshold`.
module PyObscuro {
  import opened Reals
  import opened Wrappers
  import OO = OldObscuro
  import MS = ModularSolver
  import PP = PyPolicy
  import PH = PyHistory

  /** An information set with the information sets `children()` returns below it. */
  datatype InfoTree = InfoTree(info: PH.Info, children: seq<InfoTree>)

  /** Every information set has a first known history and a policy whose expectations match its regrets. */
  predicate Shaped(t: InfoTree)
  {
    |t.info.known| > 0 && |t.info.expectations| == |t.info.accRegret| &&
    forall c :: c in t.children ==> Shaped(c)
  }

  /** `expectation()`: the expectation of the set's policy. */
  function Expectation(t: InfoTree): real
    requires |t.info.expectations| == |t.info.accRegret|
  {
    PP.Expectation(t.info.accRegret, t.info.netRegret, t.info.expectations, t.info.multiplier)
  }

  // ---------------------------------------------------------------------
  // gift

  /** What child c adds to the gift of t besides its own gift: `max(0, c.expectation() - t.expectation())`. */
  function Margin(c: InfoTree, t: InfoTree): (m: real)
    requires |c.info.expectations| == |c.info.accRegret| && |t.info.expectations| == |t.info.accRegret|
    ensures m >= 0.0 && m >= Expectation(c) - Expectation(t)
    ensures m == 0.0 || m == Expectation(c) - Expectation(t)
  {
    if Expectation(c) - Expectation(t) > 0.0 then Expectation(c) - Expectation(t) else 0.0
  }

  /** `gift()`: the children's gifts plus every child's positive margin over this set. */
  function Gift(t: InfoTree): real
    requires Shaped(t)
    decreases t, 1
  {
    GiftUpTo(t, |t.children|)
  }

  /** The gift accumulated over the first k children, in the loop's order. */
  function GiftUpTo(t: InfoTree, k: nat): real
    requires Shaped(t) && k <= |t.children|
    decreases t, 0, k
  {
    if k == 0 then 0.0
    else
      var c := t.children[k - 1];
      assert c in t.children;
      GiftUpTo(t, k - 1) + Gift(c) + Margin(c, t)
  }

  /** The loop of `gift()`, recursing into every child. */
  method GiftOf(t: InfoTree) returns (agg: real)
    requires Shaped(t)
    ensures agg == Gift(t)
    decreases t, 1
  {
    agg := 0.0;
    var k := 0;
    while k < |t.children|
      invariant 0 <= k <= |t.children|
      invariant agg == GiftUpTo(t, k)
    {
      agg := AddChildGift(t, k, agg);
      k := k + 1;
    }
  }

  /** One pass of the loop of `gift()`: the child's gift, then its margin over the set. */
  method AddChildGift(t: InfoTree, k: nat, agg: real) returns (agg': real)
    requires Shaped(t) && k < |t.children| && agg == GiftUpTo(t, k)
    ensures agg' == GiftUpTo(t, k + 1)
    decreases t, 0
  {
    var c := t.children[k];
    GiftUpToStep(t, k);
    var g := GiftOf(c);
    agg' := agg + g;
    agg' := agg' + Margin(c, t);
  }

  lemma {:induction false} GiftUpToStep(t: InfoTree, k: nat)
    requires Shaped(t) && k < |t.children|
    ensures t.children[k] in t.children && Shaped(t.children[k])
    ensures GiftUpTo(t, k + 1) == GiftUpTo(t, k) + Gift(t.children[k]) + Margin(t.children[k], t)
  {
    assert t.children[k] in t.children;
  }

  /** A gift is never negative. */
  lemma {:induction false} GiftNonNegative(t: InfoTree)
    requires Shaped(t)
    ensures Gift(t) >= 0.0
    decreases t, 1
  {
    GiftUpToNonNegative(t, |t.children|);
  }

  lemma {:induction false} GiftUpToNonNegative(t: InfoTree, k: nat)
    requires Shaped(t) && k <= |t.children|
    ensures GiftUpTo(t, k) >= 0.0
    decreases t, 0, k
  {
    if k > 0 {
      var c := t.children[k - 1];
      assert c in t.children;
      GiftUpToNonNegative(t, k - 1);
      GiftNonNegative(c);
    }
  }

  /** The gift of a set covers each child's gift plus that child's margin over it. */
  lemma {:induction false} GiftCoversChild(t: InfoTree, j: nat)
    requires Shaped(t) && j < |t.children|
    ensures Gift(t) >= Gift(t.children[j]) + Expectation(t.children[j]) - Expectation(t)
    ensures Gift(t) >= Gift(t.children[j])
  {
    GiftUpToCovers(t, |t.children|, j);
  }

  lemma {:induction false} GiftUpToCovers(t: InfoTree, k: nat, j: nat)
    requires Shaped(t) && j < k <= |t.children|
    ensures GiftUpTo(t, k) >= Gift(t.children[j]) + Margin(t.children[j], t)
    decreases k
  {
    var c := t.children[k - 1];
    assert c in t.children;
    GiftNonNegative(c);
    if j < k - 1 {
      GiftUpToCovers(t, k - 1, j);
    } else {
      GiftUpToNonNegative(t, k - 1);
    }
  }

  /**
   * The SKIP value of the resolver `construct_subgame` builds for J:
   * `J.expectation() - J.gift()`, never above the expectation.
   */
  function Alternative(t: InfoTree): (alt: real)
    requires Shaped(t)
    ensures alt <= Expectation(t)
  {
    GiftNonNegative(t);
    Expectation(t) - Gift(t)
  }

  // ---------------------------------------------------------------------
  // filter

  /** `known_histories[0].history(player)`: the observation history filtering compares. */
  function Sequence(t: InfoTree, player: OO.Player): seq<PH.Obs>
    requires |t.info.known| > 0
  {
    PH.ObsHistory(t.info.known[0], player)
  }

  /**
   * `filter(observation_history, player)`: this set when its sequence is
   * the target; nothing when the two differ within their common length;
   * otherwise the first child that yields a set.
   */
  function Filtered(t: InfoTree, target: seq<PH.Obs>, player: OO.Player): Option<InfoTree>
    requires Shaped(t)
    decreases t, 1
  {
    var mine := Sequence(t, player);
    var c := if |mine| < |target| then |mine| else |target|;
    if mine == target then Some(t)
    else if mine[..c] != target[..c] then None
    else FilteredAmong(t, 0, target, player)
  }

  /** The loop over the children from index k on: the first that yields a set. */
  function FilteredAmong(t: InfoTree, k: nat, target: seq<PH.Obs>, player: OO.Player): Option<InfoTree>
    requires Shaped(t) && k <= |t.children|
    decreases t, 0, |t.children| - k
  {
    if k == |t.children| then None
    else
      var c := t.children[k];
      assert c in t.children;
      var x := Filtered(c, target, player);
      if x.Some? then x else FilteredAmong(t, k + 1, target, player)
  }

  /** `filter` as the source writes it: a recursive search with an early return from its loop. */
  method Filter(t: InfoTree, target: seq<PH.Obs>, player: OO.Player) returns (r: Option<InfoTree>)
    requires Shaped(t)
    ensures r == Filtered(t, target, player)
    decreases t
  {
    var mine := Sequence(t, player);
    var c := if |mine| < |target| then |mine| else |target|;
    if mine == target {
      return Some(t);
    } else if mine[..c] != target[..c] {
      return None;
    }
    var k := 0;
    while k < |t.children|
      invariant 0 <= k <= |t.children|
      invariant Filtered(t, target, player) == FilteredAmong(t, k, target, player)
    {
      var child := t.children[k];
      assert child in t.children;
      var x := Filter(child, target, player);
      if x.Some? {
        return x;
      }
      k := k + 1;
    }
    return None;
  }

  /** Some set of the tree has the target as its sequence. */
  predicate Holds(t: InfoTree, target: seq<PH.Obs>, player: OO.Player)
    requires Shaped(t)
  {
    Sequence(t, player) == target || exists c :: c in t.children && Holds(c, target, player)
  }

  /** Every child's sequence extends its parent's, as observation histories do down the tree. */
  predicate PrefixOrdered(t: InfoTree, player: OO.Player)
    requires Shaped(t)
  {
    forall c :: c in t.children ==> (assert Shaped(c); Sequence(t, player) <= Sequence(c, player) && PrefixOrdered(c, player))
  }

  /** What `filter` returns is a set of the tree whose sequence is the target. */
  lemma {:induction false} FilterSound(t: InfoTree, target: seq<PH.Obs>, player: OO.Player)
    requires Shaped(t) && Filtered(t, target, player).Some?
    ensures Shaped(Filtered(t, target, player).value)
    ensures Sequence(Filtered(t, target, player).value, player) == target
    ensures Holds(t, target, player)
    decreases t, 1
  {
    var mine := Sequence(t, player);
    if mine != target {
      FilterAmongSound(t, 0, target, player);
    }
  }

  lemma {:induction false} FilterAmongSound(t: InfoTree, k: nat, target: seq<PH.Obs>, player: OO.Player)
    requires Shaped(t) && k <= |t.children| && FilteredAmong(t, k, target, player).Some?
    ensures Shaped(FilteredAmong(t, k, target, player).value)
    ensures Sequence(FilteredAmong(t, k, target, player).value, player) == target
    ensures Holds(t, target, player)
    decreases t, 0, |t.children| - k
  {
    var c := t.children[k];
    assert c in t.children;
    if Filtered(c, target, player).Some? {
      FilterSound(c, target, player);
    } else {
      FilterAmongSound(t, k + 1, target, player);
    }
  }

  /** In a prefix-ordered tree, a set's sequence is a prefix of every sequence below it. */
  lemma {:induction false} HoldsBelow(t: InfoTree, target: seq<PH.Obs>, player: OO.Player)
    requires Shaped(t) && PrefixOrdered(t, player) && Holds(t, target, player)
    ensures Sequence(t, player) <= target
    decreases t
  {
    if Sequence(t, player) != target {
      var c :| c in t.children && Holds(c, target, player);
      HoldsBelow(c, target, player);
    }
  }

  /** In a prefix-ordered tree, `filter` finds a set exactly when the tree holds one with the target sequence. */
  lemma {:induction false} FilterComplete(t: InfoTree, target: seq<PH.Obs>, player: OO.Player)
    requires Shaped(t) && PrefixOrdered(t, player)
    ensures Filtered(t, target, player).Some? <==> Holds(t, target, player)
    decreases t, 1
  {
    if Filtered(t, target, player).Some? {
      FilterSound(t, target, player);
    } else if Holds(t, target, player) {
      var mine := Sequence(t, player);
      HoldsBelow(t, target, player);
      assert mine != target;
      assert mine == target[..|mine|];
      var c :| c in t.children && Holds(c, target, player);
      var j :| 0 <= j < |t.children| && t.children[j] == c;
      FilterAmongComplete(t, 0, j, target, player);
    }
  }

  lemma {:induction false} FilterAmongComplete(t: InfoTree, k: nat, j: nat, target: seq<PH.Obs>, player: OO.Player)
    requires Shaped(t) && PrefixOrdered(t, player) && k <= j < |t.children|
    requires Holds(t.children[j], target, player)
    ensures FilteredAmong(t, k, target, player).Some?
    decreases t, 0, |t.children| - k
  {
    var c := t.children[k];
    assert c in t.children;
    if k == j {
      FilterComplete(c, target, player);
    } else if Filtered(c, target, player).None? {
      FilterAmongComplete(t, k + 1, j, target, player);
    }
  }

  // ---------------------------------------------------------------------
  // sample_history

  /** The share of the reach taken by the histories up to and including index j. */
  function Covered(shares: seq<real>, j: nat): real
    requires j < |shares|
  {
    Sum(shares[..j + 1])
  }

  /**
   * `sample_history()` with `threshold = random.random()`: each known
   * history in turn takes its share of the set's reach off the threshold,
   * and the first that brings it to 0 or below is returned. Running out
   * of histories raises ValueError and a zero total raises
   * ZeroDivisionError; both are None.
   */
  method SampleHistory(reaches: seq<real>, total: real, threshold: real) returns (r: Option<nat>)
    ensures total == 0.0 ==> r == None
    ensures r.Some? ==> (r.value < |reaches| && Covered(Divided(reaches, total), r.value) >= threshold &&
      forall j :: 0 <= j < r.value ==> Covered(Divided(reaches, total), j) < threshold)
    ensures r.None? && total != 0.0 ==> forall j :: 0 <= j < |reaches| ==> Covered(Divided(reaches, total), j) < threshold
    ensures total == Sum(reaches) && total != 0.0 && threshold <= 1.0 ==> r.Some?
  {
    if |reaches| == 0 || total == 0.0 {
      return None;
    }
    ghost var shares := Divided(reaches, total);
    var left := threshold;
    var i := 0;
    while i < |reaches|
      invariant 0 <= i <= |reaches|
      invariant left == threshold - Sum(shares[..i])
      invariant forall j :: 0 <= j < i ==> Covered(shares, j) < threshold
      invariant i > 0 ==> left > 0.0
    {
      assert shares[..i + 1][..i] == shares[..i];
      left := left - reaches[i] / total;
      if left <= 0.0 {
        return Some(i);
      }
      i := i + 1;
    }
    assert shares[..|reaches|] == shares;
    SumDivided(reaches, total);
    return None;
  }

  // ---------------------------------------------------------------------
  // Priors, p_max and the choice of `move`

  /**
   * `prior_probs[J] = 1/2 * (reach_J / net_reach + 1/m)` over J0, in
   * `construct_subgame` and again in `create_subgame`: m is the number of
   * sets in J0. A zero net reach over a non-empty J0 raises
   * ZeroDivisionError: None.
   */
  method Priors(reaches: seq<real>) returns (r: Option<seq<real>>)
    ensures r.Some? <==> |reaches| == 0 || Sum(reaches) != 0.0
    ensures r.Some? && |reaches| > 0 ==> r.value == OO.PriorsOf(reaches)
    ensures r.Some? && |reaches| == 0 ==> r.value == []
  {
    if |reaches| == 0 {
      return Some([]);
    }
    var netReach := Sum(reaches);
    if netReach == 0.0 {
      return None;
    }
    var m := |reaches| as real;
    var probs := [];
    for k := 0 to |reaches|
      invariant |probs| == k
      invariant forall g :: 0 <= g < k ==> probs[g] == OO.PriorsOf(reaches)[g]
    {
      probs := probs + [1.0 / 2.0 * (reaches[k] / netReach + 1.0 / m)];
    }
    assert probs == OO.PriorsOf(reaches);
    return Some(probs);
  }

  /** `max(r.p_exploit(ENTER) for r in resolvers.values())`: Python's `max` raises on no resolver. */
  function PMax(enters: seq<real>): (r: Option<real>)
    ensures r.Some? <==> |enters| > 0
    ensures r.Some? ==> forall i :: 0 <= i < |enters| ==> enters[i] <= r.value
    ensures r.Some? ==> exists i :: 0 <= i < |enters| && enters[i] == r.value
  {
    if |enters| == 0 then None else Some(OO.GetPmax(enters))
  }

  /** Where the Rust fold of `get_pmax` and Python's `max` are both defined, they agree. */
  lemma {:induction false} PMaxAgrees(enters: seq<real>)
    requires |enters| > 0
    ensures PMax(enters) == Some(OO.GetPmax(enters))
  {
  }

  datatype Mode = Purify | Exploit

  /** `move`: the root policy is purified when some resolver still enters (p_max > 0), else sampled from its exploit policy. */
  function MoveMode(enters: seq<real>): (m: Option<Mode>)
    ensures m == Some(Purify) <==> exists i :: 0 <= i < |enters| && enters[i] > 0.0
    ensures m == Some(Exploit) <==> |enters| > 0 && forall i :: 0 <= i < |enters| ==> enters[i] <= 0.0
    ensures m.None? <==> |enters| == 0
  {
    match PMax(enters)
    case None => None
    case Some(p) => if p > 0.0 then Some(Purify) else Some(Exploit)
  }

  /**
   * A resolver as `construct_subgame` builds it, `Policy({SKIP: alt,
   * ENTER: 0})`, enters with probability 0 unless its alternative is 0,
   * when the net regret is 0 and ENTER gets 1/2.
   */
  lemma {:induction false} FreshResolverEnter(alt: real)
    ensures PP.PExploit([alt, 0.0], Sum([alt, 0.0]), 1) == (if alt == 0.0 then 0.5 else 0.0)
  {
    assert [alt, 0.0][..1] == [alt];
    SumSingle(alt);
    assert Sum([alt, 0.0]) == Sum([alt]) + 0.0;
  }

  // ---------------------------------------------------------------------
  // The root's blended regrets

  /** The regret each root action gets in `run_solver_thread`: p_max·prior·p_resolve + (1 − p_max)·p_maxmargin. */
  function Blended(pMax: real, priors: seq<real>, resolves: seq<real>, margins: seq<real>): (r: seq<real>)
    requires |priors| == |resolves| == |margins|
    ensures |r| == |priors| && forall k :: 0 <= k < |priors| ==>
      r[k] == MS.ReachBlend(pMax, priors[k], resolves[k], margins[k])
  {
    seq(|priors|, k requires 0 <= k < |priors| => MS.ReachBlend(pMax, priors[k], resolves[k], margins[k]))
  }

  /** The loop of `run_solver_thread` that rewrites the root's regrets, then their sum as its net regret. */
  method RootRegrets(pMax: real, priors: seq<real>, resolves: seq<real>, margins: seq<real>) returns (acc: seq<real>, net: real)
    requires |priors| == |resolves| == |margins|
    ensures acc == Blended(pMax, priors, resolves, margins) && net == Sum(acc)
  {
    acc := [];
    for k := 0 to |priors|
      invariant acc == Blended(pMax, priors[..k], resolves[..k], margins[..k])
    {
      acc := acc + [MS.ReachBlend(pMax, priors[k], resolves[k], margins[k])];
    }
    assert priors[..|priors|] == priors && resolves[..|resolves|] == resolves && margins[..|margins|] == margins;
    net := Sum(acc);
  }

  /** Probabilities blend into probabilities. */
  lemma {:induction false} BlendedBounds(pMax: real, priors: seq<real>, resolves: seq<real>, margins: seq<real>)
    requires |priors| == |resolves| == |margins| && 0.0 <= pMax <= 1.0
    requires forall k :: 0 <= k < |priors| ==> 0.0 <= priors[k] <= 1.0 && 0.0 <= resolves[k] <= 1.0 && 0.0 <= margins[k] <= 1.0
    ensures forall k :: 0 <= k < |priors| ==> 0.0 <= Blended(pMax, priors, resolves, margins)[k] <= 1.0
  {
    forall k | 0 <= k < |priors|
      ensures 0.0 <= Blended(pMax, priors, resolves, margins)[k] <= 1.0
    {
      MS.ReachBlendInUnit(pMax, priors[k], resolves[k], margins[k]);
    }
  }

  /** With p_max 0 the root keeps its own exploit policy (MAXMARGIN). */
  lemma {:induction false} BlendedWithoutPmax(priors: seq<real>, resolves: seq<real>, margins: seq<real>)
    requires |priors| == |resolves| == |margins|
    ensures Blended(0.0, priors, resolves, margins) == margins
  {
  }

  /**
   * With p_max 1 each root action is weighted by its prior times its
   * resolver's ENTER probability (RESOLVE), so the regrets sum to at most
   * the priors' sum.
   */
  lemma {:induction false} BlendedFullPmax(priors: seq<real>, resolves: seq<real>, margins: seq<real>)
    requires |priors| == |resolves| == |margins| && NonNegative(priors)
    requires forall k :: 0 <= k < |resolves| ==> resolves[k] <= 1.0
    ensures forall k :: 0 <= k < |priors| ==> Blended(1.0, priors, resolves, margins)[k] == priors[k] * resolves[k]
    ensures Sum(Blended(1.0, priors, resolves, margins)) <= Sum(priors)
  {
    var b := Blended(1.0, priors, resolves, margins);
    forall k | 0 <= k < |priors|
      ensures b[k] == priors[k] * resolves[k] && b[k] <= priors[k]
    {
      MulMonotone(priors[k], resolves[k], 1.0);
    }
    SumMonotone(b, priors);
  }
}
