// The first Rust draft of the solver, old/obscuro.rs. The draft was left
// unfinished: `Policy::update`, `Info::update`, `Info::add_history`,
// `Obscuro::filter` and `Obscuro::policy` are `todo!()`, and
// `History::expand` asks a visited history for its trace, which is
// `unreachable!`. This module models the parts that compute something: the
// policy arithmetic (rewards as initial regrets, the PUCT and max arms, the
// exploit policy, purification), the construction of the subgame root with
// its gadget priors, `get_pmax`, the blend at the end of `solve_step` and
// the descent of `expansion_step`.
module OldObscuro {
  import opened Reals
  import opened Seqs
  import opened Sorting
  import MS = ModularSolver

  const MAX_SUPPORT: nat := 3
  /** `avg_variance`, a constant 1 in the draft. */
  const AVG_VARIANCE: real := 1.0

  /** The seats of the draft: two players, chance, and a marker for finished games. */
  datatype Player = P1 | P2 | Chance | Terminal

  /** The two moves of a resolver gadget: enter the subgame or take the alternative value. */
  datatype ResolveAction = Enter | Skip

  /** The sign `from_rewards` gives a seat: +1 for P1, -1 for P2, 0 for chance and terminal seats. */
  function Multiplier(p: Player): int
  {
    match p
    case P1 => 1
    case P2 => -1
    case _ => 0
  }

  /** `Player::other`: the opponent, of the opposite sign; chance and terminal seats have none (`unreachable!`). */
  function Other(p: Player): (q: Player)
    requires p == P1 || p == P2
    ensures (q == P1 || q == P2) && q != p
    ensures Multiplier(q) == -Multiplier(p) != 0
  {
    if p == P1 then P2 else P1
  }

  // ---------------------------------------------------------------------
  // The policy

  /** The fields of a draft `Policy`. */
  datatype Policy<A> = Policy(
    multiplier: int,
    actions: seq<A>,
    expectations: seq<real>,
    expansions: seq<nat>,
    accRegrets: seq<real>,
    stable: seq<bool>,
    update: nat)
  {
    /** One slot per action in every vector. */
    predicate Valid()
    {
      |expectations| == |actions| && |expansions| == |actions| &&
      |accRegrets| == |actions| && |stable| == |actions|
    }
  }

  /**
   * `from_rewards`: one action per reward, whose reward becomes its
   * accumulated regret; no expectation, no expansion, every action stable.
   */
  function FromRewards<A>(rewards: seq<(A, real)>, player: Player): (p: Policy<A>)
    ensures p.Valid() && p.multiplier == Multiplier(player) && p.update == 0
    ensures p.actions == Firsts(rewards) && p.accRegrets == Seconds(rewards)
    ensures forall i :: 0 <= i < |rewards| ==> p.expectations[i] == 0.0 && p.expansions[i] == 0 && p.stable[i]
  {
    Policy(Multiplier(player), Firsts(rewards), Repeat(|rewards|, 0.0), Repeat(|rewards|, 0),
      Seconds(rewards), Repeat(|rewards|, true), 0)
  }

  /**
   * `exploit_policy`: every regret divided by the regret sum, so the
   * entries sum to 1. A zero sum gives NaN or infinite entries, which
   * reals do not represent.
   */
  function ExploitPolicy(acc: seq<real>): (x: seq<real>)
    requires Sum(acc) != 0.0
    ensures |x| == |acc| && Sum(x) == 1.0
  {
    SumDivided(acc, Sum(acc));
    Divided(acc, Sum(acc))
  }

  /** With non-negative regrets of positive sum, the exploit policy is a distribution. */
  lemma {:induction false} ExploitPolicyIsDistribution(acc: seq<real>)
    requires NonNegative(acc) && Sum(acc) > 0.0
    ensures IsDistribution(ExploitPolicy(acc))
  {
    var x := ExploitPolicy(acc);
    forall i | 0 <= i < |acc|
      ensures x[i] >= 0.0
    {
      EntryAtMostSum(acc, i);
      DivBounds(acc[i], 0.0, 1.0, Sum(acc));
    }
  }

  /** `p_exploit(a)`: entry a of the exploit policy; it panics when a is not an action. */
  function PExploit<A(==)>(p: Policy<A>, a: A): (x: real)
    requires p.Valid() && a in p.actions && Sum(p.accRegrets) != 0.0
    ensures x == ExploitPolicy(p.accRegrets)[Position(p.actions, a)]
    ensures NonNegative(p.accRegrets) && Sum(p.accRegrets) > 0.0 ==> 0.0 <= x <= 1.0
  {
    var i := Position(p.actions, a);
    ShareBounds(p.accRegrets, i);
    p.accRegrets[i] / Sum(p.accRegrets)
  }

  /** A non-negative regret is at most the sum of non-negative regrets. */
  lemma {:induction false} ShareBounds(acc: seq<real>, i: nat)
    requires i < |acc| && Sum(acc) != 0.0
    ensures NonNegative(acc) && Sum(acc) > 0.0 ==> 0.0 <= acc[i] / Sum(acc) <= 1.0
  {
    if NonNegative(acc) && Sum(acc) > 0.0 {
      EntryAtMostSum(acc, i);
      DivBounds(acc[i], 0.0, 1.0, Sum(acc));
    }
  }

  /**
   * `quality(i)`: the signed expectation plus avg_variance times the square
   * root of all expansions over 1 + the action's own expansions. Square
   * roots are not modelled: `root` is given, non-negative, and 0 exactly
   * when nothing has been expanded.
   */
  function Quality<A>(p: Policy<A>, i: nat, root: real): (q: real)
    requires p.Valid() && i < |p.actions| && IsRoot(root, p.expansions)
    ensures SumInt(p.expansions) == 0 ==> q == p.expectations[i] * (p.multiplier as real)
    ensures SumInt(p.expansions) != 0 ==> q > p.expectations[i] * (p.multiplier as real)
  {
    var d := 1.0 + (p.expansions[i] as real);
    assert root > 0.0 ==> root / d > 0.0 by {
      if root > 0.0 {
        assert (root / d) * d == root;
        if root / d <= 0.0 {
          MulMonotone(d, root / d, 0.0);
        }
      }
    }
    p.expectations[i] * (p.multiplier as real) + AVG_VARIANCE * (root / d)
  }

  /** What the model knows of sqrt(Σ expansions): it is non-negative, and 0 exactly for no expansions. */
  predicate IsRoot(root: real, expansions: seq<nat>)
  {
    root >= 0.0 && (root == 0.0 <==> SumInt(expansions) == 0)
  }

  /** Between two actions of equal signed expectation, the less expanded one has the higher quality. */
  lemma {:induction false} QualityFavoursFewerExpansions<A>(p: Policy<A>, i: nat, j: nat, root: real)
    requires p.Valid() && i < |p.actions| && j < |p.actions| && IsRoot(root, p.expansions)
    requires p.expectations[i] == p.expectations[j] && p.expansions[i] <= p.expansions[j]
    ensures Quality(p, i, root) >= Quality(p, j, root)
  {
    DivAntitone(root, 1.0 + (p.expansions[i] as real), 1.0 + (p.expansions[j] as real));
  }

  /** Dividing a non-negative number by a larger positive number gives less. */
  lemma {:induction false} DivAntitone(x: real, a: real, b: real)
    requires x >= 0.0 && 0.0 < a <= b
    ensures x / a >= x / b
  {
    var u, v := x / a, x / b;
    assert u * a == x && v * b == x;
    assert v >= 0.0 by {
      if v < 0.0 {
        MulStrict(b, v, 0.0);
      }
    }
    MulMonotone(v, a, b);
    if u < v {
      MulStrict(a, u, v);
      assert false;
    }
  }

  /** The quality of every action. */
  function Qualities<A>(p: Policy<A>, root: real): (q: seq<real>)
    requires p.Valid() && IsRoot(root, p.expansions)
    ensures |q| == |p.actions| && forall i :: 0 <= i < |q| ==> q[i] == Quality(p, i, root)
  {
    seq(|p.actions|, i requires 0 <= i < |p.actions| => Quality(p, i, root))
  }

  /** The last arg-max is the only index that is one. */
  lemma {:induction false} OnlyLastArgMax(s: seq<real>)
    requires |s| > 0
    ensures forall i :: IsLastArgMax(s, i) ==> i == LastArgMax(s)
  {
    forall i | IsLastArgMax(s, i)
      ensures i == LastArgMax(s)
    {
      LastArgMaxUnique(s, i);
    }
  }

  /**
   * `puct`: all probability on the action of maximal quality, the last one
   * on a tie (`max_by` keeps the last maximum); it panics for no actions.
   */
  function Puct(quality: seq<real>): (r: seq<real>)
    requires |quality| > 0
    ensures |r| == |quality| && IsDistribution(r)
    ensures forall i :: 0 <= i < |r| ==> (r[i] > 0.0 <==> IsLastArgMax(quality, i))
  {
    OneHotIsDistribution(|quality|, LastArgMax(quality));
    OnlyLastArgMax(quality);
    OneHot(|quality|, LastArgMax(quality))
  }

  /**
   * The regrets carrying the sign of their sum: entry i of `acc / Σ acc` is
   * positive exactly where this is. With IEEE division a zero sum makes an
   * entry +∞ for a positive regret and NaN or −∞ otherwise, so there the
   * positive entries are the positive regrets, as for a positive sum.
   */
  function Signed(acc: seq<real>): (s: seq<real>)
    ensures |s| == |acc|
  {
    if Sum(acc) < 0.0 then Scale(acc, -1.0) else acc
  }

  /** `max`: uniform over the actions of positive exploit entry, 0 elsewhere. */
  function Max(acc: seq<real>): (r: seq<real>)
    ensures |r| == |acc|
  {
    var k := CountPositive(Signed(acc));
    Indicator(Signed(acc), if k == 0 then 0.0 else 1.0 / (k as real))
  }

  /** x / d is positive exactly when x and d are of the same strict sign. */
  lemma {:induction false} QuotientPositive(x: real, d: real)
    requires d != 0.0
    ensures x / d > 0.0 <==> (d > 0.0 && x > 0.0) || (d < 0.0 && x < 0.0)
  {
    var q := x / d;
    assert q * d == x;
    if d > 0.0 {
      if q > 0.0 { MulStrict(d, 0.0, q); }
      if x > 0.0 && q <= 0.0 { MulMonotone(d, q, 0.0); }
    } else {
      if q > 0.0 { MulStrict(q, d, 0.0); }
      if x < 0.0 && q <= 0.0 { MulMonotone(-d, q, 0.0); }
    }
  }

  /** Where the regret sum is not zero, `max` puts weight exactly on the actions of positive exploit probability. */
  lemma {:induction false} MaxFollowsExploit(acc: seq<real>, i: nat)
    requires Sum(acc) != 0.0 && i < |acc|
    ensures Max(acc)[i] > 0.0 <==> ExploitPolicy(acc)[i] > 0.0
  {
    MaxSupport(acc);
    QuotientPositive(acc[i], Sum(acc));
  }

  /** `max` is positive exactly on the signed regrets that are. */
  lemma {:induction false} MaxSupport(acc: seq<real>)
    ensures forall i :: 0 <= i < |acc| ==> (Max(acc)[i] > 0.0 <==> Signed(acc)[i] > 0.0)
  {
    var k := CountPositive(Signed(acc));
    forall i | 0 <= i < |acc|
      ensures Max(acc)[i] > 0.0 <==> Signed(acc)[i] > 0.0
    {
      if Signed(acc)[i] > 0.0 {
        CountedPositive(Signed(acc), i);
        assert 1.0 / (k as real) > 0.0;
      }
    }
  }

  /** A positive entry is counted. */
  lemma {:induction false} CountedPositive(s: seq<real>, i: nat)
    requires i < |s| && s[i] > 0.0
    ensures CountPositive(s) > 0
  {
    if i < |s| - 1 {
      CountedPositive(s[..|s| - 1], i);
    }
  }

  /**
   * `max` is a distribution when some exploit entry is positive; when none
   * is (all regrets 0, say) it is all zeros.
   */
  lemma {:induction false} MaxIsDistribution(acc: seq<real>)
    ensures CountPositive(Signed(acc)) > 0 ==> IsDistribution(Max(acc))
    ensures CountPositive(Signed(acc)) == 0 ==> forall i :: 0 <= i < |acc| ==> Max(acc)[i] == 0.0
  {
    var k := CountPositive(Signed(acc));
    var c := if k == 0 then 0.0 else 1.0 / (k as real);
    SumIndicator(Signed(acc), c);
    if k == 0 {
      forall i | 0 <= i < |acc|
        ensures Max(acc)[i] == 0.0
      {
      }
    }
  }

  /** `exploration_policy`: the average of the PUCT arm and the max arm. */
  function ExplorationPolicy(quality: seq<real>, acc: seq<real>): (x: seq<real>)
    requires |quality| == |acc| > 0
    ensures |x| == |acc|
  {
    Average(Puct(quality), Max(acc))
  }

  /**
   * The exploration policy is non-negative, gives the PUCT action at least
   * 1/2, and sums to 1 when some exploit entry is positive and to 1/2 when
   * none is.
   */
  lemma {:induction false} ExplorationPolicyMass(quality: seq<real>, acc: seq<real>)
    requires |quality| == |acc| > 0
    ensures NonNegative(ExplorationPolicy(quality, acc))
    ensures ExplorationPolicy(quality, acc)[LastArgMax(quality)] >= 0.5
    ensures Sum(ExplorationPolicy(quality, acc)) == if CountPositive(Signed(acc)) > 0 then 1.0 else 0.5
  {
    MaxIsDistribution(acc);
    SumAverage(Puct(quality), Max(acc));
    var k := CountPositive(Signed(acc));
    var c := if k == 0 then 0.0 else 1.0 / (k as real);
    SumIndicator(Signed(acc), c);
  }

  /** `set_expectation(a, v)`: only a's expectation changes; it panics when a is not an action. */
  function WithExpectation<A(==)>(p: Policy<A>, a: A, v: real): (q: Policy<A>)
    requires p.Valid() && a in p.actions
    ensures q.Valid() && q.(expectations := p.expectations) == p
    ensures forall j :: 0 <= j < |p.actions| ==>
      q.expectations[j] == if j == Position(p.actions, a) then v else p.expectations[j]
  {
    p.(expectations := p.expectations[Position(p.actions, a) := v])
  }

  /** `add_expansion(a)`: only a's expansion count changes, by one; it panics when a is not an action. */
  function WithExpansion<A(==)>(p: Policy<A>, a: A): (q: Policy<A>)
    requires p.Valid() && a in p.actions
    ensures q.Valid() && q.(expansions := p.expansions) == p
    ensures forall j :: 0 <= j < |p.actions| ==>
      q.expansions[j] == p.expansions[j] + if j == Position(p.actions, a) then 1 else 0
  {
    var i := Position(p.actions, a);
    p.(expansions := p.expansions[i := p.expansions[i] + 1])
  }

  /** Every expansion adds one to the total under the PUCT square root. */
  lemma {:induction false} ExpansionAddsOne<A>(p: Policy<A>, a: A)
    requires p.Valid() && a in p.actions
    ensures SumInt(WithExpansion(p, a).expansions) == SumInt(p.expansions) + 1
  {
    var i := Position(p.actions, a);
    SumIntUpdate(p.expansions, i, p.expansions[i] + 1);
    assert WithExpansion(p, a).expansions == p.expansions[i := p.expansions[i] + 1];
  }

  // ---------------------------------------------------------------------
  // Purification

  /** The candidates of `purified` among the first n actions: the stable ones and those of exploit probability `best`. */
  function Candidates(w: seq<real>, stable: seq<bool>, best: real, n: nat): (c: seq<nat>)
    requires n <= |w| == |stable|
    ensures InRange(w, c) && Distinct(c)
    ensures forall k :: 0 <= k < |c| ==> c[k] < n
    ensures forall i :: 0 <= i < n ==> (i in c <==> stable[i] || w[i] == best)
  {
    if n == 0 then []
    else
      var c := Candidates(w, stable, best, n - 1);
      c + (if stable[n - 1] || w[n - 1] == best then [n - 1] else [])
  }

  /**
   * `purified` as written: the candidates (stable, or of maximal exploit
   * probability) sorted by ASCENDING exploit probability, of which the
   * first MAX_SUPPORT keep their regret. It panics for no actions and for
   * fewer than MAX_SUPPORT candidates.
   */
  function PurifiedSupportAsWritten(acc: seq<real>, stable: seq<bool>): (s: seq<nat>)
    requires |acc| == |stable| > 0 && Sum(acc) != 0.0
    requires |Candidates(ExploitPolicy(acc), stable, ExploitPolicy(acc)[LastArgMax(ExploitPolicy(acc))], |acc|)| >= MAX_SUPPORT
    ensures |s| == MAX_SUPPORT && forall k :: 0 <= k < |s| ==> s[k] < |acc|
  {
    var w := ExploitPolicy(acc);
    SortIndices(w, Candidates(w, stable, w[LastArgMax(w)], |w|))[..MAX_SUPPORT]
  }

  /**
   * With more than MAX_SUPPORT candidates and one action of strictly
   * largest exploit probability, the ascending sort leaves that action out
   * of the support.
   */
  lemma {:induction false} PurifiedAsWrittenMissesBest(acc: seq<real>, stable: seq<bool>)
    requires |acc| == |stable| > 0 && Sum(acc) != 0.0
    requires |Candidates(ExploitPolicy(acc), stable, ExploitPolicy(acc)[LastArgMax(ExploitPolicy(acc))], |acc|)| > MAX_SUPPORT
    requires forall j :: 0 <= j < |acc| && j != LastArgMax(ExploitPolicy(acc)) ==>
      ExploitPolicy(acc)[j] < ExploitPolicy(acc)[LastArgMax(ExploitPolicy(acc))]
    ensures LastArgMax(ExploitPolicy(acc)) !in PurifiedSupportAsWritten(acc, stable)
  {
    var w := ExploitPolicy(acc);
    var b := LastArgMax(w);
    var c := Candidates(w, stable, w[b], |w|);
    var r := SortIndices(w, c);
    SortIndicesSorted(w, c);
    var last := r[|r| - 1];
    forall k | 0 <= k < MAX_SUPPORT
      ensures r[k] != b
    {
      assert Before(w, r[k], last);
      if last != b {
        assert w[last] < w[b];
      }
    }
  }

  /**
   * `purified` as evidently intended: the candidates in DESCENDING order
   * of exploit probability, at most MAX_SUPPORT of them.
   */
  function PurifiedSupport(acc: seq<real>, stable: seq<bool>): (s: seq<nat>)
    requires |acc| == |stable| > 0 && Sum(acc) != 0.0
    ensures |s| <= MAX_SUPPORT && forall k :: 0 <= k < |s| ==> s[k] < |acc|
  {
    var w := ExploitPolicy(acc);
    var c := Candidates(w, stable, w[LastArgMax(w)], |w|);
    SortIndices(Negated(w), c)[..if |c| < MAX_SUPPORT then |c| else MAX_SUPPORT]
  }

  /** The intended support is never empty and starts with an action of maximal exploit probability. */
  lemma {:induction false} PurifiedSupportHasBest(acc: seq<real>, stable: seq<bool>)
    requires |acc| == |stable| > 0 && Sum(acc) != 0.0
    ensures |PurifiedSupport(acc, stable)| > 0
    ensures IsLastArgMax(ExploitPolicy(acc), LastArgMax(ExploitPolicy(acc)))
    ensures forall j :: 0 <= j < |acc| ==> ExploitPolicy(acc)[PurifiedSupport(acc, stable)[0]] >= ExploitPolicy(acc)[j]
  {
    var w := ExploitPolicy(acc);
    var b := LastArgMax(w);
    var c := Candidates(w, stable, w[b], |w|);
    var r := SortIndices(Negated(w), c);
    assert b in c;
    assert b in multiset(r) by {
      assert b in multiset(c);
    }
    var k :| 0 <= k < |r| && r[k] == b;
    if k != 0 {
      SortIndicesSorted(Negated(w), c);
      assert Before(Negated(w), r[0], r[k]);
    }
  }

  // ---------------------------------------------------------------------
  // The subgame root

  /**
   * One entry of the J0 map `History::subgame_root` receives: the entry's
   * probability, its alternative value, and the reach, for the player to
   * move, of each of its histories (the histories themselves are not
   * needed here).
   */
  datatype Entry = Entry(prob: real, alt: real, reaches: seq<real>)

  /** An `Augmented` node: the chance policy over its histories, its resolver and its prior probability. */
  datatype Gadget = Gadget(chance: Policy<nat>, resolver: Policy<ResolveAction>, prior: real)

  /** `iter().enumerate()`: each value paired with its position. */
  function Enumerate(s: seq<real>): (r: seq<(nat, real)>)
    ensures |r| == |s| && forall i :: 0 <= i < |s| ==> r[i] == (i, s[i])
  {
    seq(|s|, i requires 0 <= i < |s| => (i, s[i]))
  }

  /** The entries' probabilities. */
  function Probs(j0: seq<Entry>): (r: seq<real>)
    ensures |r| == |j0| && forall g :: 0 <= g < |j0| ==> r[g] == j0[g].prob
  {
    seq(|j0|, g requires 0 <= g < |j0| => j0[g].prob)
  }

  /** The reach of each entry: the sum over its histories. */
  function EntryReaches(j0: seq<Entry>): (r: seq<real>)
    ensures |r| == |j0| && forall g :: 0 <= g < |j0| ==> r[g] == Sum(j0[g].reaches)
  {
    seq(|j0|, g requires 0 <= g < |j0| => Sum(j0[g].reaches))
  }

  /** `net_reach`: the reach summed over all histories of all entries. */
  function NetReach(j0: seq<Entry>): real
  {
    Sum(EntryReaches(j0))
  }

  /** `m`: the number of histories over all entries. */
  function HistoryCount(j0: seq<Entry>): nat
  {
    if |j0| == 0 then 0 else HistoryCount(j0[..|j0| - 1]) + |j0[|j0| - 1].reaches|
  }

  /**
   * The priors as written: each averages the entry's share of the reach
   * with 1/m, where m counts histories, not entries. A zero net reach or
   * no history at all makes them NaN or infinite.
   */
  function Priors(j0: seq<Entry>): (r: seq<real>)
    requires NetReach(j0) != 0.0 && HistoryCount(j0) > 0
    ensures |r| == |j0| && forall g :: 0 <= g < |j0| ==>
      r[g] == (Sum(j0[g].reaches) / NetReach(j0) + 1.0 / (HistoryCount(j0) as real)) / 2.0
  {
    Average(Divided(EntryReaches(j0), NetReach(j0)), Repeat(|j0|, 1.0 / (HistoryCount(j0) as real)))
  }

  /** The resolver of an entry: SKIP with the alternative as regret, ENTER with none, for the opponent. */
  function Resolver(alt: real, player: Player): (p: Policy<ResolveAction>)
    requires player == P1 || player == P2
    ensures p.Valid() && p.actions == [Skip, Enter] && p.accRegrets == [alt, 0.0]
    ensures p.multiplier == -Multiplier(player)
  {
    FromRewards([(Skip, alt), (Enter, 0.0)], Other(player))
  }

  /**
   * `History::subgame_root(j0, player)`: the root policy has one action
   * per entry with the entry's probability as regret; each entry becomes a
   * gadget whose chance policy has one action per history with the
   * history's reach as regret, whose resolver starts from the entry's
   * alternative, and whose prior is as in Priors. Entries are taken in the
   * map's iteration order, the same for both passes over it.
   */
  function SubgameRoot(j0: seq<Entry>, player: Player): (r: (Policy<nat>, seq<Gadget>))
    requires player == P1 || player == P2
    requires NetReach(j0) != 0.0 && HistoryCount(j0) > 0
    ensures r.0.Valid() && r.0.actions == Indices(|j0|) && r.0.accRegrets == Probs(j0)
    ensures r.0.multiplier == Multiplier(player)
    ensures |r.1| == |j0| && forall g :: 0 <= g < |j0| ==>
      r.1[g].chance.Valid() && r.1[g].chance.actions == Indices(|j0[g].reaches|) &&
      r.1[g].chance.accRegrets == j0[g].reaches &&
      r.1[g].resolver == Resolver(j0[g].alt, player) && r.1[g].prior == Priors(j0)[g]
  {
    var root := FromRewards(Enumerate(Probs(j0)), player);
    assert root.actions == Indices(|j0|);
    assert root.accRegrets == Probs(j0);
    var gs := seq(|j0|, g requires 0 <= g < |j0| =>
      Gadget(FromRewards(Enumerate(j0[g].reaches), player), Resolver(j0[g].alt, player), Priors(j0)[g]));
    assert forall g :: 0 <= g < |j0| ==> gs[g].chance.actions == Indices(|j0[g].reaches|);
    assert forall g :: 0 <= g < |j0| ==> gs[g].chance.accRegrets == j0[g].reaches;
    (root, gs)
  }

  /** As written, the priors sum to (1 + |J0|/m) / 2. */
  lemma {:induction false} PriorsAsWrittenSum(j0: seq<Entry>)
    requires NetReach(j0) != 0.0 && HistoryCount(j0) > 0
    ensures Sum(Priors(j0)) == (1.0 + (|j0| as real) / (HistoryCount(j0) as real)) / 2.0
  {
    var m := HistoryCount(j0) as real;
    SumAverage(Divided(EntryReaches(j0), NetReach(j0)), Repeat(|j0|, 1.0 / m));
    SumDivided(EntryReaches(j0), NetReach(j0));
    SumConstant(|j0|, 1.0 / m, Repeat(|j0|, 1.0 / m));
    TimesReciprocal(|j0| as real, m);
  }

  /** Hence the priors as written sum to 1 exactly when every entry holds one history. */
  lemma {:induction false} PriorsAsWrittenSumToOne(j0: seq<Entry>)
    requires NetReach(j0) != 0.0 && HistoryCount(j0) > 0
    ensures Sum(Priors(j0)) == 1.0 <==> HistoryCount(j0) == |j0|
  {
    PriorsAsWrittenSum(j0);
    var n, m := |j0| as real, HistoryCount(j0) as real;
    assert (n / m) * m == n;
    if n / m == 1.0 {
      assert n == m;
    }
  }

  /** One entry with two histories of reach 1/2: the priors as written sum to 3/4. */
  lemma {:induction false} PriorsAsWrittenTwoHistories()
    ensures var j0 := [Entry(1.0, 0.0, [0.5, 0.5])];
      NetReach(j0) == 1.0 && HistoryCount(j0) == 2 && Sum(Priors(j0)) == 0.75
  {
    var j0 := [Entry(1.0, 0.0, [0.5, 0.5])];
    assert Sum([0.5, 0.5]) == 1.0 by {
      assert [0.5, 0.5][..1] == [0.5];
      assert [0.5][..0] == [];
    }
    assert EntryReaches(j0) == [1.0];
    assert Sum([1.0]) == 1.0 by {
      assert [1.0][..0] == [];
    }
    assert HistoryCount(j0) == 2 by {
      assert j0[..0] == [];
    }
    PriorsAsWrittenSum(j0);
  }

  /**
   * Each share of the net reach averaged with the uniform 1/n over the n
   * reaches: the prior formula of a subgame root whose m counts its entries.
   */
  function PriorsOf(reaches: seq<real>): (r: seq<real>)
    requires Sum(reaches) != 0.0 && |reaches| > 0
    ensures |r| == |reaches| && forall g :: 0 <= g < |reaches| ==>
      r[g] == (reaches[g] / Sum(reaches) + 1.0 / (|reaches| as real)) / 2.0
  {
    Average(Divided(reaches, Sum(reaches)), Uniform(|reaches|))
  }

  /** Such priors sum to 1, and form a distribution when no reach is negative. */
  lemma {:induction false} PriorsOfSum(reaches: seq<real>)
    requires Sum(reaches) != 0.0 && |reaches| > 0
    ensures Sum(PriorsOf(reaches)) == 1.0
    ensures NonNegative(reaches) && Sum(reaches) > 0.0 ==> IsDistribution(PriorsOf(reaches))
  {
    SumDivided(reaches, Sum(reaches));
    SumUniform(|reaches|);
    SumAverage(Divided(reaches, Sum(reaches)), Uniform(|reaches|));
    if NonNegative(reaches) && Sum(reaches) > 0.0 {
      ExploitPolicyIsDistribution(reaches);
      assert ExploitPolicy(reaches) == Divided(reaches, Sum(reaches));
      AverageDistribution(Divided(reaches, Sum(reaches)), Uniform(|reaches|));
    }
  }

  /**
   * The priors as evidently intended: each averages the entry's share of
   * the reach with 1/|J0|, the uniform distribution over the entries.
   */
  function IntendedPriors(j0: seq<Entry>): (r: seq<real>)
    requires NetReach(j0) != 0.0 && |j0| > 0
    ensures |r| == |j0| && forall g :: 0 <= g < |j0| ==>
      r[g] == (Sum(j0[g].reaches) / NetReach(j0) + 1.0 / (|j0| as real)) / 2.0
  {
    PriorsOf(EntryReaches(j0))
  }

  /** The intended priors sum to 1, and form a distribution when no reach is negative. */
  lemma {:induction false} IntendedPriorsSum(j0: seq<Entry>)
    requires NetReach(j0) != 0.0 && |j0| > 0
    ensures Sum(IntendedPriors(j0)) == 1.0
    ensures NonNegative(EntryReaches(j0)) && NetReach(j0) > 0.0 ==> IsDistribution(IntendedPriors(j0))
  {
    PriorsOfSum(EntryReaches(j0));
  }

  // ---------------------------------------------------------------------
  // get_pmax and the blend of solve_step

  /** `get_pmax`: the largest of the resolvers' probabilities of entering, 0 for no gadgets (`unwrap_or`). */
  function GetPmax(enters: seq<real>): (r: real)
    ensures |enters| == 0 ==> r == 0.0
    ensures forall i :: 0 <= i < |enters| ==> enters[i] <= r
    ensures |enters| > 0 ==> exists i :: 0 <= i < |enters| && enters[i] == r
  {
    if |enters| == 0 then 0.0 else enters[LastArgMax(enters)]
  }

  /** Whether every resolver is well formed and its exploit policy defined. */
  predicate ResolversReady(gs: seq<Gadget>)
  {
    forall g :: 0 <= g < |gs| ==>
      gs[g].resolver.Valid() && Enter in gs[g].resolver.actions && Sum(gs[g].resolver.accRegrets) != 0.0
  }

  /** `p_exploit(ENTER)` of every resolver. */
  function EnterProbs(gs: seq<Gadget>): (r: seq<real>)
    requires ResolversReady(gs)
    ensures |r| == |gs| && forall g :: 0 <= g < |gs| ==> r[g] == PExploit(gs[g].resolver, Enter)
  {
    seq(|gs|, g requires 0 <= g < |gs| && ResolversReady(gs) => PExploit(gs[g].resolver, Enter))
  }

  /**
   * Before any resolver is updated (`Policy::update` is `todo!()`), no
   * resolver of a fresh subgame root enters: ENTER starts with regret 0,
   * so p_max is 0.
   */
  lemma {:induction false} FreshPmaxZero(j0: seq<Entry>, player: Player)
    requires player == P1 || player == P2
    requires NetReach(j0) != 0.0 && HistoryCount(j0) > 0
    requires forall g :: 0 <= g < |j0| ==> j0[g].alt != 0.0
    ensures ResolversReady(SubgameRoot(j0, player).1)
    ensures GetPmax(EnterProbs(SubgameRoot(j0, player).1)) == 0.0
  {
    var gs := SubgameRoot(j0, player).1;
    forall g | 0 <= g < |gs|
      ensures gs[g].resolver.Valid() && Enter in gs[g].resolver.actions && Sum(gs[g].resolver.accRegrets) != 0.0
      ensures PExploit(gs[g].resolver, Enter) == 0.0
    {
      FreshResolverSkips(j0[g].alt, player);
    }
  }

  /** A fresh resolver whose alternative is not 0 never enters. */
  lemma {:induction false} FreshResolverSkips(alt: real, player: Player)
    requires player == P1 || player == P2
    requires alt != 0.0
    ensures var r := Resolver(alt, player);
      Enter in r.actions && Sum(r.accRegrets) == alt && PExploit(r, Enter) == 0.0
  {
    var r := Resolver(alt, player);
    SumPair(alt, 0.0);
    assert Position(r.actions, Enter) == 1;
  }

  lemma {:induction false} SumPair(x: real, y: real)
    ensures Sum([x, y]) == x + y
  {
    assert [x, y][..1] == [x];
    SumSingle(x);
  }

  /** The root policy and gadgets `solve_step` blends: one root action per gadget, every exploit policy defined. */
  predicate BlendReady(root: Policy<nat>, gs: seq<Gadget>)
  {
    root.Valid() && root.actions == Indices(|gs|) && Sum(root.accRegrets) != 0.0 && ResolversReady(gs)
  }

  /** The blended share of every gadget. */
  function Blends(root: Policy<nat>, gs: seq<Gadget>, pMax: real): (r: seq<real>)
    requires BlendReady(root, gs)
    ensures |r| == |gs|
  {
    seq(|gs|, g requires 0 <= g < |gs| && BlendReady(root, gs) =>
      MS.ReachBlend(pMax, gs[g].prior, PExploit(gs[g].resolver, Enter), ExploitPolicy(root.accRegrets)[g]))
  }

  /**
   * The loop at the end of `solve_step`: for every gadget in turn, the
   * root policy's expectation for it becomes its blended share; nothing
   * else of the root policy changes. (The resolver and root `update`
   * calls around the loop are `todo!()`.)
   */
  method BlendRoot(root: Policy<nat>, gs: seq<Gadget>, pMax: real) returns (root': Policy<nat>)
    requires BlendReady(root, gs)
    ensures root'.Valid() && root'.(expectations := root.expectations) == root
    ensures root'.expectations == Blends(root, gs, pMax)
  {
    root' := root;
    for g := 0 to |gs|
      invariant root'.Valid() && root'.(expectations := root.expectations) == root
      invariant forall k :: 0 <= k < g ==> root'.expectations[k] == Blends(root, gs, pMax)[k]
      invariant forall k :: g <= k < |gs| ==> root'.expectations[k] == root.expectations[k]
    {
      assert root'.actions[g] == g;
      var pRoot := PExploit(root', g);
      var pEnter := PExploit(gs[g].resolver, Enter);
      root' := WithExpectation(root', g, MS.ReachBlend(pMax, gs[g].prior, pEnter, pRoot));
    }
  }

  /** Each blended share is a probability when p_max and the priors are, and no regret is negative. */
  lemma {:induction false} BlendsBounds(root: Policy<nat>, gs: seq<Gadget>, pMax: real)
    requires BlendReady(root, gs) && 0.0 <= pMax <= 1.0
    requires NonNegative(root.accRegrets) && Sum(root.accRegrets) > 0.0
    requires forall g :: 0 <= g < |gs| ==>
      0.0 <= gs[g].prior <= 1.0 && NonNegative(gs[g].resolver.accRegrets) && Sum(gs[g].resolver.accRegrets) > 0.0
    ensures forall g :: 0 <= g < |gs| ==> 0.0 <= Blends(root, gs, pMax)[g] <= 1.0
  {
    forall g | 0 <= g < |gs|
      ensures 0.0 <= Blends(root, gs, pMax)[g] <= 1.0
    {
      ShareBounds(root.accRegrets, g);
      MS.ReachBlendInUnit(pMax, gs[g].prior, PExploit(gs[g].resolver, Enter), ExploitPolicy(root.accRegrets)[g]);
    }
  }

  /** With p_max 0 the blend is the root's own exploit policy. */
  lemma {:induction false} BlendsWithoutPmax(root: Policy<nat>, gs: seq<Gadget>)
    requires BlendReady(root, gs)
    ensures Blends(root, gs, 0.0) == ExploitPolicy(root.accRegrets)
  {
    var b := Blends(root, gs, 0.0);
    forall g | 0 <= g < |gs|
      ensures b[g] == ExploitPolicy(root.accRegrets)[g]
    {
    }
  }

  /**
   * On a fresh subgame root p_max is 0, so the blend copies the root's own
   * exploit policy, the entries' probabilities normalised, into its
   * expectations.
   */
  lemma {:induction false} FreshBlendIsExploit(j0: seq<Entry>, player: Player)
    requires player == P1 || player == P2
    requires NetReach(j0) != 0.0 && HistoryCount(j0) > 0 && Sum(Probs(j0)) != 0.0
    requires forall g :: 0 <= g < |j0| ==> j0[g].alt != 0.0
    ensures var r := SubgameRoot(j0, player);
      BlendReady(r.0, r.1) &&
      Blends(r.0, r.1, GetPmax(EnterProbs(r.1))) == ExploitPolicy(Probs(j0))
  {
    var r := SubgameRoot(j0, player);
    FreshPmaxZero(j0, player);
    assert BlendReady(r.0, r.1);
    BlendsWithoutPmax(r.0, r.1);
  }

  // ---------------------------------------------------------------------
  // expansion_step

  /**
   * The part of a `History` the expansion walk looks at: a leaf is
   * Terminal, New or Visited; an Expanded node names its information set
   * (shared through the infoset map) and lists its children by action.
   * The game state inside New and Visited nodes is not part of this model.
   */
  datatype Node<A, T> =
    | Leaf(status: LeafStatus)
    | Expanded(info: T, children: seq<(A, Node<A, T>)>)

  datatype LeafStatus = Terminal | New | Visited

  /** The actions of every information set, which the walk never changes. */
  function ActionsOf<A, T>(infos: map<T, Policy<A>>): (m: map<T, seq<A>>)
    ensures m.Keys == infos.Keys && forall k :: k in infos ==> m[k] == infos[k].actions
  {
    map k | k in infos :: infos[k].actions
  }

  predicate AllValid<A, T>(infos: map<T, Policy<A>>)
  {
    forall k :: k in infos ==> infos[k].Valid()
  }

  /** The child `children.iter_mut().find(|(ca, _)| *ca == action)` returns: the first with that action. */
  function ChildFor<A(==), T>(children: seq<(A, Node<A, T>)>, a: A): (c: Node<A, T>)
    requires a in Firsts(children)
    ensures exists i ::
      (0 <= i < |children| && children[i] == (a, c) && forall j :: 0 <= j < i ==> children[j].0 != a)
  {
    var i := Position(Firsts(children), a);
    assert children[i] == (a, children[i].1);
    children[i].1
  }

  /**
   * Whether the walk can follow `picks`, one action per Expanded node it
   * meets (the action `explore` or `exploit` drew there): every Expanded
   * node's information set is known, the pick is one of its actions and
   * one of its children's, and picks remain while nodes are Expanded.
   * Otherwise the source panics (`unwrap`).
   */
  predicate CanWalk<A(==), T(==)>(h: Node<A, T>, picks: seq<A>, acts: map<T, seq<A>>)
    decreases |picks|
  {
    h.Expanded? ==>
      |picks| > 0 && h.info in acts && picks[0] in acts[h.info] && picks[0] in Firsts(h.children) &&
      CanWalk(ChildFor(h.children, picks[0]), picks[1..], acts)
  }

  /** The information sets and actions the walk passes through, top down. */
  function Path<A(==), T(==)>(h: Node<A, T>, picks: seq<A>, acts: map<T, seq<A>>): (r: seq<(T, A)>)
    requires CanWalk(h, picks, acts)
    ensures |r| <= |picks|
    decreases |picks|
  {
    if h.Expanded? then [(h.info, picks[0])] + Path(ChildFor(h.children, picks[0]), picks[1..], acts)
    else []
  }

  /**
   * One round of the loop at an Expanded node: the pick's expansion
   * counted in the node's information set, the child for the pick, and
   * the remaining picks.
   */
  function Step<A(==), T(==)>(h: Node<A, T>, picks: seq<A>, infos: map<T, Policy<A>>): (r: (map<T, Policy<A>>, Node<A, T>, seq<A>))
    requires h.Expanded? && CanWalk(h, picks, ActionsOf(infos)) && AllValid(infos)
    ensures r.0.Keys == infos.Keys && AllValid(r.0) && ActionsOf(r.0) == ActionsOf(infos)
    ensures r.0 == infos[h.info := WithExpansion(infos[h.info], picks[0])]
    ensures r.1 == ChildFor(h.children, picks[0]) && r.2 == picks[1..]
    ensures CanWalk(r.1, r.2, ActionsOf(r.0)) && |r.2| < |picks|
  {
    var infos1 := infos[h.info := WithExpansion(infos[h.info], picks[0])];
    assert ActionsOf(infos1) == ActionsOf(infos);
    (infos1, ChildFor(h.children, picks[0]), picks[1..])
  }

  /**
   * `expansion_step` as a function: at every Expanded node, add one
   * expansion to the pick in the node's information set and descend to
   * the child for the pick; stop at the first leaf, which is returned.
   */
  function Walk<A(==), T(==)>(h: Node<A, T>, picks: seq<A>, infos: map<T, Policy<A>>): (r: (map<T, Policy<A>>, Node<A, T>))
    requires CanWalk(h, picks, ActionsOf(infos)) && AllValid(infos)
    ensures !r.1.Expanded?
    ensures r.0.Keys == infos.Keys && AllValid(r.0)
    decreases |picks|
  {
    if h.Expanded? then
      var s := Step(h, picks, infos);
      Walk(s.1, s.2, s.0)
    else (infos, h)
  }

  lemma {:induction false} PathStep<A, T>(h: Node<A, T>, picks: seq<A>, acts: map<T, seq<A>>)
    requires h.Expanded? && CanWalk(h, picks, acts)
    ensures Firsts(Path(h, picks, acts)) == [h.info] + Firsts(Path(ChildFor(h.children, picks[0]), picks[1..], acts))
  {
    var rest := Path(ChildFor(h.children, picks[0]), picks[1..], acts);
    assert Path(h, picks, acts) == [(h.info, picks[0])] + rest;
  }

  /** Only expansion counts change, and only in the information sets on the path. */
  lemma {:induction false} WalkFrame<A, T>(h: Node<A, T>, picks: seq<A>, infos: map<T, Policy<A>>)
    requires CanWalk(h, picks, ActionsOf(infos)) && AllValid(infos)
    ensures forall k :: k in infos ==> Walk(h, picks, infos).0[k].(expansions := infos[k].expansions) == infos[k]
    ensures forall k :: k in infos && k !in Firsts(Path(h, picks, ActionsOf(infos))) ==> Walk(h, picks, infos).0[k] == infos[k]
    decreases |picks|
  {
    if h.Expanded? {
      var s := Step(h, picks, infos);
      WalkFrame(s.1, s.2, s.0);
      PathStep(h, picks, ActionsOf(infos));
      assert Walk(h, picks, infos) == Walk(s.1, s.2, s.0);
    }
  }

  /** Every visit of an information set on the path adds exactly one to its total expansion count. */
  lemma {:induction false} WalkCounts<A, T>(h: Node<A, T>, picks: seq<A>, infos: map<T, Policy<A>>)
    requires CanWalk(h, picks, ActionsOf(infos)) && AllValid(infos)
    ensures forall k :: k in infos ==>
      SumInt(Walk(h, picks, infos).0[k].expansions) ==
      SumInt(infos[k].expansions) + multiset(Firsts(Path(h, picks, ActionsOf(infos))))[k]
    decreases |picks|
  {
    if h.Expanded? {
      var s := Step(h, picks, infos);
      WalkCounts(s.1, s.2, s.0);
      ExpansionAddsOne(infos[h.info], picks[0]);
      PathStep(h, picks, ActionsOf(infos));
      assert Walk(h, picks, infos) == Walk(s.1, s.2, s.0);
    }
  }

  /**
   * The loop of `expansion_step`: while the current node is Expanded, add
   * an expansion to the drawn action in its information set and move to
   * that action's child. The leaf reached is returned for `expand`, which
   * changes only Visited leaves; `expand` itself needs the game and is not
   * part of this model.
   */
  method ExpansionStep<A(==), T(==)>(h: Node<A, T>, picks: seq<A>, infos: map<T, Policy<A>>)
    returns (leaf: Node<A, T>, infos': map<T, Policy<A>>)
    requires CanWalk(h, picks, ActionsOf(infos)) && AllValid(infos)
    ensures (infos', leaf) == Walk(h, picks, infos)
  {
    var here, rest := h, picks;
    infos' := infos;
    while here.Expanded?
      invariant CanWalk(here, rest, ActionsOf(infos')) && AllValid(infos')
      invariant Walk(here, rest, infos') == Walk(h, picks, infos)
      decreases |rest|
    {
      var s := Step(here, rest, infos');
      infos', here, rest := s.0, s.1, s.2;
    }
    leaf := here;
  }
}
