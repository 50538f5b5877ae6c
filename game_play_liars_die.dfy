// The heuristic Liar's Dice opponent of src/bin/play_liars_die.rs: it
// scores every available action, sorts the scores from best to worst and
// plays the first.
module PlayLiarsDie {
  import opened Reals
  import opened Sorting
  import opened Players
  import opened LiarsDie

  /** `format_die`: the face as its digit. */
  function FormatDie(d: Die): (s: string)
    ensures |s| == 1 && '1' <= s[0] <= '6'
  {
    match d
    case One => "1"
    case Two => "2"
    case Three => "3"
    case Four => "4"
    case Five => "5"
    case Six => "6"
  }

  /** Different faces are shown differently. */
  lemma {:induction false} FormatDieInjective(a: Die, b: Die)
    ensures FormatDie(a) == FormatDie(b) <==> a == b
  {
  }

  /** The decimal digits of `n`, as `format!` writes an integer. */
  function NatToString(n: nat): (s: string)
    ensures |s| > 0 && forall k :: 0 <= k < |s| ==> '0' <= s[k] <= '9'
    decreases n
  {
    var digit := ['0' + (n % 10) as char];
    if n < 10 then digit else NatToString(n / 10) + digit
  }

  const CallLabel: string := "\U{1F4E3} Call Bullshit!"
  const DealLabel: string := "\U{1F3B2} Deal (new game)"
  const BidPrefix: string := "\U{1F3AF} Bid "

  /** `format_action`: the label of an action; a bid shows its count, a times sign and its face. */
  function FormatAction(a: Action): (s: string)
    ensures a.BullShit? ==> s == CallLabel
    ensures a.Deal? ==> s == DealLabel
    ensures a.Raise? ==> s == BidPrefix + NatToString(a.count) + "×" + FormatDie(a.face)
  {
    match a
    case BullShit => CallLabel
    case Deal(_, _) => DealLabel
    case Raise(face, count) => BidPrefix + NatToString(count) + "×" + FormatDie(face)
  }

  /** A bid's label ends in its face, so bids on different faces read differently. */
  lemma {:induction false} BidLabelEndsInFace(a: Action)
    requires a.Raise?
    ensures var s := FormatAction(a); |s| > 0 && s[|s| - 1] == FormatDie(a.face)[0]
  {
  }

  /**
   * `score_action`. BullShit is worth 10 after at least four bets when the
   * number of bets is a multiple of 3, 2 after at least four bets
   * otherwise, and 0.5 before that; a raise with count at most 5 is worth
   * 10 - count and any other raise 1; a Deal is worth 1.
   */
  function ScoreAction(a: Action, betCount: nat): (v: real)
    ensures a.BullShit? && betCount >= 4 && betCount % 3 == 0 ==> v == 10.0
    ensures a.BullShit? && betCount >= 4 && betCount % 3 != 0 ==> v == 2.0
    ensures a.BullShit? && betCount < 4 ==> v == 0.5
    ensures a.Raise? && a.count <= 5 ==> v == 10.0 - a.count as real
    ensures a.Raise? && a.count > 5 ==> v == 1.0
    ensures a.Deal? ==> v == 1.0
  {
    match a
    case BullShit =>
      if betCount >= 4 then (if betCount % 3 == 0 then 10.0 else 2.0) else 0.5
    case Raise(_, count) =>
      if count <= 5 then 5.0 + (5.0 - count as real) else 1.0
    case Deal(_, _) => 1.0
  }

  /** Every score lies in [0.5, 10], and a low raise always outscores a high one. */
  lemma {:induction false} ScoreBounds(a: Action, b: Action, betCount: nat)
    ensures 0.5 <= ScoreAction(a, betCount) <= 10.0
    ensures a.Raise? && b.Raise? && a.count < b.count <= 5 ==> ScoreAction(a, betCount) > ScoreAction(b, betCount)
  {
  }

  function ScoresOf(actions: seq<Action>, betCount: nat): (w: seq<real>)
    ensures |w| == |actions| && forall k :: 0 <= k < |actions| ==> w[k] == ScoreAction(actions[k], betCount)
  {
    seq(|actions|, k requires 0 <= k < |actions| => ScoreAction(actions[k], betCount))
  }

  /** The scored actions in the order of a stable sort by descending score. */
  function SortedScores(actions: seq<Action>, betCount: nat): seq<(Action, real)>
  {
    var w := ScoresOf(actions, betCount);
    var order := Descending(w);
    seq(|order|, k requires 0 <= k < |order| => (actions[order[k]], w[order[k]]))
  }

  /**
   * The sorted list holds every action once with its score, from the best
   * score to the worst, and actions that tie keep their order.
   */
  lemma {:induction false} SortedScoresSpec(actions: seq<Action>, betCount: nat)
    ensures var r := SortedScores(actions, betCount);
      |r| == |actions| &&
      (forall k :: 0 <= k < |r| ==> r[k].0 in actions && r[k].1 == ScoreAction(r[k].0, betCount)) &&
      (forall a :: a in actions ==> exists k :: 0 <= k < |r| && r[k].0 == a) &&
      (forall j, k :: 0 <= j < k < |r| ==> r[j].1 >= r[k].1)
  {
    var w := ScoresOf(actions, betCount);
    var order := Descending(w);
    var r := SortedScores(actions, betCount);
    DescendingSorted(w);
    forall a | a in actions
      ensures exists k :: 0 <= k < |r| && r[k].0 == a
    {
      var i :| 0 <= i < |actions| && actions[i] == a;
      MemberOfSort(w, order, i);
      var k :| 0 <= k < |order| && order[k] == i;
      assert r[k].0 == a;
    }
    forall j, k | 0 <= j < k < |r|
      ensures r[j].1 >= r[k].1
    {
      assert Before(Negated(w), order[j], order[k]);
    }
  }

  /** Among equal scores the earlier available action comes first. */
  lemma {:induction false} SortedScoresStable(actions: seq<Action>, betCount: nat, j: nat, k: nat)
    requires j < k < |actions|
    ensures var w := ScoresOf(actions, betCount); var order := Descending(w);
      w[order[j]] == w[order[k]] ==> order[j] < order[k]
  {
    var w := ScoresOf(actions, betCount);
    DescendingSorted(w);
    assert Before(Negated(w), Descending(w)[j], Descending(w)[k]);
  }

  /** The first of the sorted list carries the highest score, first among ties. */
  lemma {:induction false} HeadIsBest(actions: seq<Action>, betCount: nat)
    requires |actions| > 0
    ensures var w := ScoresOf(actions, betCount);
      SortedScores(actions, betCount)[0] == (actions[FirstArgMax(w)], w[FirstArgMax(w)])
  {
    DescendingHeadIsFirstArgMax(ScoresOf(actions, betCount));
  }

  /**
   * `get_ai_move_with_scores`: with no action available, an empty Deal and
   * no scores; otherwise the sorted scores and the first action of them.
   * The bets counted are those in P2's trace.
   */
  method GetAiMoveWithScores(s: State) returns (best: Action, scored: seq<(Action, real)>)
    ensures AvailableSpec(s) == [] ==> best == Deal([], []) && scored == []
    ensures AvailableSpec(s) != [] ==>
      scored == SortedScores(AvailableSpec(s), |s.betHistory|) && |scored| > 0 && best == scored[0].0
  {
    var actions := AvailableActions(s);
    if |actions| == 0 {
      return Deal([], []), [];
    }
    var betCount := |TraceOf(s, P2).betHistory|;
    scored := SortedScores(actions, betCount);
    best := scored[0].0;
  }

  /** `get_ai_move`: the action of `get_ai_move_with_scores`. */
  method GetAiMove(s: State) returns (a: Action)
    ensures AvailableSpec(s) == [] ==> a == Deal([], [])
    ensures AvailableSpec(s) != [] ==> a == SortedScores(AvailableSpec(s), |s.betHistory|)[0].0
  {
    var scored;
    a, scored := GetAiMoveWithScores(s);
  }

  /** With six, nine, twelve ... bets made the AI calls BullShit, which then scores 10. */
  lemma {:induction false} CallsAfterEnoughBets(s: State)
    requires !PreDeal(s) && |s.betHistory| >= 6 && |s.betHistory| % 3 == 0
    ensures SortedScores(AvailableSpec(s), |s.betHistory|)[0].0 == BullShit
  {
    var actions := AvailableSpec(s);
    BullShitOfferedIffBets(s);
    var bc := |s.betHistory|;
    var w := ScoresOf(actions, bc);
    assert actions[0] == BullShit;
    HeadIsBest(actions, bc);
    var k := FirstArgMax(w);
    assert w[0] == 10.0;
    forall j | 0 <= j < |actions|
      ensures w[j] <= 10.0
    {
      ScoreBounds(actions[j], actions[j], bc);
    }
    assert k == 0;
  }
}
