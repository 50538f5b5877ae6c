// Liar's Dice (src/games/liars_die.rs). Chance deals each player a hand of
// dice; the players then alternately raise a bid "at least `count` dice show
// `face`", with ones wild, until someone calls BullShit or the top bid
// (six on every die) is made. The last bidder wins 1 if the bid holds.
module LiarsDie {
  import opened Wrappers
  import opened Players

  const DICE_PER_PLAYER: nat := 5
  /** The number of samples `sample_position` draws for a dealt trace. */
  const SAMPLE_COUNT: nat := 128

  datatype Die = Two | Three | Four | Five | Six | One

  /** The derived order of `Die`, by declaration: Two < Three < Four < Five < Six < One. */
  function DieRank(d: Die): nat
  {
    match d
    case Two => 0
    case Three => 1
    case Four => 2
    case Five => 3
    case Six => 4
    case One => 5
  }

  /** `ALL_DIE`, in the order the source lists it. */
  const AllDie: seq<Die> := [One, Two, Three, Four, Five, Six]

  /** A bid's count is a `u8`: the source truncates it with `as u8`. */
  function U8(n: nat): nat
  {
    n % 256
  }

  datatype Action = Raise(face: Die, count: nat) | Deal(hand1: seq<Die>, hand2: seq<Die>) | BullShit

  function CompareNat(a: nat, b: nat): Ordering
  {
    if a < b then Less else if a == b then Equal else Greater
  }

  /** `LiarsDieAction::partial_cmp`: raises by count and then face; BullShit equals only itself; the rest is incomparable. */
  function ActionCompare(a: Action, b: Action): (o: Option<Ordering>)
    ensures o.Some? <==> (a.Raise? && b.Raise?) || (a == BullShit && b == BullShit)
    ensures a.Raise? && b.Raise? ==> (o == Some(Less) <==> a.count < b.count || (a.count == b.count && DieRank(a.face) < DieRank(b.face)))
    ensures a.Raise? && b.Raise? ==> (o == Some(Equal) <==> a == b)
  {
    match (a, b)
    case (BullShit, BullShit) => Some(Equal)
    case (Raise(d1, c1), Raise(d2, c2)) =>
      if c1 == c2 then Some(CompareNat(DieRank(d1), DieRank(d2))) else Some(CompareNat(c1, c2))
    case _ => None
  }

  /** The bid order is antisymmetric. */
  lemma {:induction false} ActionCompareAntisymmetric(a: Action, b: Action)
    ensures ActionCompare(b, a) == ReverseOpt(ActionCompare(a, b))
  {
  }

  /** What one player has seen: the bets and their own dice. */
  datatype Trace = Trace(betHistory: seq<Action>, myDice: seq<Die>)

  /**
   * `LiarsDieTrace::partial_cmp`: with different dice, an empty hand is
   * before any other and two non-empty hands are incomparable; with the
   * same dice, a bet history is after its prefixes.
   */
  function TraceCompare(a: Trace, b: Trace): (o: Option<Ordering>)
    ensures a.myDice == b.myDice ==> (o == Some(Equal) <==> a.betHistory == b.betHistory)
    ensures a.myDice == b.myDice ==> (o == Some(Less) <==> a.betHistory < b.betHistory)
    ensures a.myDice == b.myDice ==> (o == Some(Greater) <==> b.betHistory < a.betHistory)
    ensures a.myDice != b.myDice ==> (o == Some(Less) <==> |a.myDice| == 0)
    ensures a.myDice != b.myDice ==> (o == Some(Greater) <==> |a.myDice| != 0 && |b.myDice| == 0)
  {
    if a.myDice != b.myDice then
      if |a.myDice| == 0 then Some(Less)
      else if |b.myDice| == 0 then Some(Greater)
      else None
    else if a.betHistory == b.betHistory then Some(Equal)
    else if b.betHistory <= a.betHistory then Some(Greater)
    else if a.betHistory <= b.betHistory then Some(Less)
    else None
  }

  /** The trace order is antisymmetric. */
  lemma {:induction false} TraceCompareAntisymmetric(a: Trace, b: Trace)
    ensures TraceCompare(b, a) == ReverseOpt(TraceCompare(a, b))
  {
  }

  datatype State = State(p1: seq<Die>, p2: seq<Die>, betHistory: seq<Action>)

  function New(): State
  {
    State([], [], [])
  }

  /** `total_die`, truncated to `u8` as the source does. */
  function TotalDie(s: State): nat
  {
    U8(|s.p1| + |s.p2|)
  }

  predicate PreDeal(s: State)
  {
    |s.betHistory| == 0 && |s.p1| == 0 && |s.p2| == 0
  }

  /** A player's trace; the source has no trace for chance. */
  function TraceOf(s: State, player: Player): (t: Trace)
    requires player != Chance
    ensures t.betHistory == s.betHistory
    ensures t.myDice == if player == P1 then s.p1 else s.p2
  {
    if player == P1 then Trace(s.betHistory, s.p1) else Trace(s.betHistory, s.p2)
  }

  /** Chance before the deal, then P1 after an even number of bets and P2 after an odd number. */
  function ActivePlayer(s: State): (p: Player)
    ensures p == Chance <==> PreDeal(s)
    ensures !PreDeal(s) ==> (p == P1 <==> |s.betHistory| % 2 == 0)
  {
    if PreDeal(s) then Chance
    else if |s.betHistory| % 2 == 0 then P1
    else P2
  }

  function Last(bets: seq<Action>): (r: Option<Action>)
    ensures r.Some? <==> |bets| > 0
    ensures r.Some? ==> r.value == bets[|bets| - 1]
  {
    if |bets| == 0 then None else Some(bets[|bets| - 1])
  }

  // -------------------------------------------------------------------
  // available_actions: the specification

  /** A raise may be offered after `last` when there is no bid yet or it is strictly above the bid. */
  predicate Above(last: Option<Action>, a: Action)
  {
    last.None? || ActionCompare(last.value, a) == Some(Less)
  }

  /** The deals with one die each, for P1's die in AllDie[..i], every P2 die in turn. */
  function DealsUpTo(i: nat): (r: seq<Action>)
    requires i <= 6
    ensures |r| == 6 * i
  {
    if i == 0 then [] else DealsUpTo(i - 1) + DealRow(i - 1, 6)
  }

  function DealRow(i: nat, j: nat): (r: seq<Action>)
    requires i < 6 && j <= 6
    ensures |r| == j
  {
    if j == 0 then [] else DealRow(i, j - 1) + [Deal([AllDie[i]], [AllDie[j - 1]])]
  }

  /** Before the deal: a generic (random) Deal, then the 36 single-die Deals. */
  function DealActions(): (r: seq<Action>)
    ensures |r| == 37 && r[0] == Deal([], [])
  {
    [Deal([], [])] + DealsUpTo(6)
  }

  /** The raises at one count over AllDie[..j], skipping face One and anything not above `last`. */
  function RowRaises(count: nat, j: nat, last: Option<Action>): (r: seq<Action>)
    requires j <= 6
    ensures forall k :: 0 <= k < |r| ==> r[k].Raise? && r[k].face != One && r[k].count == U8(count) && Above(last, r[k])
  {
    if j == 0 then []
    else
      var d := AllDie[j - 1];
      var a := Raise(d, U8(count));
      RowRaises(count, j - 1, last) + (if d == One || !Above(last, a) then [] else [a])
  }

  /** The raises for counts 1..c. */
  function RaisesUpTo(c: nat, last: Option<Action>): (r: seq<Action>)
    ensures forall k :: 0 <= k < |r| ==> r[k].Raise? && r[k].face != One && Above(last, r[k])
    ensures forall k :: 0 <= k < |r| ==> exists n :: 1 <= n <= c && r[k].count == U8(n)
  {
    if c == 0 then []
    else
      var prev := RaisesUpTo(c - 1, last);
      var row := RowRaises(c, 6, last);
      assert forall k :: 0 <= k < |row| ==> row[k].count == U8(c);
      prev + row
  }

  function MaxCount(s: State): nat
  {
    if 6 < |s.p1| + |s.p2| then |s.p1| + |s.p2| else 6
  }

  /** The actions `available_actions` returns. */
  function AvailableSpec(s: State): seq<Action>
  {
    if PreDeal(s) then DealActions()
    else (if |s.betHistory| > 0 then [BullShit] else []) + RaisesUpTo(MaxCount(s), Last(s.betHistory))
  }

  // -------------------------------------------------------------------
  // available_actions: the loops

  /** `available_actions`, built with the source's nested loops and pushes. */
  method AvailableActions(s: State) returns (res: seq<Action>)
    ensures res == AvailableSpec(s)
  {
    if PreDeal(s) {
      res := DealLoop();
      return;
    }
    res := [];
    if |s.betHistory| > 0 {
      res := res + [BullShit];
    }
    var raises := RaiseLoop(MaxCount(s), Last(s.betHistory));
    res := res + raises;
  }

  /** The deals before the deal: the generic one, then one die each over ALL_DIE x ALL_DIE. */
  method DealLoop() returns (res: seq<Action>)
    ensures res == DealActions()
  {
    var deals := [];
    for i := 0 to 6
      invariant deals == DealsUpTo(i)
    {
      var row := DealRowLoop(i);
      deals := deals + row;
    }
    res := [Deal([], [])] + deals;
  }

  /** The inner loop: P1's die AllDie[i] against every P2 die. */
  method DealRowLoop(i: nat) returns (row: seq<Action>)
    requires i < 6
    ensures row == DealRow(i, 6)
  {
    row := [];
    for j := 0 to 6
      invariant row == DealRow(i, j)
    {
      row := row + [Deal([AllDie[i]], [AllDie[j]])];
    }
  }

  /** The raises for counts 1..maxCount, each count over ALL_DIE. */
  method RaiseLoop(maxCount: nat, last: Option<Action>) returns (res: seq<Action>)
    ensures res == RaisesUpTo(maxCount, last)
  {
    res := [];
    for count := 1 to maxCount + 1
      invariant res == RaisesUpTo(count - 1, last)
    {
      var row := RowLoop(count, last);
      res := res + row;
    }
  }

  /** The raises at one count: every face but One, kept when above the last bid. */
  method RowLoop(count: nat, last: Option<Action>) returns (res: seq<Action>)
    ensures res == RowRaises(count, 6, last)
  {
    res := [];
    for j := 0 to 6
      invariant res == RowRaises(count, j, last)
    {
      var die := AllDie[j];
      if die == One {
        continue;
      }
      var action := Raise(die, U8(count));
      if last.Some? {
        if ActionCompare(last.value, action) == Some(Less) {
          res := res + [action];
        }
      } else {
        res := res + [action];
      }
    }
  }

  // -------------------------------------------------------------------
  // What available_actions offers

  /** Before the deal there are 37 actions: the generic Deal and 36 single-die Deals. */
  lemma {:induction false} PreDealActionCount(s: State)
    requires PreDeal(s)
    ensures |AvailableSpec(s)| == 37
  {
  }

  /** After the deal BullShit is offered exactly when some bet has been made. */
  lemma {:induction false} BullShitOfferedIffBets(s: State)
    requires !PreDeal(s)
    ensures BullShit in AvailableSpec(s) <==> |s.betHistory| > 0
  {
    var raises := RaisesUpTo(MaxCount(s), Last(s.betHistory));
    assert BullShit !in raises;
  }

  /** After the deal every other action is a raise above the last bid, on a face other than One. */
  lemma {:induction false} RaisesAreAboveLastBid(s: State, a: Action)
    requires !PreDeal(s) && a in AvailableSpec(s) && a != BullShit
    ensures a.Raise? && a.face != One && Above(Last(s.betHistory), a)
    ensures exists n :: 1 <= n <= MaxCount(s) && a.count == U8(n)
  {
    var raises := RaisesUpTo(MaxCount(s), Last(s.betHistory));
    var full := AvailableSpec(s);
    var k :| 0 <= k < |full| && full[k] == a;
    if |s.betHistory| > 0 {
      assert full == [BullShit] + raises;
      assert a == raises[k - 1];
    } else {
      assert full == raises;
    }
  }

  /** Every raise above the last bid on a face other than One, with a count in range, is offered. */
  lemma {:induction false} RaisesAreComplete(s: State, d: Die, c: nat)
    requires !PreDeal(s) && d != One && 1 <= c <= MaxCount(s) && c < 256
    requires Above(Last(s.betHistory), Raise(d, c))
    ensures Raise(d, c) in AvailableSpec(s)
  {
    var last := Last(s.betHistory);
    InRaisesUpTo(MaxCount(s), last, d, c);
    var raises := RaisesUpTo(MaxCount(s), last);
    if |s.betHistory| > 0 {
      assert AvailableSpec(s) == [BullShit] + raises;
    }
  }

  lemma {:induction false} InRaisesUpTo(m: nat, last: Option<Action>, d: Die, c: nat)
    requires d != One && 1 <= c <= m && c < 256 && Above(last, Raise(d, c))
    ensures Raise(d, c) in RaisesUpTo(m, last)
  {
    if c == m {
      assert d in AllDie[..6] by {
        assert AllDie[..6] == AllDie;
        match d
        case Two => assert AllDie[1] == d;
        case Three => assert AllDie[2] == d;
        case Four => assert AllDie[3] == d;
        case Five => assert AllDie[4] == d;
        case Six => assert AllDie[5] == d;
      }
      InRowRaises(c, 6, last, d);
    } else {
      InRaisesUpTo(m - 1, last, d, c);
    }
  }

  lemma {:induction false} InRowRaises(c: nat, j: nat, last: Option<Action>, d: Die)
    requires j <= 6 && d != One && d in AllDie[..j] && c < 256 && Above(last, Raise(d, c))
    ensures Raise(d, c) in RowRaises(c, j, last)
  {
    if AllDie[j - 1] != d {
      assert d in AllDie[..j - 1] by {
        assert AllDie[..j] == AllDie[..j - 1] + [AllDie[j - 1]];
      }
      InRowRaises(c, j - 1, last, d);
    }
  }

  // -------------------------------------------------------------------
  // play, is_over, evaluate

  /**
   * `play`. A Deal with two empty hands deals the random hands `hand1` and
   * `hand2` (five dice each in the source); any other Deal deals its own
   * hands; either way the bets are cleared. Any other action is appended to
   * the bets.
   */
  function Play(s: State, a: Action, hand1: seq<Die>, hand2: seq<Die>): (t: State)
    ensures a.Deal? && |a.hand1| == 0 && |a.hand2| == 0 ==> t == State(hand1, hand2, [])
    ensures a.Deal? && !(|a.hand1| == 0 && |a.hand2| == 0) ==> t == State(a.hand1, a.hand2, [])
    ensures !a.Deal? ==> t == State(s.p1, s.p2, s.betHistory + [a])
  {
    if a.Deal? then
      if |a.hand1| == 0 && |a.hand2| == 0 then State(hand1, hand2, [])
      else State(a.hand1, a.hand2, [])
    else s.(betHistory := s.betHistory + [a])
  }

  /** Over once the last bet is BullShit or the top bid Raise(Six, total dice). */
  predicate IsOver(s: State)
  {
    Last(s.betHistory) == Some(BullShit) || Last(s.betHistory) == Some(Raise(Six, TotalDie(s)))
  }

  /** The index of the last raise in the bets, if any (`rposition`). */
  function LastRaiseIndex(bets: seq<Action>): (r: Option<nat>)
    ensures r.Some? ==> r.value < |bets| && bets[r.value].Raise?
    ensures r.Some? ==> forall k :: r.value < k < |bets| ==> !bets[k].Raise?
    ensures r.None? ==> forall k :: 0 <= k < |bets| ==> !bets[k].Raise?
  {
    if |bets| == 0 then None
    else if bets[|bets| - 1].Raise? then Some(|bets| - 1)
    else LastRaiseIndex(bets[..|bets| - 1])
  }

  /** The dice of a hand that show `face` or the wild One. */
  function CountShowing(hand: seq<Die>, face: Die): (n: nat)
    ensures n <= |hand|
  {
    if |hand| == 0 then 0
    else CountShowing(hand[..|hand| - 1], face) + (if hand[|hand| - 1] == face || hand[|hand| - 1] == One then 1 else 0)
  }

  /** The last bid holds when the dice showing its face (ones wild) are at least its count. */
  predicate BidHolds(s: State, bid: Action)
    requires bid.Raise?
  {
    bid.count <= CountShowing(s.p1, bid.face) + CountShowing(s.p2, bid.face)
  }

  /**
   * `evaluate`: 0 before the end; at the end ±1 for the last bidder, who is P1
   * when the last raise has an even index. The source expects some raise to
   * have been made by then.
   */
  function Evaluate(s: State): (v: real)
    requires IsOver(s) ==> LastRaiseIndex(s.betHistory).Some?
    ensures !IsOver(s) ==> v == 0.0
    ensures IsOver(s) ==> v == 1.0 || v == -1.0
  {
    if !IsOver(s) then 0.0
    else
      var idx := LastRaiseIndex(s.betHistory).value;
      var bid := s.betHistory[idx];
      var winScore := if idx % 2 == 0 then 1.0 else -1.0;
      if BidHolds(s, bid) then winScore else -winScore
  }

  /** At the end P1 wins exactly when P1 made the last bid and it holds, or P2 made it and it fails. */
  lemma {:induction false} EvaluateWinner(s: State)
    requires IsOver(s) && LastRaiseIndex(s.betHistory).Some?
    ensures var idx := LastRaiseIndex(s.betHistory).value;
      Evaluate(s) == 1.0 <==> (idx % 2 == 0 <==> BidHolds(s, s.betHistory[idx]))
  {
  }

  /** A top bid is over by itself and is its own last raise. */
  lemma {:induction false} TopBidEnds(s: State)
    requires !PreDeal(s)
    ensures var t := Play(s, Raise(Six, TotalDie(s)), [], []);
      IsOver(t) && LastRaiseIndex(t.betHistory) == Some(|s.betHistory|)
  {
  }

  /** An explicit deal leaves the game past the deal with P1 to move, and clears the bets. */
  lemma {:induction false} ExplicitDealStarts(s: State, h1: seq<Die>, h2: seq<Die>)
    requires |h1| > 0
    ensures var t := Play(s, Deal(h1, h2), [], []);
      t.p1 == h1 && t.p2 == h2 && t.betHistory == [] && ActivePlayer(t) == P1
  {
  }

  /**
   * `sample_position`: a fresh game for the empty trace; otherwise one state
   * per random opponent hand in `draws`, holding the traced dice as P1's.
   */
  function SamplePosition(t: Trace, draws: seq<seq<Die>>): (r: seq<State>)
    requires |draws| == SAMPLE_COUNT
    ensures |t.betHistory| == 0 && |t.myDice| == 0 ==> r == [New()]
    ensures !(|t.betHistory| == 0 && |t.myDice| == 0) ==>
      (|r| == SAMPLE_COUNT && forall k :: 0 <= k < |r| ==> r[k] == State(t.myDice, draws[k], t.betHistory))
  {
    if |t.betHistory| == 0 && |t.myDice| == 0 then [New()]
    else seq(SAMPLE_COUNT, k requires 0 <= k < SAMPLE_COUNT => State(t.myDice, draws[k], t.betHistory))
  }
}
