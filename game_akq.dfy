// AKQ poker, a Kuhn-style game with an explicit dealer (src/games/AKQ.rs).
// Chance deals two different cards out of A, K, Q; P1 calls (checks) or
// bets; a bet is called or folded; after a check P2 may bet in turn. The
// public betting history is one of nine codes.
module Akq {
  import opened Wrappers
  import opened Players

  datatype Card = A | K | Q

  datatype Action = Deal(c1: Card, c2: Card) | Bet | Call | Fold

  /** The public history: before the deal, or one of the betting codes "", c, b, cc, bc, bf, cb, cbc, cbf. */
  datatype PublicState =
    Predeal | Postdeal | CallS | BetS | CallCall | BetCall | BetFold | CallBet | CallBetCall | CallBetFold

  function Rank(c: Card): nat
  {
    match c
    case A => 2
    case K => 1
    case Q => 0
  }

  /** `AkqCard::partial_cmp`: always defined, A > K > Q. */
  function CardCompare(a: Card, b: Card): (o: Ordering)
    ensures o == Equal <==> a == b
    ensures o == Greater <==> Rank(a) > Rank(b)
    ensures o == Less <==> Rank(a) < Rank(b)
  {
    match (a, b)
    case (A, A) => Equal
    case (K, K) => Equal
    case (Q, Q) => Equal
    case (A, _) => Greater
    case (K, A) => Less
    case (K, Q) => Greater
    case (Q, _) => Less
  }

  /** The card order is a strict total order: reversing the arguments reverses the answer. */
  lemma {:induction false} CardCompareAntisymmetric(a: Card, b: Card)
    ensures CardCompare(b, a) == CardCompare(a, b).Reverse()
  {
  }

  predicate IsTerminalCode(p: PublicState)
  {
    p == CallCall || p == BetCall || p == BetFold || p == CallBetCall || p == CallBetFold
  }

  /** `push_action`: the betting transition table; `None` where the source panics on an illegal pair. */
  function PushAction(p: PublicState, a: Action): (r: Option<PublicState>)
    ensures r.Some? ==> !IsTerminalCode(p)
    ensures IsTerminalCode(p) ==> r.None?
  {
    match (p, a)
    case (Postdeal, Bet) => Some(BetS)
    case (Postdeal, Call) => Some(CallS)
    case (CallS, Bet) => Some(CallBet)
    case (CallS, Call) => Some(CallCall)
    case (BetS, Call) => Some(BetCall)
    case (BetS, Fold) => Some(BetFold)
    case (CallBet, Call) => Some(CallBetCall)
    case (CallBet, Fold) => Some(CallBetFold)
    case (Predeal, Deal(_, _)) => Some(Postdeal)
    case _ => None
  }

  /** `PublicState::player`: chance before the deal and at the five terminal codes. */
  function PlayerOf(p: PublicState): (q: Player)
    ensures q == Chance <==> p == Predeal || IsTerminalCode(p)
  {
    match p
    case Predeal => Chance
    case Postdeal => P1
    case CallS => P2
    case BetS => P2
    case CallBet => P1
    case _ => Chance
  }

  /** The comparison as written: a two-party table with overlapping and missing entries. */
  function PublicCompareAsWritten(a: PublicState, b: PublicState): Option<Ordering>
  {
    if a == b then Some(Equal)
    else if a == Predeal || a == Postdeal
      || (a == CallS && b in {CallCall, CallBet, CallBetCall, CallBetFold})
      || (a == BetS && b in {BetCall, BetFold})
      || (a == CallBet && b in {CallBetCall, CallBetFold})
    then Some(Less)
    else if b == Predeal || b == Postdeal
      || (a in {CallCall, CallBet, CallBetCall, CallBetFold} && b == CallS)
      || (a == BetCall && b in {CallS, BetCall, BetFold})
      || (a == CallBetCall && b == CallBet)
    then Some(Greater)
    else None
  }

  /**
   * As written, the order contradicts itself: Predeal and Postdeal are each
   * Less than the other, a bet is before its call but the call is not after
   * the bet, and "bc" is after the unrelated "c".
   */
  lemma {:induction false} PublicCompareAsWrittenInconsistent()
    ensures PublicCompareAsWritten(Predeal, Postdeal) == Some(Less)
    ensures PublicCompareAsWritten(Postdeal, Predeal) == Some(Less)
    ensures PublicCompareAsWritten(BetS, BetCall) == Some(Less) && PublicCompareAsWritten(BetCall, BetS) == None
    ensures PublicCompareAsWritten(BetCall, CallS) == Some(Greater)
  {
  }

  /** The betting letters of a dealt public state. */
  function Moves(p: PublicState): string
  {
    match p
    case Predeal => ""
    case Postdeal => ""
    case CallS => "c"
    case BetS => "b"
    case CallCall => "cc"
    case BetCall => "bc"
    case BetFold => "bf"
    case CallBet => "cb"
    case CallBetCall => "cbc"
    case CallBetFold => "cbf"
  }

  /** The intended order: Predeal is before everything, and a history is before its proper extensions. */
  function PublicCompare(a: PublicState, b: PublicState): Option<Ordering>
  {
    if a == b then Some(Equal)
    else if a == Predeal then Some(Less)
    else if b == Predeal then Some(Greater)
    else if Moves(a) < Moves(b) then Some(Less)
    else if Moves(b) < Moves(a) then Some(Greater)
    else None
  }

  /** The intended order is antisymmetric: swapping the arguments reverses every answer. */
  lemma {:induction false} PublicCompareAntisymmetric(a: PublicState, b: PublicState)
    ensures PublicCompare(b, a) == ReverseOpt(PublicCompare(a, b))
  {
    if a != b && a != Predeal && b != Predeal {
      MovesInjective(a, b);
      if Moves(a) < Moves(b) {
        assert !(Moves(b) < Moves(a));
      }
    }
  }

  lemma {:induction false} MovesInjective(a: PublicState, b: PublicState)
    requires a != b && a != Predeal && b != Predeal
    ensures Moves(a) != Moves(b)
  {
  }

  /** Every legal betting step moves strictly later in the intended order. */
  lemma {:induction false} PushActionAdvances(p: PublicState, a: Action)
    requires PushAction(p, a).Some?
    ensures PublicCompare(p, PushAction(p, a).value) == Some(Less)
  {
    var q := PushAction(p, a).value;
    if p != Predeal {
      assert Moves(q) == Moves(p) + Moves(q)[|Moves(p)|..];
    }
  }

  /** A player's view: the public code and their own card. */
  datatype Trace = Trace(code: PublicState, myCard: Option<Card>)

  /** `AkqTrace::partial_cmp`: incomparable when both hold different cards, else the public order. */
  function TraceCompare(a: Trace, b: Trace): (o: Option<Ordering>)
    ensures a.myCard.Some? && b.myCard.Some? && a.myCard != b.myCard ==> o.None?
    ensures !(a.myCard.Some? && b.myCard.Some? && a.myCard != b.myCard) ==> o == PublicCompare(a.code, b.code)
  {
    if a.myCard.Some? && b.myCard.Some? && a.myCard != b.myCard then None
    else PublicCompare(a.code, b.code)
  }

  /** Trace comparison is antisymmetric too. */
  lemma {:induction false} TraceCompareAntisymmetric(a: Trace, b: Trace)
    ensures TraceCompare(b, a) == ReverseOpt(TraceCompare(a, b))
  {
    PublicCompareAntisymmetric(a.code, b.code);
  }

  datatype State = State(p1: Option<Card>, p2: Option<Card>, code: PublicState)

  function New(): (s: State)
    ensures s.p1.None? && s.p2.None? && s.code == Predeal
  {
    State(None, None, Predeal)
  }

  function TraceOf(s: State, player: Player): (t: Trace)
    ensures t.code == s.code
    ensures t.myCard == match player case P1 => s.p1 case P2 => s.p2 case Chance => None
  {
    match player
    case P1 => Trace(s.code, s.p1)
    case P2 => Trace(s.code, s.p2)
    case Chance => Trace(s.code, None)
  }

  function ActivePlayer(s: State): Player
  {
    PlayerOf(s.code)
  }

  function AvailableActions(s: State): (r: seq<Action>)
    ensures s.code == Predeal ==> |r| == 6 && forall i :: 0 <= i < 6 ==> r[i].Deal? && r[i].c1 != r[i].c2
    ensures s.code == Postdeal || s.code == CallS ==> r == [Call, Bet]
    ensures s.code == BetS || s.code == CallBet ==> r == [Call, Fold]
    ensures IsTerminalCode(s.code) ==> r == []
  {
    match s.code
    case Predeal => [Deal(A, K), Deal(A, Q), Deal(K, A), Deal(K, Q), Deal(Q, A), Deal(Q, K)]
    case Postdeal => [Call, Bet]
    case CallS => [Call, Bet]
    case BetS => [Call, Fold]
    case CallBet => [Call, Fold]
    case _ => []
  }

  /** The six deals are exactly the ordered pairs of different cards. */
  lemma {:induction false} DealsAreDistinctPairs(s: State, c1: Card, c2: Card)
    requires s.code == Predeal
    ensures Deal(c1, c2) in AvailableActions(s) <==> c1 != c2
  {
  }

  /**
   * `play`, with `None` where the source panics: before both cards are dealt
   * only a chance Deal of two different cards is accepted, reaching Postdeal;
   * afterwards the betting table applies.
   */
  function Play(s: State, a: Action): (r: Option<State>)
    ensures (s.p1.None? || s.p2.None?) ==>
      (r.Some? <==> a.Deal? && ActivePlayer(s) == Chance && a.c1 != a.c2)
    ensures (s.p1.None? || s.p2.None?) && r.Some? ==> r.value == State(Some(a.c1), Some(a.c2), Postdeal)
    ensures s.p1.Some? && s.p2.Some? ==>
      r == (if PushAction(s.code, a).Some? then Some(s.(code := PushAction(s.code, a).value)) else None)
  {
    if s.p1.None? || s.p2.None? then
      if a.Deal? && ActivePlayer(s) == Chance && a.c1 != a.c2 then Some(State(Some(a.c1), Some(a.c2), Postdeal))
      else None
    else
      var next := PushAction(s.code, a);
      if next.Some? then Some(s.(code := next.value)) else None
  }

  /** A state reached by legal play: cards are dealt exactly when the code is past Predeal. */
  predicate Reachable(s: State)
  {
    (s.code == Predeal <==> s.p1.None? && s.p2.None?) &&
    (s.code != Predeal ==> s.p1.Some? && s.p2.Some? && s.p1 != s.p2)
  }

  /** From a reachable state, `play` succeeds exactly on the available actions, and stays reachable. */
  lemma {:induction false} PlayAcceptsAvailable(s: State, a: Action)
    requires Reachable(s)
    ensures Play(s, a).Some? <==> a in AvailableActions(s)
    ensures Play(s, a).Some? ==> Reachable(Play(s, a).value)
  {
  }

  predicate IsOver(s: State)
  {
    s.p1.Some? && s.p2.Some? && IsTerminalCode(s.code)
  }

  /** At a finished game nobody is to act and nothing is available. */
  lemma {:induction false} OverMeansChance(s: State)
    requires IsOver(s)
    ensures ActivePlayer(s) == Chance && AvailableActions(s) == []
  {
  }

  function Evaluate(s: State): real
  {
    if !IsOver(s) then 0.0
    else
      var score := if CardCompare(s.p1.value, s.p2.value) == Greater then 1.0 else -1.0;
      match s.code
      case CallCall => 1.0 * score
      case BetCall => 2.0 * score
      case BetFold => 1.0
      case CallBetCall => 2.0 * score
      case CallBetFold => -1.0
      case _ => 0.0
  }

  /** Payoffs to P1: a showdown pays ±1 after two checks and ±2 after a called bet, by the higher card; a fold pays the bettor 1. */
  lemma {:induction false} EvaluateCases(s: State)
    ensures !IsOver(s) ==> Evaluate(s) == 0.0
    ensures IsOver(s) ==> var sign := if Rank(s.p1.value) > Rank(s.p2.value) then 1.0 else -1.0;
      (s.code == CallCall ==> Evaluate(s) == sign) &&
      (s.code in {BetCall, CallBetCall} ==> Evaluate(s) == 2.0 * sign) &&
      (s.code == BetFold ==> Evaluate(s) == 1.0) &&
      (s.code == CallBetFold ==> Evaluate(s) == -1.0)
  {
  }

  /** `sample_position`: who the trace belongs to is read off its code. */
  function SamplePosition(t: Trace): (r: seq<State>)
    requires PlayerOf(t.code) == Chance ==> t.code == Predeal
    requires PlayerOf(t.code) != Chance ==> t.myCard.Some?
    ensures PlayerOf(t.code) == Chance ==> r == [New()]
    ensures PlayerOf(t.code) != Chance ==> |r| == 2
    ensures PlayerOf(t.code) == P1 ==> forall k :: 0 <= k < |r| ==>
      r[k].p1 == t.myCard && r[k].p2.Some? && r[k].p2 != t.myCard && r[k].code == t.code
    ensures PlayerOf(t.code) == P2 ==> forall k :: 0 <= k < |r| ==>
      r[k].p2 == t.myCard && r[k].p1.Some? && r[k].p1 != t.myCard && r[k].code == t.code
    ensures PlayerOf(t.code) != Chance ==> r[0] != r[1]
  {
    match PlayerOf(t.code)
    case Chance => [New()]
    case P1 =>
      var others := Others(t.myCard.value);
      [State(t.myCard, Some(others[0]), t.code), State(t.myCard, Some(others[1]), t.code)]
    case P2 =>
      var others := Others(t.myCard.value);
      [State(Some(others[0]), t.myCard, t.code), State(Some(others[1]), t.myCard, t.code)]
  }

  /** The cards of [A, K, Q] other than `c`, in that order. */
  function Others(c: Card): (r: seq<Card>)
    ensures |r| == 2 && r[0] != c && r[1] != c && r[0] != r[1]
  {
    match c
    case A => [K, Q]
    case K => [A, Q]
    case Q => [A, K]
  }
}
