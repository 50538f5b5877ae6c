// The three poker skeletons: No-Limit Hold'em (src/games/nlhe.rs),
// Pot-Limit Omaha (src/games/plo.rs) and Seven-Card Stud
// (src/games/stud_7card.rs). They share one shape and differ only in the
// number of betting rounds after which the hand is over, so one model
// takes that number as a parameter.
module Poker {
  import opened Wrappers
  import opened Players
  import opened Seqs

  const NLHE_ROUNDS: nat := 4
  const PLO_ROUNDS: nat := 4
  const STUD_ROUNDS: nat := 7

  datatype Action = Fold | Check | Call | Raise(amount: nat) | AllIn

  /** What either player sees: the round and the actions without their players. */
  datatype Trace = Trace(round: nat, actions: seq<Action>)

  datatype State = State(round: nat, toMove: Player, actions: seq<(Player, Action)>)

  /** `Default`: round 0, chance to move, no actions. */
  function New(): (s: State)
    ensures s.round == 0 && s.toMove == Chance && s.actions == []
  {
    State(0, Chance, [])
  }

  function TraceOf(s: State, player: Player): (t: Trace)
    ensures t.round == s.round && |t.actions| == |s.actions|
    ensures forall k :: 0 <= k < |s.actions| ==> t.actions[k] == s.actions[k].1
  {
    Trace(s.round, Seconds(s.actions))
  }

  /** Traces are only ever equal or incomparable. */
  function Compare(a: Trace, b: Trace): (o: Option<Ordering>)
    ensures o == Some(Equal) <==> a == b
    ensures o != Some(Equal) ==> o.None?
  {
    if a == b then Some(Equal) else None
  }

  function ActivePlayer(s: State): Player
  {
    s.toMove
  }

  predicate HasFold(s: State)
  {
    exists k :: 0 <= k < |s.actions| && s.actions[k].1 == Fold
  }

  /** `is_over`: someone folded, or `rounds` rounds have been reached. */
  predicate IsOver(s: State, rounds: nat)
  {
    HasFold(s) || s.round >= rounds
  }

  /** `available_actions`: none once over, else Fold, Check, a raise of 10 and all-in. */
  function AvailableActions(s: State, rounds: nat): (r: seq<Action>)
    ensures IsOver(s, rounds) ==> r == []
    ensures !IsOver(s, rounds) ==> r == [Fold, Check, Raise(10), AllIn]
  {
    if IsOver(s, rounds) then [] else [Fold, Check, Raise(10), AllIn]
  }

  /**
   * `play`: the action is appended with the player who made it; a fold
   * hands the move to chance and anything else to the other player; the
   * round goes up when an even number of actions had been made before.
   */
  function Play(s: State, a: Action): (t: State)
    ensures t.actions == s.actions + [(s.toMove, a)]
    ensures t.toMove == if a == Fold then Chance else Other(s.toMove)
    ensures t.round == s.round + (if |s.actions| % 2 == 0 then 1 else 0)
  {
    State(
      if |s.actions| % 2 == 0 then s.round + 1 else s.round,
      if a == Fold then Chance else Other(s.toMove),
      s.actions + [(s.toMove, a)])
  }

  /** A folded or finished hand stays over whatever is played. */
  lemma {:induction false} OverIsPermanent(s: State, a: Action, rounds: nat)
    requires IsOver(s, rounds)
    ensures IsOver(Play(s, a), rounds)
  {
    var t := Play(s, a);
    if HasFold(s) {
      var k :| 0 <= k < |s.actions| && s.actions[k].1 == Fold;
      assert t.actions[k] == s.actions[k];
    }
  }

  /** A fold ends the hand at once. */
  lemma {:induction false} FoldEnds(s: State, rounds: nat)
    ensures IsOver(Play(s, Fold), rounds) && ActivePlayer(Play(s, Fold)) == Chance
  {
    assert Play(s, Fold).actions[|s.actions|].1 == Fold;
  }

  /** Two plays raise the round by exactly one: rounds advance every other action. */
  lemma {:induction false} TwoPlaysOneRound(s: State, a: Action, b: Action)
    ensures Play(Play(s, a), b).round == s.round + 1
  {
  }

  /**
   * Chance, once to move, keeps the move: `other` fixes chance. So from the
   * opening state (chance to move) neither player is ever to move.
   */
  lemma {:induction false} ChanceKeepsTheMove(s: State, a: Action)
    requires s.toMove == Chance
    ensures Play(s, a).toMove == Chance
  {
  }

  /** `evaluate`: 0 before the end; at the end the coin `heads` (a fair random draw in the source) decides ±1. */
  function Evaluate(s: State, rounds: nat, heads: bool): (v: real)
    ensures !IsOver(s, rounds) ==> v == 0.0
    ensures IsOver(s, rounds) ==> (v == 1.0 <==> heads) && (v == -1.0 <==> !heads)
  {
    if !IsOver(s, rounds) then 0.0 else if heads then 1.0 else -1.0
  }

  /** `sample_position`: one state in the traced round with P1 to move and no actions. */
  function SamplePosition(t: Trace): (r: seq<State>)
    ensures |r| == 1 && r[0].round == t.round && r[0].toMove == P1 && r[0].actions == []
  {
    [State(t.round, P1, [])]
  }

  /** The sample is consistent with its trace exactly when the trace has no actions. */
  lemma {:induction false} SampleMatchesTrace(t: Trace, player: Player)
    ensures TraceOf(SamplePosition(t)[0], player) == t <==> t.actions == []
  {
  }
}
