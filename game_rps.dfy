// Rock-Paper-Scissors played sequentially (src/games/rps.rs): P1 moves,
// then P2, and the winner's payoff is 5 when the winning move is Rock and
// 1 otherwise.
module Rps {
  import opened Wrappers
  import opened Players

  datatype Move = Rock | Paper | Scissors

  datatype State = State(p1: Option<Move>, p2: Option<Move>, toMove: Player)

  /** `Rps::new`: nobody has moved and P1 is to move. */
  function New(): (s: State)
    ensures s.p1.None? && s.p2.None? && s.toMove == P1
  {
    State(None, None, P1)
  }

  /** The trace is the stage: 0 before P1 moves, 1 after, 2 once both have moved. */
  function Trace(s: State, player: Player): (stage: nat)
    ensures stage <= 2
    ensures stage == 0 <==> s.p1.None?
    ensures stage == 1 <==> s.p1.Some? && s.p2.None?
    ensures stage == 2 <==> s.p1.Some? && s.p2.Some?
  {
    if s.p1.None? then 0 else if s.p2.None? then 1 else 2
  }

  /** Both players see the same stage. */
  lemma {:induction false} TraceIgnoresPlayer(s: State, a: Player, b: Player)
    ensures Trace(s, a) == Trace(s, b)
  {
  }

  predicate IsOver(s: State)
  {
    s.p1.Some? && s.p2.Some?
  }

  function AvailableActions(s: State): (r: seq<Move>)
    ensures |r| == 0 <==> IsOver(s)
    ensures !IsOver(s) ==> r == [Rock, Paper, Scissors]
  {
    if IsOver(s) then [] else [Rock, Paper, Scissors]
  }

  /** `play`: P1's move fills p1 and passes to P2; P2's fills p2 and passes back. Chance never moves. */
  function Play(s: State, a: Move): (t: State)
    requires s.toMove != Chance
    ensures s.toMove == P1 ==> t == State(Some(a), s.p2, P2)
    ensures s.toMove == P2 ==> t == State(s.p1, Some(a), P1)
  {
    match s.toMove
    case P1 => s.(p1 := Some(a), toMove := P2)
    case P2 => s.(p2 := Some(a), toMove := P1)
  }

  /** Rock beats Scissors, Scissors beats Paper, Paper beats Rock. */
  predicate Beats(a: Move, b: Move)
  {
    (a == Rock && b == Scissors) || (a == Scissors && b == Paper) || (a == Paper && b == Rock)
  }

  /** The payoff of a finished round between moves `a` (P1) and `b` (P2), for P1. */
  function Payoff(a: Move, b: Move): real
  {
    if a == b then 0.0
    else
      var p1Wins := Beats(a, b);
      var winnerUsedRock := (p1Wins && a == Rock) || (!p1Wins && b == Rock);
      var mag := if winnerUsedRock then 5.0 else 1.0;
      if p1Wins then mag else -mag
  }

  function Evaluate(s: State): real
  {
    if s.p1.Some? && s.p2.Some? then Payoff(s.p1.value, s.p2.value) else 0.0
  }

  /** Distinct moves: exactly one beats the other. */
  lemma {:induction false} BeatsIsStrict(a: Move, b: Move)
    ensures a != b ==> (Beats(a, b) <==> !Beats(b, a))
    ensures !Beats(a, a)
  {
  }

  /** The payoff is 0 exactly before the end or on a tie; otherwise the winner gets 5 on Rock, else 1. */
  lemma {:induction false} EvaluateCases(s: State)
    ensures Evaluate(s) == 0.0 <==> !IsOver(s) || s.p1 == s.p2
    ensures IsOver(s) && Beats(s.p1.value, s.p2.value) ==> Evaluate(s) == (if s.p1.value == Rock then 5.0 else 1.0)
    ensures IsOver(s) && Beats(s.p2.value, s.p1.value) ==> Evaluate(s) == (if s.p2.value == Rock then -5.0 else -1.0)
  {
  }

  /** Swapping the two moves negates the payoff: the game is symmetric and zero-sum. */
  lemma {:induction false} PayoffAntisymmetric(a: Move, b: Move)
    ensures Payoff(b, a) == -Payoff(a, b)
  {
  }

  /** `sample_position`: every state with the given stage, over P1 moves Rock, Paper, Paper. */
  function SamplePosition(stage: nat): (r: seq<State>)
    requires stage <= 2
    ensures forall k :: 0 <= k < |r| ==> r[k].toMove != Chance
    decreases stage
  {
    if stage == 0 then [New()]
    else FlatPlays(SamplePosition(stage - 1))
  }

  /** Each state followed by its Rock, Paper and Paper continuations. */
  function FlatPlays(ss: seq<State>): (r: seq<State>)
    requires forall k :: 0 <= k < |ss| ==> ss[k].toMove != Chance
    ensures |r| == 3 * |ss|
    ensures forall k :: 0 <= k < |r| ==> r[k].toMove != Chance
  {
    if |ss| == 0 then []
    else
      var s := ss[0];
      [Play(s, Rock), Play(s, Paper), Play(s, Paper)] + FlatPlays(ss[1..])
  }

  /** Stages 0, 1 and 2 are sampled by 1, 3 and 9 states, and every sample has the requested stage. */
  lemma {:induction false} SamplePositionShape(stage: nat)
    requires stage <= 2
    ensures |SamplePosition(stage)| == if stage == 0 then 1 else if stage == 1 then 3 else 9
    ensures forall k :: 0 <= k < |SamplePosition(stage)| ==> Trace(SamplePosition(stage)[k], P1) == stage
  {
    var s0 := New();
    assert SamplePosition(0) == [s0];
    if stage >= 1 {
      var s1 := SamplePosition(1);
      assert s1 == [Play(s0, Rock), Play(s0, Paper), Play(s0, Paper)] by {
        assert FlatPlays([s0]) == [Play(s0, Rock), Play(s0, Paper), Play(s0, Paper)] + FlatPlays([]);
      }
      if stage == 2 {
        var s2 := SamplePosition(2);
        assert s1[1..][1..][1..] == [];
        assert s2 == FlatPlays(s1);
        forall k | 0 <= k < 9
          ensures Trace(s2[k], P1) == 2
        {
          assert s2 == [Play(s1[0], Rock), Play(s1[0], Paper), Play(s1[0], Paper)]
            + ([Play(s1[1], Rock), Play(s1[1], Paper), Play(s1[1], Paper)]
            + ([Play(s1[2], Rock), Play(s1[2], Paper), Play(s1[2], Paper)] + FlatPlays([])));
        }
      }
    }
  }

  /** Stage 1 is reached by P1 playing Rock once and Paper twice; Scissors is never sampled. */
  lemma {:induction false} StageOneSamples()
    ensures SamplePosition(1) == [State(Some(Rock), None, P2), State(Some(Paper), None, P2), State(Some(Paper), None, P2)]
  {
    assert SamplePosition(0) == [New()];
    assert FlatPlays([New()]) == [Play(New(), Rock), Play(New(), Paper), Play(New(), Paper)] + FlatPlays([]);
  }

  // -------------------------------------------------------------------
  // The feature vector of `encode_tensor`

  function MoveOffset(m: Move): (k: nat)
    ensures k < 3
  {
    match m
    case Rock => 0
    case Paper => 1
    case Scissors => 2
  }

  /**
   * The 12 features seen from `perspective`: a one-hot stage (0..2), the
   * perspective player (3 for P1, 4 for P2), the perspective player's own
   * move (5..7), the opponent's move (8..10), and whether the perspective
   * player is to move (11). Any perspective other than P1 counts p2 as its
   * own move.
   */
  method EncodeFeatures(s: State, perspective: Player) returns (f: seq<real>)
    ensures |f| == 12
    ensures forall i :: 0 <= i < 3 ==> f[i] == (if i == Trace(s, perspective) then 1.0 else 0.0)
    ensures f[3] == (if perspective == P1 then 1.0 else 0.0)
    ensures f[4] == (if perspective == P2 then 1.0 else 0.0)
    ensures var mine := if perspective == P1 then s.p1 else s.p2;
      forall m: Move :: f[5 + MoveOffset(m)] == (if mine == Some(m) then 1.0 else 0.0)
    ensures var theirs := if perspective == P1 then s.p2 else s.p1;
      forall m: Move :: f[8 + MoveOffset(m)] == (if theirs == Some(m) then 1.0 else 0.0)
    ensures f[11] == (if s.toMove == perspective then 1.0 else 0.0)
  {
    var features := new real[12](_ => 0.0);
    var stage := if s.p1.None? then 0 else if s.p2.None? then 1 else 2;
    features[stage] := 1.0;
    match perspective {
      case P1 => features[3] := 1.0;
      case P2 => features[4] := 1.0;
      case Chance =>
    }
    var mine := if perspective == P1 then s.p1 else s.p2;
    if mine.Some? {
      features[5 + MoveOffset(mine.value)] := 1.0;
    }
    var theirs := if perspective == P1 then s.p2 else s.p1;
    if theirs.Some? {
      features[8 + MoveOffset(theirs.value)] := 1.0;
    }
    if s.toMove == perspective {
      features[11] := 1.0;
    }
    f := features[..];
  }
}
