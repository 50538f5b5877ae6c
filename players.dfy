// Players and the game interface shared by the Rust solvers and the game
// engines (src/utils.rs, src/obscuro/utils.rs, copilot/obscuro_core.rs).
//
// src/obscuro/utils.rs names the third player `Random`; it plays the role
// `Chance` plays everywhere else, so one datatype serves both.
module Players {

  datatype Player = P1 | P2 | Chance

  /** The opponent: P1 and P2 swap, Chance stays Chance. */
  function Other(p: Player): (q: Player)
    ensures p == Chance <==> q == Chance
    ensures p != Chance ==> q != p
  {
    match p
    case P1 => P2
    case P2 => P1
    case Chance => Chance
  }

  lemma {:induction false} OtherInvolution(p: Player)
    ensures Other(Other(p)) == p
    ensures Other(p) == p <==> p == Chance
  {
  }

  /** The best reward for a player, in P1-positive reward space: 1 for P1, -1 for P2, 0 for Chance. */
  function BestValue(p: Player): (v: real)
    ensures p == P1 ==> v > 0.0
    ensures p == P2 ==> v < 0.0
    ensures -1.0 <= v <= 1.0 && (v == 0.0 <==> p == Chance)
  {
    match p
    case P1 => 1.0
    case P2 => -1.0
    case Chance => 0.0
  }

  /** The worst reward for a player; Chance has none (the source panics). */
  function WorstValue(p: Player): (v: real)
    requires p != Chance
    ensures v == -BestValue(p)
    ensures v == BestValue(Other(p))
  {
    if p == P1 then -1.0 else 1.0
  }

  /** `best_value` of src/obscuro/utils.rs, which panics for the random player. */
  function StrictBestValue(p: Player): (v: real)
    requires p != Chance
    ensures v == BestValue(p) && v == -WorstValue(p)
    ensures v == 1.0 || v == -1.0
  {
    match p
    case P1 => 1.0
    case P2 => -1.0
  }

  // -------------------------------------------------------------------
  // copilot/obscuro_core.rs: best and worst values are infinities

  /** A reward extended with the two infinities of `f64`. */
  datatype Extended = NegInf | Finite(x: real) | PosInf

  function Negate(e: Extended): Extended
  {
    match e
    case NegInf => PosInf
    case Finite(x) => Finite(-x)
    case PosInf => NegInf
  }

  /** `other` of copilot/obscuro_core.rs panics on Chance. */
  function CopilotOther(p: Player): (q: Player)
    requires p != Chance
    ensures q != Chance && q != p && q == Other(p)
  {
    if p == P1 then P2 else P1
  }

  function CopilotBestValue(p: Player): (v: Extended)
    ensures p == P1 <==> v == PosInf
    ensures p == P2 <==> v == NegInf
    ensures p == Chance <==> v == Finite(0.0)
  {
    match p
    case P1 => PosInf
    case P2 => NegInf
    case Chance => Finite(0.0)
  }

  function CopilotWorstValue(p: Player): (v: Extended)
    ensures p == Chance <==> v == Finite(0.0)
  {
    match p
    case P1 => NegInf
    case P2 => PosInf
    case Chance => Finite(0.0)
  }

  /** Each player's worst value is the negation of their best value, and the opponent's best. */
  lemma {:induction false} CopilotWorstIsNegatedBest(p: Player)
    ensures CopilotWorstValue(p) == Negate(CopilotBestValue(p))
    ensures p != Chance ==> CopilotWorstValue(p) == CopilotBestValue(CopilotOther(p))
  {
  }

  // -------------------------------------------------------------------
  // The `Game` trait

  /**
   * The operations every game provides, over states `S`, actions `A` and
   * traces `T` (what one player has observed).
   */
  datatype Game<!S, !A, T> = Game(
    activePlayer: S -> Player,
    availableActions: S -> seq<A>,
    play: (S, A) -> S,
    trace: (S, Player) -> T,
    isOver: S -> bool,
    evaluate: S -> real)

  /** The player whose trace comes first in an identifier: the active player, or P1 at a chance node. */
  function Hero(active: Player): (h: Player)
    ensures h != Chance
    ensures active != Chance ==> h == active
    ensures active == Chance ==> h == P1
  {
    if active == Chance then P1 else active
  }

  /** `identifier`: the traces of the hero and of the villain, the hero's opponent. */
  function Identifier<S, A, T>(g: Game<S, A, T>, s: S): (id: (T, T))
    ensures var h := Hero(g.activePlayer(s));
      id.0 == g.trace(s, h) && id.1 == g.trace(s, Other(h))
  {
    var hero := Hero(g.activePlayer(s));
    (g.trace(s, hero), g.trace(s, Other(hero)))
  }

  /** The identifier always holds one trace of each real player. */
  lemma {:induction false} IdentifierCoversBothPlayers<S, A, T>(g: Game<S, A, T>, s: S)
    ensures var h := Hero(g.activePlayer(s));
      {h, Other(h)} == {P1, P2}
  {
  }
}
