// The stand-alone Tic-Tac-Toe of src/examples/tictactoe/tictactoe.rs: a
// game object whose `step` writes its 3 x 3 board, switches the player and
// counts turns in place, and an iterator over the empty cells.
module TttExample {
  import opened Wrappers

  datatype PlayerId = X | O

  /** `HasTurnOrder::next`: the other player. */
  function Next(p: PlayerId): (q: PlayerId)
    ensures q != p
  {
    match p
    case O => X
    case X => O
  }

  /** `HasTurnOrder::prev`, which the source defines as `next`. */
  function Prev(p: PlayerId): (q: PlayerId)
    ensures q != p
  {
    Next(p)
  }

  /** With two players, prev and next agree, and next twice is the identity. */
  lemma {:induction false} TurnOrder(p: PlayerId)
    ensures Prev(p) == Next(p) && Next(Next(p)) == p
  {
  }

  datatype Action = Action(row: nat, col: nat)

  /** `From<usize>`: cell i is row i / 3, column i % 3. */
  function FromIndex(i: nat): (a: Action)
    ensures i < 9 ==> a.row < 3 && a.col < 3
  {
    Action(i / 3, i % 3)
  }

  /** `Into<usize>`: the row-major index. */
  function ToIndex(a: Action): nat
  {
    a.row * 3 + a.col
  }

  /** Index and action convert into each other on the board. */
  lemma {:induction false} IndexRoundTrip(i: nat, a: Action)
    ensures i < 9 ==> ToIndex(FromIndex(i)) == i
    ensures a.row < 3 && a.col < 3 ==> FromIndex(ToIndex(a)) == a && ToIndex(a) < 9
  {
  }

  /** A board's nine cells, row-major. */
  type Cells = c: seq<Option<PlayerId>> | |c| == 9 witness [None, None, None, None, None, None, None, None, None]

  /** `won`: p holds a whole row, column or diagonal. */
  predicate Won(c: Cells, p: PlayerId)
  {
    var q := Some(p);
    (c[0] == q && c[1] == q && c[2] == q) ||
    (c[3] == q && c[4] == q && c[5] == q) ||
    (c[6] == q && c[7] == q && c[8] == q) ||
    (c[0] == q && c[3] == q && c[6] == q) ||
    (c[1] == q && c[4] == q && c[7] == q) ||
    (c[2] == q && c[5] == q && c[8] == q) ||
    (c[0] == q && c[4] == q && c[8] == q) ||
    (c[2] == q && c[4] == q && c[6] == q)
  }

  /** The indices of the empty cells from i on, in increasing order. */
  function EmptyFrom(c: Cells, i: nat): (r: seq<nat>)
    ensures forall k :: 0 <= k < |r| ==> i <= r[k] < 9 && c[r[k]].None?
    ensures forall j, k :: 0 <= j < k < |r| ==> r[j] < r[k]
    decreases 9 - i
  {
    if i >= 9 then []
    else (if c[i].None? then [i] else []) + EmptyFrom(c, i + 1)
  }

  /** Every empty cell at or after i is yielded. */
  lemma {:induction false} EmptyFromComplete(c: Cells, i: nat, j: nat)
    requires i <= j < 9 && c[j].None?
    ensures j in EmptyFrom(c, i)
    decreases 9 - i
  {
    if j != i {
      EmptyFromComplete(c, i + 1, j);
    }
  }

  /** Marking an empty cell removes exactly that cell from what is yielded. */
  lemma {:induction false} MarkRemovesCell(c: Cells, t: nat, p: PlayerId, i: nat)
    requires t < 9 && c[t].None? && i <= 9
    ensures |c[t := Some(p)]| == 9
    ensures |EmptyFrom(c[t := Some(p)], i)| == |EmptyFrom(c, i)| - (if i <= t then 1 else 0)
    ensures t !in EmptyFrom(c[t := Some(p)], i)
    decreases 9 - i
  {
    if i < 9 {
      MarkRemovesCell(c, t, p, i + 1);
    }
  }

  /** `channel` of the public information at cell i, seen by `player`: 0 own, 1 the other's, 2 empty. */
  function Channel(c: Cells, player: PlayerId, channel: nat, i: nat): real
    requires channel < 3 && i < 9
  {
    if channel == 0 then (if c[i] == Some(player) then 1.0 else 0.0)
    else if channel == 1 then (if c[i].Some? && c[i] != Some(player) then 1.0 else 0.0)
    else if c[i].None? then 1.0 else 0.0
  }

  /** Exactly one of the three channels is 1 at each cell, the others 0. */
  lemma {:induction false} OneChannelPerCell(c: Cells, player: PlayerId, i: nat)
    requires i < 9
    ensures Channel(c, player, 0, i) + Channel(c, player, 1, i) + Channel(c, player, 2, i) == 1.0
    ensures forall ch :: 0 <= ch < 3 ==> Channel(c, player, ch, i) in {0.0, 1.0}
  {
  }

  /** An iterator over the empty cells of a copy of the board. */
  class ActionIterator {
    const game: Cells
    var i: nat

    /** `iter_actions` starts at cell 0. */
    constructor (c: Cells)
      ensures game == c && i == 0
    {
      game := c;
      i := 0;
    }

    /** The cells still to come. */
    function Remaining(): seq<nat>
      reads this
    {
      EmptyFrom(game, i)
    }

    /** `next`: the first empty cell at or after i, after which i is one past it; None when none is left. */
    method Next() returns (a: Option<Action>)
      modifies this
      ensures old(Remaining()) == [] ==> a.None? && Remaining() == []
      ensures old(Remaining()) != [] ==> a == Some(FromIndex(old(Remaining())[0])) && Remaining() == old(Remaining())[1..]
    {
      while i < 9
        invariant EmptyFrom(game, i) == old(EmptyFrom(game, i))
        decreases 9 - i
      {
        var action := FromIndex(i);
        IndexRoundTrip(i, action);
        i := i + 1;
        if game[ToIndex(action)].None? {
          assert old(EmptyFrom(game, i)) == EmptyFrom(game, i - 1) == [i - 1] + EmptyFrom(game, i);
          return Some(action);
        }
      }
      return None;
    }
  }

  class TicTacToe {
    const board: array2<Option<PlayerId>>
    var player: PlayerId
    var turn: nat

    predicate Valid()
      reads this
    {
      board.Length0 == 3 && board.Length1 == 3
    }

    /** The board's cells, row-major. */
    function Cells(): Cells
      reads this, board
      requires Valid()
    {
      seq(9, k requires 0 <= k < 9 reads board => board[k / 3, k % 3])
    }

    /** `new`: an empty board, X to move, turn 0. */
    constructor ()
      ensures Valid() && fresh(board)
      ensures Cells() == [None, None, None, None, None, None, None, None, None]
      ensures player == X && turn == 0
    {
      board := new Option<PlayerId>[3, 3]((_, _) => None);
      player := X;
      turn := 0;
    }

    /** `is_over`: one of the two players has won, or nine turns have been played. */
    function IsOver(): (r: bool)
      reads this, board
      requires Valid()
      ensures r <==> Won(Cells(), X) || Won(Cells(), O) || turn == 9
    {
      assert {player, Prev(player)} == {X, O};
      Won(Cells(), player) || Won(Cells(), Prev(player)) || turn == 9
    }

    /** `reward`: 1 when `p` has won, else -1 when the other has, else 0. */
    function Reward(p: PlayerId): (r: real)
      reads this, board
      requires Valid()
      ensures Won(Cells(), p) <==> r == 1.0
      ensures !Won(Cells(), p) && Won(Cells(), Next(p)) <==> r == -1.0
      ensures r in {1.0, -1.0, 0.0}
    {
      if Won(Cells(), p) then 1.0
      else if Won(Cells(), Next(p)) then -1.0
      else 0.0
    }

    /** `iter_actions`: an iterator over a copy of the board, yielding its empty cells in index order. */
    method IterActions() returns (it: ActionIterator)
      requires Valid()
      ensures fresh(it) && it.game == Cells() && it.i == 0
    {
      it := new ActionIterator(Cells());
    }

    /**
     * `step`: the source asserts that the cell is on the board and empty;
     * the player to move marks it, the other player is to move, the turn
     * count goes up by one, and the result says whether the game is over.
     */
    method Step(action: Action) returns (over: bool)
      requires Valid() && action.row < 3 && action.col < 3 && board[action.row, action.col].None?
      modifies this, board
      ensures Valid()
      ensures Cells() == old(Cells())[ToIndex(action) := Some(old(player))]
      ensures player == Next(old(player)) && turn == old(turn) + 1
      ensures over == IsOver()
    {
      ghost var before := Cells();
      board[action.row, action.col] := Some(player);
      player := Next(player);
      turn := turn + 1;
      assert Cells() == before[ToIndex(action) := Some(old(player))] by {
        forall k | 0 <= k < 9
          ensures Cells()[k] == before[ToIndex(action) := Some(old(player))][k]
        {
          IndexRoundTrip(k, action);
        }
      }
      over := IsOver();
    }

    /** `public_information`: per cell, channel 0 for the mover's marks, 1 for the other's, 2 for empty. */
    method PublicInformation() returns (s: array3<real>)
      requires Valid()
      ensures fresh(s) && s.Length0 == 3 && s.Length1 == 3 && s.Length2 == 3
      ensures forall ch, r, c :: 0 <= ch < 3 && 0 <= r < 3 && 0 <= c < 3 ==> s[ch, r, c] == Channel(Cells(), player, ch, 3 * r + c)
    {
      s := new real[3, 3, 3]((_, _, _) => 0.0);
      ghost var cells := Cells();
      for row := 0 to 3
        invariant forall ch, r, c :: 0 <= ch < 3 && 0 <= r < 3 && 0 <= c < 3 ==>
          s[ch, r, c] == if r < row then Channel(cells, player, ch, 3 * r + c) else 0.0
      {
        for col := 0 to 3
          invariant forall ch, r, c :: 0 <= ch < 3 && 0 <= r < 3 && 0 <= c < 3 ==>
            s[ch, r, c] == if r < row || (r == row && c < col) then Channel(cells, player, ch, 3 * r + c) else 0.0
        {
          assert board[row, col] == cells[3 * row + col];
          match board[row, col] {
            case Some(p) =>
              if p == player {
                s[0, row, col] := 1.0;
              } else {
                s[1, row, col] := 1.0;
              }
            case None =>
              s[2, row, col] := 1.0;
          }
        }
      }
    }
  }

  /** On an empty board every cell from index i on is yielded. */
  lemma {:induction false} EmptyCount(c: Cells, i: nat)
    requires c == [None, None, None, None, None, None, None, None, None] && i <= 9
    ensures |EmptyFrom(c, i)| == 9 - i
    decreases 9 - i
  {
    if i < 9 {
      EmptyCount(c, i + 1);
    }
  }
}
