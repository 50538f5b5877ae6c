// Tic-Tac-Toe as a perfect-information game (src/games/perfect_info/tictactoe.rs)
// and its twin src/games/tictactoe.rs, which differs only in starting from
// a preset board and in reading the player to move off the trace. The
// board is stored row-major: cell (x, y) is at index 3 * y + x.
module TicTacToe {
  import opened Wrappers
  import opened Players

  type Board = b: seq<Option<Player>> | |b| == 9 witness [None, None, None, None, None, None, None, None, None]

  function Index(x: nat, y: nat): (i: nat)
    requires x < 3 && y < 3
    ensures i < 9
  {
    3 * y + x
  }

  /** `new` in the perfect-information variant: every cell empty. */
  function New(): (b: Board)
    ensures forall i :: 0 <= i < 9 ==> b[i].None?
  {
    [None, None, None, None, None, None, None, None, None]
  }

  /** `new` in src/games/tictactoe.rs: P2 at (1,0) and (0,1), P1 at (1,1) and (2,1). */
  function PresetNew(): (b: Board)
    ensures b[Index(1, 0)] == Some(P2) && b[Index(0, 1)] == Some(P2)
    ensures b[Index(1, 1)] == Some(P1) && b[Index(2, 1)] == Some(P1)
    ensures forall i :: 0 <= i < 9 && i !in {1, 3, 4, 5} ==> b[i].None?
  {
    [None, Some(P2), None, Some(P2), Some(P1), Some(P1), None, None, None]
  }

  /** The number of filled cells among the first k. */
  function FilledUpTo(b: Board, k: nat): (n: nat)
    requires k <= 9
    ensures n <= k
  {
    if k == 0 then 0 else FilledUpTo(b, k - 1) + (if b[k - 1].Some? then 1 else 0)
  }

  function Filled(b: Board): (n: nat)
    ensures n <= 9
  {
    FilledUpTo(b, 9)
  }

  /** `active_player` (and `TraceI::player` in the twin): P1 on an even number of filled cells. */
  function ActivePlayer(b: Board): (p: Player)
    ensures p == P1 <==> Filled(b) % 2 == 0
    ensures p != Chance
  {
    if Filled(b) % 2 == 0 then P1 else P2
  }

  /** The empty cells among the first k, as (x, y), in row-major order. */
  function EmptyUpTo(b: Board, k: nat): (r: seq<(nat, nat)>)
    requires k <= 9
    ensures forall j :: 0 <= j < |r| ==> r[j].0 < 3 && r[j].1 < 3 && Index(r[j].0, r[j].1) < k && b[Index(r[j].0, r[j].1)].None?
    ensures forall j, l :: 0 <= j < l < |r| ==> Index(r[j].0, r[j].1) < Index(r[l].0, r[l].1)
    ensures |r| == k - FilledUpTo(b, k)
  {
    if k == 0 then []
    else
      var prev := EmptyUpTo(b, k - 1);
      var cell := CellOf(k - 1);
      if b[k - 1].None? then prev + [cell] else prev
  }

  /** `available_actions`: the empty cells as (x, y), rows from top, left to right in each row. */
  function AvailableActions(b: Board): (r: seq<(nat, nat)>)
    ensures |r| == 9 - Filled(b)
  {
    EmptyUpTo(b, 9)
  }

  /** Every empty cell is offered. */
  lemma {:induction false} EmptyIndexOffered(b: Board, k: nat, i: nat)
    requires i < k <= 9 && b[i].None?
    ensures CellOf(i) in EmptyUpTo(b, k)
  {
    var prev := EmptyUpTo(b, k - 1);
    if i < k - 1 {
      EmptyIndexOffered(b, k - 1, i);
      assert EmptyUpTo(b, k) == prev + (if b[k - 1].None? then [CellOf(k - 1)] else []);
    } else {
      assert EmptyUpTo(b, k) == prev + [CellOf(i)];
    }
  }

  /** The cell (x, y) of index i: column i % 3, row i / 3. */
  function CellOf(i: nat): (c: (nat, nat))
    requires i < 9
    ensures c.0 < 3 && c.1 < 3 && Index(c.0, c.1) == i
  {
    (i % 3, i / 3)
  }

  /** The cell of an index is recovered by `% 3` and `/ 3`. */
  lemma {:induction false} IndexDivMod(x: nat, y: nat)
    requires x < 3 && y < 3
    ensures CellOf(Index(x, y)) == (x, y)
  {
    var i := Index(x, y);
    assert i == 3 * y + x;
    assert i % 3 == x && i / 3 == y by {
      if i < 3 {
      } else if i < 6 {
        assert i - 3 == x;
      } else {
        assert i - 6 == x;
      }
    }
  }


  /** The actions offered are exactly the empty cells, each once. */
  lemma {:induction false} AvailableActionsAreEmptyCells(b: Board, x: nat, y: nat)
    requires x < 3 && y < 3
    ensures (x, y) in AvailableActions(b) <==> b[Index(x, y)].None?
    ensures forall j, l :: 0 <= j < l < |AvailableActions(b)| ==> AvailableActions(b)[j] != AvailableActions(b)[l]
  {
    if b[Index(x, y)].None? {
      EmptyIndexOffered(b, 9, Index(x, y));
      IndexDivMod(x, y);
    }
  }

  /** An empty board offers all nine cells. */
  lemma {:induction false} NineOpeningMoves()
    ensures |AvailableActions(New())| == 9
  {
    assert FilledUpTo(New(), 9) == 0 by {
      var b := New();
      assert FilledUpTo(b, 0) == 0;
      assert FilledUpTo(b, 1) == 0;
      assert FilledUpTo(b, 2) == 0;
      assert FilledUpTo(b, 3) == 0;
      assert FilledUpTo(b, 4) == 0;
      assert FilledUpTo(b, 5) == 0;
      assert FilledUpTo(b, 6) == 0;
      assert FilledUpTo(b, 7) == 0;
      assert FilledUpTo(b, 8) == 0;
    }
  }

  /** `play`: the cell (x, y) gets the player to move. */
  function Play(b: Board, a: (nat, nat)): (r: Board)
    requires a.0 < 3 && a.1 < 3
    ensures r[Index(a.0, a.1)] == Some(ActivePlayer(b))
    ensures forall i :: 0 <= i < 9 && i != Index(a.0, a.1) ==> r[i] == b[i]
  {
    b[Index(a.0, a.1):= Some(ActivePlayer(b))]
  }

  lemma {:induction false} FilledUpToFill(b: Board, i: nat, p: Player, k: nat)
    requires i < 9 && b[i].None? && k <= 9
    ensures FilledUpTo(b[i := Some(p)], k) == FilledUpTo(b, k) + (if i < k then 1 else 0)
  {
    if k > 0 {
      FilledUpToFill(b, i, p, k - 1);
    }
  }

  /** Playing an empty cell fills one more cell: one fewer move, and the other player to move. */
  lemma {:induction false} PlayFillsOneCell(b: Board, a: (nat, nat))
    requires a.0 < 3 && a.1 < 3 && b[Index(a.0, a.1)].None?
    ensures |AvailableActions(Play(b, a))| == |AvailableActions(b)| - 1
    ensures ActivePlayer(Play(b, a)) == Other(ActivePlayer(b))
  {
    FilledUpToFill(b, Index(a.0, a.1), ActivePlayer(b), 9);
  }

  // -------------------------------------------------------------------
  // evaluate and is_over

  /** The eight lines, in the order `evaluate` tries them: rows, columns, diagonal, anti-diagonal. */
  const Lines: seq<(nat, nat, nat)> := [(0, 1, 2), (3, 4, 5), (6, 7, 8), (0, 3, 6), (1, 4, 7), (2, 5, 8), (0, 4, 8), (6, 4, 2)]

  /** Three cells all filled by one and the same player. */
  predicate Line(b: Board, i: nat, j: nat, k: nat)
    requires i < 9 && j < 9 && k < 9
  {
    b[i].Some? && b[j] == b[i] && b[k] == b[i]
  }

  /** Line number l is filled by p. */
  predicate LineOf(b: Board, l: nat, p: Player)
    requires l < 8
  {
    var (i, j, k) := Lines[l];
    b[i] == Some(p) && b[j] == Some(p) && b[k] == Some(p)
  }

  /** The owner of the first complete line, if any. */
  function Winner(b: Board): (w: Option<Player>)
    ensures w.Some? ==> exists l :: 0 <= l < 8 && LineOf(b, l, w.value)
    ensures w.None? ==> forall l, p :: 0 <= l < 8 ==> !LineOf(b, l, p)
  {
    if Line(b, 0, 1, 2) then assert LineOf(b, 0, b[0].value); b[0]
    else if Line(b, 3, 4, 5) then assert LineOf(b, 1, b[3].value); b[3]
    else if Line(b, 6, 7, 8) then assert LineOf(b, 2, b[6].value); b[6]
    else if Line(b, 0, 3, 6) then assert LineOf(b, 3, b[0].value); b[0]
    else if Line(b, 1, 4, 7) then assert LineOf(b, 4, b[1].value); b[1]
    else if Line(b, 2, 5, 8) then assert LineOf(b, 5, b[2].value); b[2]
    else if Line(b, 0, 4, 8) then assert LineOf(b, 6, b[0].value); b[0]
    else if Line(b, 6, 4, 2) then assert LineOf(b, 7, b[6].value); b[6]
    else None
  }

  /** `evaluate`: 1 when the winning line is P1's, -1 when it is P2's, else 0. */
  function Evaluate(b: Board): (v: real)
    ensures v == 1.0 <==> Winner(b) == Some(P1)
    ensures v == -1.0 <==> Winner(b) == Some(P2)
    ensures v == 0.0 <==> Winner(b) !in {Some(P1), Some(P2)}
  {
    match Winner(b)
    case Some(P1) => 1.0
    case Some(P2) => -1.0
    case _ => 0.0
  }

  /** `is_over`: someone has a line or no cell is empty. */
  predicate IsOver(b: Board)
  {
    Evaluate(b) != 0.0 || |AvailableActions(b)| == 0
  }

  /** On a board of player marks, any complete line ends the game and decides it. */
  lemma {:induction false} LineEndsGame(b: Board, l: nat, p: Player)
    requires l < 8 && p != Chance && LineOf(b, l, p)
    requires forall i :: 0 <= i < 9 ==> b[i] != Some(Chance)
    ensures IsOver(b) && Evaluate(b) != 0.0
  {
    var w := Winner(b);
    assert w.Some?;
    var m :| 0 <= m < 8 && LineOf(b, m, w.value);
    assert b[Lines[m].0] == w;
  }

  /** The empty board is not over, evaluates to 0 and has P1 to move. */
  lemma {:induction false} NewGame()
    ensures !IsOver(New()) && Evaluate(New()) == 0.0 && ActivePlayer(New()) == P1
  {
    NineOpeningMoves();
  }

  /** The preset board has P1 to move, five empty cells, and no winner yet. */
  lemma {:induction false} PresetGame()
    ensures ActivePlayer(PresetNew()) == P1 && |AvailableActions(PresetNew())| == 5 && Evaluate(PresetNew()) == 0.0
  {
    var b := PresetNew();
    assert FilledUpTo(b, 9) == 4 by {
      assert FilledUpTo(b, 1) == 0;
      assert FilledUpTo(b, 2) == 1;
      assert FilledUpTo(b, 3) == 1;
      assert FilledUpTo(b, 4) == 2;
      assert FilledUpTo(b, 5) == 3;
      assert FilledUpTo(b, 6) == 4;
      assert FilledUpTo(b, 7) == 4;
      assert FilledUpTo(b, 8) == 4;
    }
  }

  /** `sample_position`: the trace is the whole board, so it is its only sample. */
  function SamplePosition(t: Board): (r: seq<Board>)
    ensures r == [t]
  {
    [t]
  }

  /** The trace of either player is the board itself. */
  function TraceOf(b: Board, player: Player): (t: Board)
    ensures t == b
  {
    b
  }

  // -------------------------------------------------------------------
  // The trace order of the perfect-information variant

  /** Two boards disagree on some cell both have filled. */
  predicate Conflict(a: Board, b: Board)
  {
    exists i :: 0 <= i < 9 && a[i].Some? && b[i].Some? && a[i] != b[i]
  }

  /** Every cell filled in `a` is filled in `b`. */
  predicate FilledWithin(a: Board, b: Board)
  {
    forall i :: 0 <= i < 9 && a[i].Some? ==> b[i].Some?
  }

  /** The order the trace comparison computes: None on a conflict, else inclusion of the filled cells. */
  function BoardOrder(a: Board, b: Board): Option<Ordering>
  {
    if Conflict(a, b) then None
    else if FilledWithin(a, b) && FilledWithin(b, a) then Some(Equal)
    else if FilledWithin(a, b) then Some(Less)
    else if FilledWithin(b, a) then Some(Greater)
    else None
  }

  /** Without a conflict the boards are equal exactly when they compare Equal; and the order is antisymmetric. */
  lemma {:induction false} BoardOrderProperties(a: Board, b: Board)
    ensures BoardOrder(a, b) == Some(Equal) <==> a == b
    ensures BoardOrder(b, a) == ReverseOpt(BoardOrder(a, b))
  {
    if BoardOrder(a, b) == Some(Equal) {
      assert forall i :: 0 <= i < 9 ==> a[i] == b[i];
    }
  }

  /** `partial_cmp`, with its nested loops over the rows and cells and its two subset flags. */
  method Compare(a: Board, b: Board) returns (o: Option<Ordering>)
    ensures o == BoardOrder(a, b)
  {
    var selfSubsetOther := true;
    var otherSubsetSelf := true;
    for y := 0 to 3
      invariant forall i :: 0 <= i < 3 * y ==> !(a[i].Some? && b[i].Some? && a[i] != b[i])
      invariant selfSubsetOther <==> forall i :: 0 <= i < 3 * y && a[i].Some? ==> b[i].Some?
      invariant otherSubsetSelf <==> forall i :: 0 <= i < 3 * y && b[i].Some? ==> a[i].Some?
    {
      for x := 0 to 3
        invariant forall i :: 0 <= i < 3 * y + x ==> !(a[i].Some? && b[i].Some? && a[i] != b[i])
        invariant selfSubsetOther <==> forall i :: 0 <= i < 3 * y + x && a[i].Some? ==> b[i].Some?
        invariant otherSubsetSelf <==> forall i :: 0 <= i < 3 * y + x && b[i].Some? ==> a[i].Some?
      {
        var i := Index(x, y);
        var cellSelf := a[i];
        var cellOther := b[i];
        if cellSelf.Some? && cellOther.Some? && cellSelf != cellOther {
          return None;
        } else if cellSelf.Some? && cellOther.None? {
          selfSubsetOther := false;
        } else if cellSelf.None? && cellOther.Some? {
          otherSubsetSelf := false;
        }
      }
    }
    if selfSubsetOther && otherSubsetSelf {
      o := Some(Equal);
    } else if selfSubsetOther {
      o := Some(Less);
    } else if otherSubsetSelf {
      o := Some(Greater);
    } else {
      o := None;
    }
  }

  /** A play of an empty cell comes strictly after the board it was played on. */
  lemma {:induction false} PlayIsGreater(b: Board, a: (nat, nat))
    requires a.0 < 3 && a.1 < 3 && b[Index(a.0, a.1)].None?
    ensures BoardOrder(b, Play(b, a)) == Some(Less)
  {
    var r := Play(b, a);
    assert !FilledWithin(r, b) by {
      var i := Index(a.0, a.1);
      assert r[i].Some? && b[i].None?;
    }
  }
}
