// Connect-4 on bitboards (src/games/perfect_info/connect4.rs): one 64-bit
// board for the stones of the player to move and one for the other player,
// plus the height of each of the 7 columns. `play` sets the mover's bit and
// swaps the boards, so `my` always holds the stones of the player to move.
//
// `won` reads the board in the usual layout with 7 bits per column (6 rows
// and an always-empty sentinel row): cell (row, col) is bit row + 7 * col.
// `play`, `cell` and `heuristic` as written use 6 bits per column instead;
// that version is kept below as the as-written model, and the model proper
// uses the 7-bit layout that `won` is built for.
module Connect4 {
  import opened Wrappers
  import opened Players

  const WIDTH: nat := 7
  const HEIGHT: nat := 6

  const FAB_COL: bv64 := 0x7F
  const FAB_ROW: bv64 := 1 | (1 << 7) | (1 << 14) | (1 << 21) | (1 << 28) | (1 << 35) | (1 << 42) | (1 << 49) | (1 << 56)

  /** The 7-bit groups of columns 0..5 together. */
  const COLS_0_TO_5: bv64 := FAB_COL | (FAB_COL << 7) | (FAB_COL << 14) | (FAB_COL << 21) | (FAB_COL << 28) | (FAB_COL << 35)

  const D1_MASK: bv64 := COLS_0_TO_5 & ((FAB_ROW << 3) | (FAB_ROW << 4) | (FAB_ROW << 5))
  const D2_MASK: bv64 := COLS_0_TO_5 & (FAB_ROW | (FAB_ROW << 1) | (FAB_ROW << 2) | (FAB_ROW << 3))
  const H_MASK: bv64 := COLS_0_TO_5
  const V_MASK: bv64 := FAB_ROW | (FAB_ROW << 1) | (FAB_ROW << 2) | (FAB_ROW << 3)

  /**
   * `won`: four set bits in a row at stride 6 (one diagonal), 8 (the other
   * diagonal), 7 (horizontal) or 1 (vertical), at a start the direction's
   * mask allows. The source adds the four words and tests for a positive
   * sum; every mask lies below bit 60, so the sum cannot wrap and is
   * positive exactly when one of the words is non-zero.
   */
  predicate Won(bb: bv64)
  {
    var d1 := bb & (bb >> 6) & (bb >> 12) & (bb >> 18) & D1_MASK;
    var d2 := bb & (bb >> 8) & (bb >> 16) & (bb >> 24) & D2_MASK;
    var h := bb & (bb >> 7) & (bb >> 14) & (bb >> 21) & H_MASK;
    var v := bb & (bb >> 1) & (bb >> 2) & (bb >> 3) & V_MASK;
    v != 0 || h != 0 || d1 != 0 || d2 != 0
  }

  type Heights = h: seq<nat> | |h| == WIDTH witness [0, 0, 0, 0, 0, 0, 0]

  datatype State = State(my: bv64, op: bv64, height: Heights)

  function New(): (s: State)
    ensures s.my == 0 && s.op == 0 && forall c :: 0 <= c < WIDTH ==> s.height[c] == 0
  {
    State(0, 0, [0, 0, 0, 0, 0, 0, 0])
  }

  /** The bit of cell (row, col) in the 7-bit layout, with bit-vector row and column. */
  function Pos(row: bv7, col: bv7): bv64
    requires row <= 6 && col < 7
  {
    (1 as bv64) << (row + 7 * col)
  }

  /** The bit of cell (row, col) in the 7-bit layout. */
  function Bit(row: nat, col: nat): bv64
    requires row <= HEIGHT && col < WIDTH
  {
    Pos(row as bv7, col as bv7)
  }

  function Stones(hs: seq<nat>): (n: nat)
  {
    if |hs| == 0 then 0 else Stones(hs[..|hs| - 1]) + hs[|hs| - 1]
  }

  /** `winner`: the `my` board's line counts for P1 and the `op` board's for P2. */
  function Winner(s: State): (w: Option<Player>)
    ensures w == Some(P1) <==> Won(s.my)
    ensures w == Some(P2) <==> !Won(s.my) && Won(s.op)
    ensures w.None? <==> !Won(s.my) && !Won(s.op)
  {
    if Won(s.my) then Some(P1) else if Won(s.op) then Some(P2) else None
  }

  /** `cell`: Some(P1) for a stone on `my`, else Some(P2) for one on `op`, else None. */
  function Cell(s: State, row: nat, col: nat): Option<Player>
    requires row < HEIGHT && col < WIDTH
  {
    if s.my & Bit(row, col) != 0 then Some(P1)
    else if s.op & Bit(row, col) != 0 then Some(P2)
    else None
  }

  /** The columns from c on that are not full, in increasing order. */
  function OpenFrom(s: State, c: nat): (r: seq<nat>)
    requires c <= WIDTH
    ensures forall k :: 0 <= k < |r| ==> c <= r[k] < WIDTH && s.height[r[k]] < HEIGHT
    ensures forall j, k :: 0 <= j < k < |r| ==> r[j] < r[k]
    ensures forall d :: c <= d < WIDTH && s.height[d] < HEIGHT ==> d in r
    decreases WIDTH - c
  {
    if c == WIDTH then []
    else (if s.height[c] < HEIGHT then [c] else []) + OpenFrom(s, c + 1)
  }

  /** `available_actions`: the columns that are not full, in increasing order. */
  function AvailableActions(s: State): (r: seq<nat>)
    ensures forall c :: 0 <= c < WIDTH ==> (c in r <==> s.height[c] < HEIGHT)
    ensures forall j, k :: 0 <= j < k < |r| ==> r[j] < r[k]
  {
    OpenFrom(s, 0)
  }

  /** `is_over`: someone has four in a row, or every column is full. */
  predicate IsOver(s: State)
  {
    Winner(s).Some? || forall c :: 0 <= c < WIDTH ==> s.height[c] == HEIGHT
  }

  /** A position with a column that is not full and no winner is not over. */
  lemma {:induction false} OpenColumnNotOver(s: State, c: nat)
    requires c < WIDTH && s.height[c] < HEIGHT && Winner(s).None?
    ensures !IsOver(s) && c in AvailableActions(s)
  {
  }

  // -------------------------------------------------------------------
  // Whose turn it is (the source's test and the parity it stands for)

  /** `active_player` as written: P1 when bit 1 of the number of stones is clear. */
  function ActivePlayerAsWritten(s: State): (p: Player)
    ensures p == P1 <==> (Stones(s.height) / 2) % 2 == 0
  {
    if (Stones(s.height) / 2) % 2 == 0 then P1 else P2
  }

  /** The turn alternates: P1 after an even number of stones, P2 after an odd number. */
  function ActivePlayer(s: State): (p: Player)
    ensures p == P1 <==> Stones(s.height) % 2 == 0
    ensures p != Chance
  {
    if Stones(s.height) % 2 == 0 then P1 else P2
  }

  lemma {:induction false} StonesAfterDrop(hs: seq<nat>, c: nat)
    requires c < |hs|
    ensures Stones(hs[c := hs[c] + 1]) == Stones(hs) + 1
  {
    var t := hs[c := hs[c] + 1];
    if c == |hs| - 1 {
      assert t[..|t| - 1] == hs[..|hs| - 1];
    } else {
      StonesAfterDrop(hs[..|hs| - 1], c);
      assert t[..|t| - 1] == hs[..|hs| - 1][c := hs[c] + 1];
    }
  }

  lemma {:induction false} StonesOfZero(hs: seq<nat>)
    requires forall k :: 0 <= k < |hs| ==> hs[k] == 0
    ensures Stones(hs) == 0
  {
    if |hs| > 0 {
      StonesOfZero(hs[..|hs| - 1]);
    }
  }

  /** As written, the first player to move is also to move after the first stone. */
  lemma {:induction false} ActivePlayerAsWrittenRepeats()
    ensures ActivePlayerAsWritten(New()) == P1
    ensures ActivePlayerAsWritten(Play(New(), 0)) == P1
  {
    StonesOfZero(New().height);
    StonesAfterDrop(New().height, 0);
  }

  /** With the parity test the players alternate on every stone. */
  lemma {:induction false} ActivePlayerAlternates(s: State, col: nat)
    requires col < WIDTH && s.height[col] < HEIGHT
    ensures ActivePlayer(Play(s, col)) == Other(ActivePlayer(s))
  {
    StonesAfterDrop(s.height, col);
  }

  // -------------------------------------------------------------------
  // play

  /**
   * `play` in the 7-bit layout: the mover's stone goes to the lowest empty
   * row of the column, that column's height goes up by one, and the boards
   * swap. The source's debug assertion asks for a column that is not full.
   */
  function Play(s: State, col: nat): (t: State)
    requires col < WIDTH && s.height[col] < HEIGHT
    ensures t.op == s.my ^ Bit(s.height[col], col) && t.my == s.op
    ensures t.height == s.height[col := s.height[col] + 1]
  {
    State(s.op, s.my ^ Bit(s.height[col], col), s.height[col := s.height[col] + 1])
  }

  /** The bit of cell (row, col) in the layout `play` and `cell` are written with: 6 bits per column. */
  function BitAsWritten(row: nat, col: nat): bv64
    requires row <= HEIGHT && col < WIDTH
  {
    (1 as bv64) << (row + 6 * col)
  }

  /** `play` as written: the stone is bit height + 6 * col. */
  function PlayAsWritten(s: State, col: nat): (t: State)
    requires col < WIDTH && s.height[col] < HEIGHT
    ensures t.op == s.my ^ BitAsWritten(s.height[col], col) && t.my == s.op
    ensures t.height == s.height[col := s.height[col] + 1]
  {
    State(s.op, s.my ^ BitAsWritten(s.height[col], col), s.height[col := s.height[col] + 1])
  }

  /**
   * In the 6-bit layout `won` misses a bottom-row four (cells (0,0) to
   * (0,3)) and sees a vertical four in three stones at the top of column 0
   * and one at the bottom of column 1.
   */
  lemma {:induction false} WonMisreadsSixBitLayout()
    ensures !Won(BitAsWritten(0, 0) | BitAsWritten(0, 1) | BitAsWritten(0, 2) | BitAsWritten(0, 3))
    ensures Won(BitAsWritten(3, 0) | BitAsWritten(4, 0) | BitAsWritten(5, 0) | BitAsWritten(0, 1))
  {
  }

  /** In the 7-bit layout every vertical four is a win. */
  lemma {:induction false} VerticalFourWins(bb: bv64, row: bv7, col: bv7)
    requires row < 3 && col < 7
    requires bb & Pos(row, col) != 0 && bb & Pos(row + 1, col) != 0
    requires bb & Pos(row + 2, col) != 0 && bb & Pos(row + 3, col) != 0
    ensures Won(bb)
  {
    if row == 0 && col == 0 { assert Won(bb); }
    else if row == 1 && col == 0 { assert Won(bb); }
    else if row == 2 && col == 0 { assert Won(bb); }
    else if row == 0 && col == 1 { assert Won(bb); }
    else if row == 1 && col == 1 { assert Won(bb); }
    else if row == 2 && col == 1 { assert Won(bb); }
    else if row == 0 && col == 2 { assert Won(bb); }
    else if row == 1 && col == 2 { assert Won(bb); }
    else if row == 2 && col == 2 { assert Won(bb); }
    else if row == 0 && col == 3 { assert Won(bb); }
    else if row == 1 && col == 3 { assert Won(bb); }
    else if row == 2 && col == 3 { assert Won(bb); }
    else if row == 0 && col == 4 { assert Won(bb); }
    else if row == 1 && col == 4 { assert Won(bb); }
    else if row == 2 && col == 4 { assert Won(bb); }
    else if row == 0 && col == 5 { assert Won(bb); }
    else if row == 1 && col == 5 { assert Won(bb); }
    else if row == 2 && col == 5 { assert Won(bb); }
    else if row == 0 && col == 6 { assert Won(bb); }
    else if row == 1 && col == 6 { assert Won(bb); }
    else if row == 2 && col == 6 { assert Won(bb); }
  }

  /** In the 7-bit layout every horizontal four is a win. */
  lemma {:induction false} HorizontalFourWins(bb: bv64, row: bv7, col: bv7)
    requires row < 6 && col < 4
    requires bb & Pos(row, col) != 0 && bb & Pos(row, col + 1) != 0
    requires bb & Pos(row, col + 2) != 0 && bb & Pos(row, col + 3) != 0
    ensures Won(bb)
  {
    if row == 0 && col == 0 { assert Won(bb); }
    else if row == 1 && col == 0 { assert Won(bb); }
    else if row == 2 && col == 0 { assert Won(bb); }
    else if row == 3 && col == 0 { assert Won(bb); }
    else if row == 4 && col == 0 { assert Won(bb); }
    else if row == 5 && col == 0 { assert Won(bb); }
    else if row == 0 && col == 1 { assert Won(bb); }
    else if row == 1 && col == 1 { assert Won(bb); }
    else if row == 2 && col == 1 { assert Won(bb); }
    else if row == 3 && col == 1 { assert Won(bb); }
    else if row == 4 && col == 1 { assert Won(bb); }
    else if row == 5 && col == 1 { assert Won(bb); }
    else if row == 0 && col == 2 { assert Won(bb); }
    else if row == 1 && col == 2 { assert Won(bb); }
    else if row == 2 && col == 2 { assert Won(bb); }
    else if row == 3 && col == 2 { assert Won(bb); }
    else if row == 4 && col == 2 { assert Won(bb); }
    else if row == 5 && col == 2 { assert Won(bb); }
    else if row == 0 && col == 3 { assert Won(bb); }
    else if row == 1 && col == 3 { assert Won(bb); }
    else if row == 2 && col == 3 { assert Won(bb); }
    else if row == 3 && col == 3 { assert Won(bb); }
    else if row == 4 && col == 3 { assert Won(bb); }
    else if row == 5 && col == 3 { assert Won(bb); }
  }

  /** In the 7-bit layout every rising diagonal four is a win. */
  lemma {:induction false} RisingFourWins(bb: bv64, row: bv7, col: bv7)
    requires row < 3 && col < 4
    requires bb & Pos(row, col) != 0 && bb & Pos(row + 1, col + 1) != 0
    requires bb & Pos(row + 2, col + 2) != 0 && bb & Pos(row + 3, col + 3) != 0
    ensures Won(bb)
  {
    if row == 0 && col == 0 { assert Won(bb); }
    else if row == 1 && col == 0 { assert Won(bb); }
    else if row == 2 && col == 0 { assert Won(bb); }
    else if row == 0 && col == 1 { assert Won(bb); }
    else if row == 1 && col == 1 { assert Won(bb); }
    else if row == 2 && col == 1 { assert Won(bb); }
    else if row == 0 && col == 2 { assert Won(bb); }
    else if row == 1 && col == 2 { assert Won(bb); }
    else if row == 2 && col == 2 { assert Won(bb); }
    else if row == 0 && col == 3 { assert Won(bb); }
    else if row == 1 && col == 3 { assert Won(bb); }
    else if row == 2 && col == 3 { assert Won(bb); }
  }

  /** In the 7-bit layout every falling diagonal four is a win. */
  lemma {:induction false} FallingFourWins(bb: bv64, row: bv7, col: bv7)
    requires 3 <= row < 6 && col < 4
    requires bb & Pos(row, col) != 0 && bb & Pos(row - 1, col + 1) != 0
    requires bb & Pos(row - 2, col + 2) != 0 && bb & Pos(row - 3, col + 3) != 0
    ensures Won(bb)
  {
    if row == 3 && col == 0 { assert Won(bb); }
    else if row == 4 && col == 0 { assert Won(bb); }
    else if row == 5 && col == 0 { assert Won(bb); }
    else if row == 3 && col == 1 { assert Won(bb); }
    else if row == 4 && col == 1 { assert Won(bb); }
    else if row == 5 && col == 1 { assert Won(bb); }
    else if row == 3 && col == 2 { assert Won(bb); }
    else if row == 4 && col == 2 { assert Won(bb); }
    else if row == 5 && col == 2 { assert Won(bb); }
    else if row == 3 && col == 3 { assert Won(bb); }
    else if row == 4 && col == 3 { assert Won(bb); }
    else if row == 5 && col == 3 { assert Won(bb); }
  }

  // -------------------------------------------------------------------
  // evaluate

  /** The sum of HEURISTIC_MAP, which `heuristic` divides by. */
  const NORM: real := 276.0

  const HEURISTIC_MAP: seq<seq<real>> := [
    [3.0, 4.0, 5.0, 7.0, 5.0, 4.0, 3.0],
    [4.0, 6.0, 8.0, 10.0, 8.0, 6.0, 4.0],
    [5.0, 8.0, 11.0, 13.0, 11.0, 8.0, 5.0],
    [5.0, 8.0, 11.0, 13.0, 11.0, 8.0, 5.0],
    [4.0, 6.0, 8.0, 10.0, 8.0, 6.0, 4.0],
    [3.0, 4.0, 5.0, 7.0, 5.0, 4.0, 3.0]]

  function RowSum(r: seq<real>): real
  {
    if |r| == 0 then 0.0 else RowSum(r[..|r| - 1]) + r[|r| - 1]
  }

  lemma {:induction false} RowSumSeven(r: seq<real>)
    requires |r| == 7
    ensures RowSum(r) == r[0] + r[1] + r[2] + r[3] + r[4] + r[5] + r[6]
  {
    assert r[..1][..0] == [];
    assert r[..2][..1] == r[..1] && r[..3][..2] == r[..2] && r[..4][..3] == r[..3];
    assert r[..5][..4] == r[..4] && r[..6][..5] == r[..5] && r[..6] == r[..6];
    assert RowSum(r[..1]) == r[0];
    assert RowSum(r[..2]) == r[0] + r[1];
    assert RowSum(r[..3]) == r[0] + r[1] + r[2];
    assert RowSum(r[..4]) == r[0] + r[1] + r[2] + r[3];
    assert RowSum(r[..5]) == r[0] + r[1] + r[2] + r[3] + r[4];
    assert RowSum(r[..6]) == r[0] + r[1] + r[2] + r[3] + r[4] + r[5];
  }

  lemma {:induction false} RowSumSix(r: seq<real>)
    requires |r| == 6
    ensures RowSum(r) == r[0] + r[1] + r[2] + r[3] + r[4] + r[5]
  {
    RowSumSeven(r + [0.0]);
    assert (r + [0.0])[..6] == r;
  }

  /** NORM is the sum of the map's entries. */
  lemma {:induction false} NormIsMapSum()
    ensures RowSum([RowSum(HEURISTIC_MAP[0]), RowSum(HEURISTIC_MAP[1]), RowSum(HEURISTIC_MAP[2]),
      RowSum(HEURISTIC_MAP[3]), RowSum(HEURISTIC_MAP[4]), RowSum(HEURISTIC_MAP[5])]) == NORM
  {
    RowSumSeven(HEURISTIC_MAP[0]);
    RowSumSeven(HEURISTIC_MAP[1]);
    RowSumSeven(HEURISTIC_MAP[2]);
    RowSumSeven(HEURISTIC_MAP[3]);
    RowSumSeven(HEURISTIC_MAP[4]);
    RowSumSeven(HEURISTIC_MAP[5]);
    assert RowSum(HEURISTIC_MAP[0]) == 31.0;
    assert RowSum(HEURISTIC_MAP[1]) == 46.0;
    assert RowSum(HEURISTIC_MAP[2]) == 61.0;
    assert RowSum(HEURISTIC_MAP[3]) == 61.0;
    assert RowSum(HEURISTIC_MAP[4]) == 46.0;
    assert RowSum(HEURISTIC_MAP[5]) == 31.0;
    RowSumSix([RowSum(HEURISTIC_MAP[0]), RowSum(HEURISTIC_MAP[1]), RowSum(HEURISTIC_MAP[2]),
      RowSum(HEURISTIC_MAP[3]), RowSum(HEURISTIC_MAP[4]), RowSum(HEURISTIC_MAP[5])]);
  }

  /** One cell's share of `heuristic`: 1/NORM for the mover's stone, -1/NORM for the other's. */
  function CellValue(s: State, row: nat, col: nat): (v: real)
    requires row < HEIGHT && col < WIDTH
    ensures -1.0 / NORM <= v <= 1.0 / NORM
  {
    match Cell(s, row, col)
    case Some(P1) => 1.0 / NORM
    case Some(P2) => -1.0 / NORM
    case _ => 0.0
  }

  /** The shares of cells (row, 0 .. cols-1). */
  function RowValue(s: State, row: nat, cols: nat): (v: real)
    requires row < HEIGHT && cols <= WIDTH
    ensures -(cols as real) / NORM <= v <= (cols as real) / NORM
  {
    if cols == 0 then 0.0 else RowValue(s, row, cols - 1) + CellValue(s, row, cols - 1)
  }

  /** The shares of rows 0 .. rows-1. */
  function BoardValue(s: State, rows: nat): (v: real)
    requires rows <= HEIGHT
    ensures -(7 * rows) as real / NORM <= v <= (7 * rows) as real / NORM
  {
    if rows == 0 then 0.0 else BoardValue(s, rows - 1) + RowValue(s, rows - 1, WIDTH)
  }

  /**
   * `heuristic`: every stone of the mover counts 1/NORM and every stone of
   * the other player -1/NORM; the map's weights enter only through NORM.
   */
  function Heuristic(s: State): real
  {
    BoardValue(s, HEIGHT)
  }

  /** `evaluate`: ±1 for a winner, else the heuristic. */
  function Evaluate(s: State): (v: real)
    ensures Winner(s) == Some(P1) ==> v == 1.0
    ensures Winner(s) == Some(P2) ==> v == -1.0
    ensures Winner(s).None? ==> v == Heuristic(s)
  {
    match Winner(s)
    case Some(P1) => 1.0
    case Some(P2) => -1.0
    case _ => Heuristic(s)
  }

  /** The heuristic stays strictly inside (-1, 1), so a decided game always outranks an undecided one. */
  lemma {:induction false} HeuristicBelowAWin(s: State)
    ensures -1.0 < Heuristic(s) < 1.0
    ensures Winner(s).None? ==> -1.0 < Evaluate(s) < 1.0
  {
    assert 42.0 / NORM < 1.0;
  }

  /** `sample_position` gives no positions at all. */
  function SamplePosition(t: State): (r: seq<State>)
    ensures |r| == 0
  {
    []
  }

  // -------------------------------------------------------------------
  // The trace order: inclusion of occupied cells

  /** The cells, row by row: (row, col) is at 7 * row + col. */
  function Grid(s: State): (g: seq<Option<Player>>)
    ensures |g| == HEIGHT * WIDTH
  {
    seq(HEIGHT * WIDTH, i requires 0 <= i < HEIGHT * WIDTH => Cell(s, i / 7, i % 7))
  }

  /** Entry 7 * row + col of the grid is the cell (row, col). */
  lemma {:induction false} GridIsCells(s: State, row: nat, col: nat)
    requires row < HEIGHT && col < WIDTH
    ensures Grid(s)[7 * row + col] == Cell(s, row, col)
  {
    var i := 7 * row + col;
    assert i / 7 == row && i % 7 == col;
  }

  /** No cell below index n holds different players in the two grids. */
  predicate AgreeBelow(ga: seq<Option<Player>>, gb: seq<Option<Player>>, n: nat)
    requires n <= |ga| && n <= |gb|
  {
    forall i :: 0 <= i < n ==> !(ga[i].Some? && gb[i].Some? && ga[i] != gb[i])
  }

  /** Every cell below index n that is occupied in ga is occupied in gb. */
  predicate OccupiedBelow(ga: seq<Option<Player>>, gb: seq<Option<Player>>, n: nat)
    requires n <= |ga| && n <= |gb|
  {
    forall i :: 0 <= i < n && ga[i].Some? ==> gb[i].Some?
  }

  /** Some cell holds a stone of one player in a and of the other in b. */
  predicate Conflict(a: State, b: State)
  {
    !AgreeBelow(Grid(a), Grid(b), HEIGHT * WIDTH)
  }

  /** Every stone of a has some stone on its cell in b. */
  predicate OccupiedWithin(a: State, b: State)
  {
    OccupiedBelow(Grid(a), Grid(b), HEIGHT * WIDTH)
  }

  function PositionOrder(a: State, b: State): Option<Ordering>
  {
    if Conflict(a, b) then None
    else if OccupiedWithin(a, b) && OccupiedWithin(b, a) then Some(Equal)
    else if OccupiedWithin(a, b) then Some(Less)
    else if OccupiedWithin(b, a) then Some(Greater)
    else None
  }

  /** The order is antisymmetric, and Equal means the same cells hold the same players. */
  lemma {:induction false} PositionOrderProperties(a: State, b: State)
    ensures PositionOrder(b, a) == ReverseOpt(PositionOrder(a, b))
    ensures PositionOrder(a, b) == Some(Equal) ==> Grid(a) == Grid(b)
  {
    var ga, gb := Grid(a), Grid(b);
    assert AgreeBelow(ga, gb, HEIGHT * WIDTH) <==> AgreeBelow(gb, ga, HEIGHT * WIDTH);
    if PositionOrder(a, b) == Some(Equal) {
      assert forall i :: 0 <= i < HEIGHT * WIDTH ==> ga[i] == gb[i];
    }
  }

  /**
   * One row of `partial_cmp`'s loops over the grids ga and gb of the two
   * positions: either a clash is found, or the two subset flags are
   * carried to the end of the row.
   */
  method ScanRow(ga: seq<Option<Player>>, gb: seq<Option<Player>>, row: nat, selfIn: bool, otherIn: bool)
      returns (clash: bool, selfSubsetOther: bool, otherSubsetSelf: bool)
    requires |ga| == HEIGHT * WIDTH && |gb| == HEIGHT * WIDTH && row < HEIGHT
    requires AgreeBelow(ga, gb, 7 * row)
    requires selfIn <==> OccupiedBelow(ga, gb, 7 * row)
    requires otherIn <==> OccupiedBelow(gb, ga, 7 * row)
    ensures clash ==> !AgreeBelow(ga, gb, HEIGHT * WIDTH)
    ensures !clash ==> AgreeBelow(ga, gb, 7 * row + 7)
    ensures !clash ==> (selfSubsetOther <==> OccupiedBelow(ga, gb, 7 * row + 7))
    ensures !clash ==> (otherSubsetSelf <==> OccupiedBelow(gb, ga, 7 * row + 7))
  {
    selfSubsetOther, otherSubsetSelf := selfIn, otherIn;
    for col := 0 to WIDTH
      invariant AgreeBelow(ga, gb, 7 * row + col)
      invariant selfSubsetOther <==> OccupiedBelow(ga, gb, 7 * row + col)
      invariant otherSubsetSelf <==> OccupiedBelow(gb, ga, 7 * row + col)
    {
      var cellSelf, cellOther := ga[7 * row + col], gb[7 * row + col];
      if cellSelf.Some? && cellOther.Some? && cellSelf != cellOther {
        return true, selfSubsetOther, otherSubsetSelf;
      } else if cellSelf.Some? && cellOther.None? {
        selfSubsetOther := false;
      } else if cellSelf.None? && cellOther.Some? {
        otherSubsetSelf := false;
      }
    }
    clash := false;
  }

  /**
   * `partial_cmp`: the nested loops over rows and columns with the two
   * subset flags. The cells are read from the two grids, whose entry
   * 7 * row + col is `cell(row, col)` (GridIsCells).
   */
  method Compare(a: State, b: State) returns (o: Option<Ordering>)
    ensures o == PositionOrder(a, b)
  {
    var ga, gb := Grid(a), Grid(b);
    var selfSubsetOther := true;
    var otherSubsetSelf := true;
    for row := 0 to HEIGHT
      invariant AgreeBelow(ga, gb, 7 * row)
      invariant selfSubsetOther <==> OccupiedBelow(ga, gb, 7 * row)
      invariant otherSubsetSelf <==> OccupiedBelow(gb, ga, 7 * row)
    {
      var clash;
      clash, selfSubsetOther, otherSubsetSelf := ScanRow(ga, gb, row, selfSubsetOther, otherSubsetSelf);
      if clash {
        return None;
      }
    }
    if selfSubsetOther && otherSubsetSelf {
      o := Some(Equal);
    } else if selfSubsetOther {
      o := Some(Less);
    } else if otherSubsetSelf {
      o := Some(Greater);
    } else {
      o := None;
    }
  }
}
