// Othello (src/games/perfect_info/othello.rs): an 8 x 8 board of cells
// 0 (empty), 1 (P1, black) and 2 (P2, white), row-major. A placement must
// bracket at least one run of opponent discs along one of eight rays; every
// bracketed disc flips. A player without a placement passes; the game is
// over when neither player can place.
module Othello {
  import opened Wrappers
  import opened Players

  type Board = b: seq<nat> | |b| == 64 witness seq(64, i => 0)

  datatype Action = Place(x: nat, y: nat) | Pass

  /** The trace is the board alone. */
  datatype Trace = Trace(board: Board)

  datatype State = State(board: Board, toMove: Player)

  /** `idx`: row-major. */
  function Idx(x: nat, y: nat): nat
  {
    y * 8 + x
  }

  /** `start_board`: white on (3, 3) and (4, 4), black on (3, 4) and (4, 3). */
  function StartBoard(): (b: Board)
    ensures b[Idx(3, 3)] == 2 && b[Idx(4, 4)] == 2 && b[Idx(3, 4)] == 1 && b[Idx(4, 3)] == 1
    ensures forall i :: 0 <= i < 64 && i != Idx(3, 3) && i != Idx(4, 4) && i != Idx(3, 4) && i != Idx(4, 3) ==> b[i] == 0
  {
    seq(64, i => 0)[Idx(3, 3) := 2][Idx(4, 4) := 2][Idx(3, 4) := 1][Idx(4, 3) := 1]
  }

  /** `new`: the start board with P1 to move. */
  function New(): State
  {
    State(StartBoard(), P1)
  }

  /** `p_to_cell`. */
  function PToCell(p: Player): (c: nat)
    ensures c < 3 && (c == 0 <==> p == Chance)
  {
    match p
    case P1 => 1
    case P2 => 2
    case Chance => 0
  }

  /** The eight rays, clockwise from north. */
  const DIRS: seq<(int, int)> := [(0, -1), (1, -1), (1, 0), (1, 1), (0, 1), (-1, 1), (-1, 0), (-1, -1)]

  const NO_DIRS: seq<bool> := [false, false, false, false, false, false, false, false]

  predicate OnBoard(cx: int, cy: int)
  {
    0 <= cx < 8 && 0 <= cy < 8
  }

  predicate UnitDir(dx: int, dy: int)
  {
    -1 <= dx <= 1 && -1 <= dy <= 1 && (dx != 0 || dy != 0)
  }

  lemma {:induction false} DirsAreUnit(k: nat)
    requires k < 8
    ensures UnitDir(DIRS[k].0, DIRS[k].1)
  {
  }

  /** How far (cx, cy) is from leaving the board along (dx, dy). */
  function Dist(cx: int, cy: int, dx: int, dy: int): int
  {
    (if dx > 0 then 8 - cx else if dx < 0 then cx + 1 else 0) +
    (if dy > 0 then 8 - cy else if dy < 0 then cy + 1 else 0)
  }

  /** One step along a ray from a square on the board brings the edge nearer. */
  lemma {:induction false} DistShrinks(cx: int, cy: int, dx: int, dy: int)
    requires OnBoard(cx, cy) && UnitDir(dx, dy)
    ensures 0 <= Dist(cx + dx, cy + dy, dx, dy) < Dist(cx, cy, dx, dy)
  {
  }

  /**
   * The walk of `legal_dirs_from` along one ray from (cx, cy): opponent
   * discs are passed over; an own disc ends the walk and brackets when an
   * opponent disc was passed; an empty cell or the edge ends it unbracketed.
   */
  function Brackets(b: Board, cx: int, cy: int, dx: int, dy: int, me: nat, opp: nat, seenOpp: bool): bool
    requires UnitDir(dx, dy)
    decreases Dist(cx, cy, dx, dy)
  {
    if !OnBoard(cx, cy) then false
    else
      var c := b[Idx(cx, cy)];
      if c == opp then DistShrinks(cx, cy, dx, dy); Brackets(b, cx + dx, cy + dy, dx, dy, me, opp, true)
      else if c == me then seenOpp
      else false
  }

  /**
   * The walk of `flips_for` along one ray: the opponent cells passed over
   * are gathered in `ray`, kept if an own disc follows and dropped at an
   * empty cell or the edge.
   */
  function Run(b: Board, cx: int, cy: int, dx: int, dy: int, me: nat, opp: nat, ray: seq<nat>): seq<nat>
    requires UnitDir(dx, dy)
    decreases Dist(cx, cy, dx, dy)
  {
    if !OnBoard(cx, cy) then []
    else
      var c := b[Idx(cx, cy)];
      if c == opp then DistShrinks(cx, cy, dx, dy); Run(b, cx + dx, cy + dy, dx, dy, me, opp, ray + [Idx(cx, cy)])
      else if c == me then ray
      else []
  }

  /** A ray flips something exactly when it brackets. */
  lemma {:induction false} RunIffBrackets(b: Board, cx: int, cy: int, dx: int, dy: int, me: nat, opp: nat, ray: seq<nat>)
    requires UnitDir(dx, dy)
    ensures Run(b, cx, cy, dx, dy, me, opp, ray) != [] <==> Brackets(b, cx, cy, dx, dy, me, opp, ray != [])
    decreases Dist(cx, cy, dx, dy)
  {
    if OnBoard(cx, cy) && b[Idx(cx, cy)] == opp {
      var ray' := ray + [Idx(cx, cy)];
      assert ray' != [] by { assert ray'[|ray|] == Idx(cx, cy); }
      DistShrinks(cx, cy, dx, dy);
      RunIffBrackets(b, cx + dx, cy + dy, dx, dy, me, opp, ray');
    }
  }

  /** Every listed cell is on the board and holds opp. */
  predicate AllHeldBy(b: Board, f: seq<nat>, opp: nat)
  {
    forall k :: 0 <= k < |f| ==> f[k] < 64 && b[f[k]] == opp
  }

  /** What a ray flips is on the board and held by the opponent. */
  lemma {:induction false} RunIsOpponents(b: Board, cx: int, cy: int, dx: int, dy: int, me: nat, opp: nat, ray: seq<nat>)
    requires UnitDir(dx, dy) && AllHeldBy(b, ray, opp)
    ensures AllHeldBy(b, Run(b, cx, cy, dx, dy, me, opp, ray), opp)
    decreases Dist(cx, cy, dx, dy)
  {
    if OnBoard(cx, cy) && b[Idx(cx, cy)] == opp {
      var ray' := ray + [Idx(cx, cy)];
      assert AllHeldBy(b, ray', opp);
      DistShrinks(cx, cy, dx, dy);
      RunIsOpponents(b, cx + dx, cy + dy, dx, dy, me, opp, ray');
    }
  }

  /** `legal_dirs_from` as a value: all false on an occupied square, else whether each ray brackets. */
  function LegalDirs(b: Board, x: nat, y: nat, p: Player): (r: seq<bool>)
    requires x < 8 && y < 8
    ensures |r| == 8
  {
    if b[Idx(x, y)] != 0 then NO_DIRS
    else
      seq(8, k requires 0 <= k < 8 =>
        DirsAreUnit(k);
        Brackets(b, x + DIRS[k].0, y + DIRS[k].1, DIRS[k].0, DIRS[k].1, PToCell(p), PToCell(Other(p)), false))
  }

  /** `p` may place on (x, y): some ray brackets. */
  predicate CanPlace(b: Board, x: nat, y: nat, p: Player)
    requires x < 8 && y < 8
  {
    true in LegalDirs(b, x, y, p)
  }

  /** An occupied square is never a placement. */
  lemma {:induction false} OccupiedIsIllegal(b: Board, x: nat, y: nat, p: Player)
    requires x < 8 && y < 8 && b[Idx(x, y)] != 0
    ensures !CanPlace(b, x, y, p)
  {
  }

  /** `any_legal_move` as a value. */
  predicate CanMove(b: Board, p: Player)
  {
    exists x: nat, y: nat :: x < 8 && y < 8 && CanPlace(b, x, y, p)
  }

  /** The flips of rays 0 .. k - 1, in ray order. */
  function FlipsUpTo(b: Board, x: nat, y: nat, me: nat, opp: nat, k: nat): seq<nat>
    requires k <= 8
  {
    if k == 0 then []
    else
      DirsAreUnit(k - 1);
      FlipsUpTo(b, x, y, me, opp, k - 1) + Run(b, x + DIRS[k - 1].0, y + DIRS[k - 1].1, DIRS[k - 1].0, DIRS[k - 1].1, me, opp, [])
  }

  /** `flips_for` as a value. */
  function Flips(b: Board, x: nat, y: nat, p: Player): seq<nat>
  {
    FlipsUpTo(b, x, y, PToCell(p), PToCell(Other(p)), 8)
  }

  /** Every flipped cell is on the board and held by the opponent. */
  lemma {:induction false} FlipsAreOpponents(b: Board, x: nat, y: nat, me: nat, opp: nat, k: nat)
    requires k <= 8
    ensures AllHeldBy(b, FlipsUpTo(b, x, y, me, opp, k), opp)
  {
    if k > 0 {
      FlipsAreOpponents(b, x, y, me, opp, k - 1);
      DirsAreUnit(k - 1);
      var prev := FlipsUpTo(b, x, y, me, opp, k - 1);
      var run := Run(b, x + DIRS[k - 1].0, y + DIRS[k - 1].1, DIRS[k - 1].0, DIRS[k - 1].1, me, opp, []);
      RunIsOpponents(b, x + DIRS[k - 1].0, y + DIRS[k - 1].1, DIRS[k - 1].0, DIRS[k - 1].1, me, opp, []);
      var f := prev + run;
      assert forall i :: 0 <= i < |f| ==> f[i] == if i < |prev| then prev[i] else run[i - |prev|];
    }
  }

  /** Something flips exactly when some ray brackets. */
  lemma {:induction false} FlipsIffLegal(b: Board, x: nat, y: nat, p: Player)
    requires x < 8 && y < 8 && b[Idx(x, y)] == 0
    ensures Flips(b, x, y, p) != [] <==> CanPlace(b, x, y, p)
  {
    var me, opp := PToCell(p), PToCell(Other(p));
    var dirs := LegalDirs(b, x, y, p);
    forall k | 0 <= k < 8
      ensures Run(b, x + DIRS[k].0, y + DIRS[k].1, DIRS[k].0, DIRS[k].1, me, opp, []) != [] <==> dirs[k]
    {
      DirsAreUnit(k);
      RayFlipsIffLegal(b, x, y, p, k);
    }
    FlipsUpToIffSome(b, x, y, me, opp, dirs, 8);
    assert dirs[..8] == dirs;
  }

  /** Ray k flips something exactly when it is a legal direction. */
  lemma {:induction false} RayFlipsIffLegal(b: Board, x: nat, y: nat, p: Player, k: nat)
    requires x < 8 && y < 8 && b[Idx(x, y)] == 0 && k < 8 && UnitDir(DIRS[k].0, DIRS[k].1)
    ensures Run(b, x + DIRS[k].0, y + DIRS[k].1, DIRS[k].0, DIRS[k].1, PToCell(p), PToCell(Other(p)), []) != [] <==> LegalDirs(b, x, y, p)[k]
  {
    var dx, dy := DIRS[k].0, DIRS[k].1;
    var me, opp := PToCell(p), PToCell(Other(p));
    LegalDirsAt(b, x, y, p, k);
    assert LegalDirs(b, x, y, p)[k] == Brackets(b, x + dx, y + dy, dx, dy, me, opp, false);
    RunIffBrackets(b, x + dx, y + dy, dx, dy, me, opp, []);
  }

  lemma {:induction false} FlipsUpToIffSome(b: Board, x: nat, y: nat, me: nat, opp: nat, dirs: seq<bool>, k: nat)
    requires k <= 8 && |dirs| == 8
    requires forall j :: 0 <= j < 8 ==> (Run(b, x + DIRS[j].0, y + DIRS[j].1, DIRS[j].0, DIRS[j].1, me, opp, []) != [] <==> dirs[j])
    ensures FlipsUpTo(b, x, y, me, opp, k) != [] <==> true in dirs[..k]
  {
    if k > 0 {
      FlipsUpToIffSome(b, x, y, me, opp, dirs, k - 1);
      assert dirs[..k] == dirs[..k - 1] + [dirs[k - 1]];
    }
  }

  /** The board after writing v over every listed cell (cells off the board are ignored). */
  function Paint(b: Board, f: seq<nat>, v: nat): (r: Board)
    ensures forall i :: 0 <= i < 64 ==> r[i] == if i in f then v else b[i]
  {
    if |f| == 0 then b
    else
      var prev := Paint(b, f[..|f| - 1], v);
      assert forall i :: i in f <==> i in f[..|f| - 1] || i == f[|f| - 1] by {
        assert f == f[..|f| - 1] + [f[|f| - 1]];
      }
      if f[|f| - 1] < 64 then prev[f[|f| - 1] := v] else prev
  }

  /** `play` as a value: a pass hands the move over; a placement writes the mover's disc and every flip. */
  function PlayOf(s: State, a: Action): State
    requires a.Place? ==> a.x < 8 && a.y < 8
  {
    match a
    case Pass => State(s.board, Other(s.toMove))
    case Place(x, y) =>
      var me := PToCell(s.toMove);
      State(Paint(s.board[Idx(x, y) := me], Flips(s.board, x, y, s.toMove), me), Other(s.toMove))
  }

  /** `is_over`: neither side can place. */
  predicate IsOver(s: State)
  {
    !(CanMove(s.board, P1) || CanMove(s.board, P2))
  }

  /** The square (x, y) of index i: column i % 8, row i / 8. */
  function Square(i: nat): (c: (nat, nat))
    requires i < 64
    ensures c.0 < 8 && c.1 < 8 && Idx(c.0, c.1) == i
  {
    (i % 8, i / 8)
  }

  /** A square's index gives back its column and row. */
  lemma {:induction false} SquareOfIdx(x: nat, y: nat)
    requires x < 8 && y < 8
    ensures Square(Idx(x, y)) == (x, y)
  {
    var c := Square(Idx(x, y));
    assert c.1 * 8 + c.0 == y * 8 + x;
  }

  /** The placements on squares below index n (row-major), in index order. */
  function PlacesBelow(b: Board, p: Player, n: nat): seq<Action>
    requires n <= 64
  {
    if n == 0 then []
    else
      var c := Square(n - 1);
      PlacesBelow(b, p, n - 1) + (if CanPlace(b, c.0, c.1, p) then [Place(c.0, c.1)] else [])
  }

  /** Square (x, y) is the next one after the squares below 8 * y + x. */
  lemma {:induction false} PlacesBelowStep(b: Board, p: Player, x: nat, y: nat, n: nat)
    requires x < 8 && y < 8 && n == 8 * y + x
    ensures PlacesBelow(b, p, n + 1) == PlacesBelow(b, p, n) + (if CanPlace(b, x, y, p) then [Place(x, y)] else [])
  {
    SquareOfIdx(x, y);
    assert Idx(x, y) == n;
  }


  /** `available_actions` as a value. */
  function Available(s: State): seq<Action>
  {
    if IsOver(s) then []
    else
      var moves := PlacesBelow(s.board, s.toMove, 64);
      if moves == [] then [Pass] else moves
  }

  /** The placements below n are exactly the legal squares below n. */
  lemma {:induction false} PlacesBelowSpec(b: Board, p: Player, n: nat, a: Action)
    requires n <= 64
    ensures a in PlacesBelow(b, p, n) <==> a.Place? && a.x < 8 && a.y < 8 && Idx(a.x, a.y) < n && CanPlace(b, a.x, a.y, p)
  {
    if n > 0 {
      PlacesBelowSpec(b, p, n - 1, a);
      var c := Square(n - 1);
      var tail := if CanPlace(b, c.0, c.1, p) then [Place(c.0, c.1)] else [];
      assert PlacesBelow(b, p, n) == PlacesBelow(b, p, n - 1) + tail;
      assert a in PlacesBelow(b, p, n) <==> a in PlacesBelow(b, p, n - 1) || a in tail;
      if a.Place? && a.x < 8 && a.y < 8 && Idx(a.x, a.y) == n - 1 {
        SquareOfIdx(a.x, a.y);
        assert a == Place(c.0, c.1);
      }
    }
  }

  /**
   * The actions: none when over; otherwise the legal placements, and Pass
   * alone exactly when the mover has no placement.
   */
  lemma {:induction false} AvailableSpec(s: State, a: Action)
    ensures IsOver(s) ==> Available(s) == []
    ensures !IsOver(s) ==> Available(s) != []
    ensures !IsOver(s) ==> (Available(s) == [Pass] <==> !CanMove(s.board, s.toMove))
    ensures a in Available(s) && a.Place? ==> a.x < 8 && a.y < 8 && CanPlace(s.board, a.x, a.y, s.toMove)
    ensures !IsOver(s) && a.Place? && a.x < 8 && a.y < 8 && CanPlace(s.board, a.x, a.y, s.toMove) ==> a in Available(s)
  {
    PlacesBelowSpec(s.board, s.toMove, 64, a);
    if !IsOver(s) && PlacesBelow(s.board, s.toMove, 64) == [] && CanMove(s.board, s.toMove) {
      var x: nat, y: nat :| x < 8 && y < 8 && CanPlace(s.board, x, y, s.toMove);
      PlacesBelowSpec(s.board, s.toMove, 64, Place(x, y));
      assert false;
    }
    if !IsOver(s) && PlacesBelow(s.board, s.toMove, 64) != [] {
      var m := PlacesBelow(s.board, s.toMove, 64);
      PlacesBelowSpec(s.board, s.toMove, 64, m[0]);
      assert m[0].Place?;
    }
  }

  /** The cells below index n holding v. */
  function CellsBelow(b: Board, v: nat, n: nat): set<nat>
  {
    set i | 0 <= i < n && i < 64 && b[i] == v
  }

  /** The cells holding v. */
  function Cells(b: Board, v: nat): set<nat>
  {
    CellsBelow(b, v, 64)
  }

  function Count(b: Board, v: nat): nat
  {
    |Cells(b, v)|
  }

  /** One more cell adds that cell to the set of its value and leaves the others. */
  lemma {:induction false} CellsBelowStep(b: Board, v: nat, n: nat)
    requires n < 64
    ensures CellsBelow(b, v, n + 1) == CellsBelow(b, v, n) + (if b[n] == v then {n} else {})
  {
  }

  /** Two different values together hold at most n of the first n cells. */
  lemma {:induction false} TwoValuesBelow(b: Board, v: nat, w: nat, n: nat)
    requires v != w && n <= 64
    ensures |CellsBelow(b, v, n)| + |CellsBelow(b, w, n)| <= n
  {
    if n > 0 {
      TwoValuesBelow(b, v, w, n - 1);
      CellsBelowStep(b, v, n - 1);
      CellsBelowStep(b, w, n - 1);
    }
  }

  /** The start has two discs of each colour. */
  lemma {:induction false} StartCounts()
    ensures Count(StartBoard(), 1) == 2 && Count(StartBoard(), 2) == 2
  {
    var b := StartBoard();
    assert Cells(b, 1) == {Idx(3, 4), Idx(4, 3)};
    assert Cells(b, 2) == {Idx(3, 3), Idx(4, 4)};
  }

  /** The four opening placements of black are legal, so the game does not start over. */
  lemma {:induction false} OpeningMovesLegal()
    ensures CanPlace(StartBoard(), 2, 3, P1) && CanPlace(StartBoard(), 3, 2, P1)
    ensures CanPlace(StartBoard(), 4, 5, P1) && CanPlace(StartBoard(), 5, 4, P1)
    ensures !IsOver(New()) && New().toMove == P1
  {
    var b := StartBoard();
    assert LegalDirs(b, 2, 3, P1)[2];
    assert LegalDirs(b, 3, 2, P1)[4];
    assert LegalDirs(b, 4, 5, P1)[0];
    assert LegalDirs(b, 5, 4, P1)[6];
    assert CanPlace(b, 2, 3, P1);
  }

  /** The distinct cells of a list of flips. */
  function Flipped(f: seq<nat>): set<nat>
  {
    set i | i in f
  }

  /** The effect of a placement on each cell: the square and the flips hold v, the rest is unchanged. */
  lemma {:induction false} PaintedCells(b: Board, sq: nat, f: seq<nat>, v: nat)
    requires sq < 64
    ensures var t := Paint(b[sq := v], f, v);
      forall i :: 0 <= i < 64 ==> t[i] == if i in f || i == sq then v else b[i]
  {
  }

  /** The mover's cells after a placement: the old ones, the flips and the square. */
  lemma {:induction false} PaintedOwnCells(b: Board, sq: nat, f: seq<nat>, v: nat, w: nat)
    requires sq < 64 && AllHeldBy(b, f, w) && b[sq] != v && b[sq] != w && v != w
    ensures Cells(Paint(b[sq := v], f, v), v) == Cells(b, v) + Flipped(f) + {sq}
    ensures Cells(b, v) !! Flipped(f) && (Cells(b, v) + Flipped(f)) !! {sq}
  {
    PaintedCells(b, sq, f, v);
  }

  /** The opponent's cells after a placement: the old ones without the flips. */
  lemma {:induction false} PaintedOtherCells(b: Board, sq: nat, f: seq<nat>, v: nat, w: nat)
    requires sq < 64 && b[sq] != w && v != w && AllHeldBy(b, f, w)
    ensures Cells(b, w) == Cells(Paint(b[sq := v], f, v), w) + Flipped(f)
    ensures Cells(Paint(b[sq := v], f, v), w) !! Flipped(f)
  {
    PaintedCells(b, sq, f, v);
  }

  /**
   * Writing v over an empty square and over cells that all hold w adds
   * the square and those cells to v's cells and takes the cells from w's.
   */
  lemma {:induction false} PaintCounts(b: Board, sq: nat, f: seq<nat>, v: nat, w: nat)
    requires sq < 64 && b[sq] == 0 && v != 0 && w != 0 && v != w
    requires AllHeldBy(b, f, w)
    ensures var t := Paint(b[sq := v], f, v); var fs := Flipped(f);
      Count(t, v) == Count(b, v) + 1 + |fs| && Count(t, w) == Count(b, w) - |fs|
  {
    var fs := Flipped(f);
    PaintedOwnCells(b, sq, f, v, w);
    PaintedOtherCells(b, sq, f, v, w);
    UnionCard(Cells(b, v), fs, {sq});
    UnionCard(Cells(Paint(b[sq := v], f, v), w), fs, {});
  }

  lemma {:induction false} UnionCard(a: set<nat>, b: set<nat>, c: set<nat>)
    requires a !! b && (a + b) !! c
    ensures |a + b + c| == |a| + |b| + |c|
  {
  }

  /**
   * A placement on an empty square by P1 or P2 adds one disc plus the
   * flipped ones to the mover's count and takes the flipped ones from the
   * opponent's, then hands the move over.
   */
  lemma {:induction false} PlaceCounts(s: State, x: nat, y: nat)
    requires x < 8 && y < 8 && s.board[Idx(x, y)] == 0 && s.toMove != Chance
    ensures var t := PlayOf(s, Place(x, y)); var f := Flipped(Flips(s.board, x, y, s.toMove));
      var me, opp := PToCell(s.toMove), PToCell(Other(s.toMove));
      Count(t.board, me) == Count(s.board, me) + 1 + |f| &&
      Count(t.board, opp) == Count(s.board, opp) - |f| &&
      t.toMove == Other(s.toMove)
  {
    var me, opp := PToCell(s.toMove), PToCell(Other(s.toMove));
    FlipsAreOpponents(s.board, x, y, me, opp, 8);
    PaintCounts(s.board, Idx(x, y), Flips(s.board, x, y, s.toMove), me, opp);
  }

  /** A pass changes only the side to move, and two passes restore the state. */
  lemma {:induction false} PassOnlySwitches(s: State)
    ensures PlayOf(s, Pass).board == s.board && PlayOf(s, Pass).toMove == Other(s.toMove)
    ensures PlayOf(PlayOf(s, Pass), Pass) == s
  {
    OtherInvolution(s.toMove);
  }

  /** `evaluate`: 0 unless over, else the disc difference over 64. */
  function Evaluation(s: State): real
  {
    if IsOver(s) then (Count(s.board, 1) as real - Count(s.board, 2) as real) / 64.0 else 0.0
  }

  /** The evaluation lies in [-1, 1]. */
  lemma {:induction false} EvaluationBounds(s: State)
    ensures -1.0 <= Evaluation(s) <= 1.0
  {
    TwoValuesBelow(s.board, 1, 2, 64);
  }

  function TraceOf(s: State, player: Player): Trace
  {
    Trace(s.board)
  }

  /** `partial_cmp` on traces: Equal on equal boards, else incomparable. */
  function TraceCompare(a: Trace, b: Trace): (o: Option<Ordering>)
    ensures o == Some(Equal) <==> a == b
    ensures o != Some(Equal) ==> o.None?
  {
    if a.board == b.board then Some(Equal) else None
  }

  /** `sample_position`: the trace's board with P1 to move. */
  function SamplePosition(t: Trace): (r: seq<State>)
    ensures |r| == 1 && r[0].board == t.board && r[0].toMove == P1
  {
    [State(t.board, P1)]
  }

  /** A sample reproduces the trace it came from. */
  lemma {:induction false} SampleMatchesTrace(t: Trace, player: Player)
    ensures TraceOf(SamplePosition(t)[0], player) == t
  {
  }

  // -------------------------------------------------------------------
  // The source's loops

  /** The inner walk of `legal_dirs_from` along one ray. */
  method ScanLegal(b: Board, x: nat, y: nat, dx: int, dy: int, me: nat, opp: nat) returns (legal: bool)
    requires UnitDir(dx, dy)
    ensures legal == Brackets(b, x + dx, y + dy, dx, dy, me, opp, false)
  {
    var cx, cy := x + dx, y + dy;
    var seenOpp := false;
    legal := false;
    while OnBoard(cx, cy)
      invariant Brackets(b, cx, cy, dx, dy, me, opp, seenOpp) == Brackets(b, x + dx, y + dy, dx, dy, me, opp, false)
      invariant !legal
      decreases Dist(cx, cy, dx, dy)
    {
      var c := b[Idx(cx, cy)];
      if c == opp {
        seenOpp := true;
      } else if c == me {
        if seenOpp {
          legal := true;
        }
        break;
      } else {
        break;
      }
      DistShrinks(cx, cy, dx, dy);
      cx, cy := cx + dx, cy + dy;
    }
  }

  /** `legal_dirs_from`. */
  method LegalDirsFrom(b: Board, x: nat, y: nat, p: Player) returns (res: seq<bool>)
    requires x < 8 && y < 8
    ensures res == LegalDirs(b, x, y, p)
  {
    if b[Idx(x, y)] != 0 {
      return NO_DIRS;
    }
    var me, opp := PToCell(p), PToCell(Other(p));
    ghost var spec := LegalDirs(b, x, y, p);
    res := NO_DIRS;
    for k := 0 to 8
      invariant |res| == 8
      invariant forall j :: 0 <= j < k ==> res[j] == spec[j]
      invariant forall j :: k <= j < 8 ==> !res[j]
    {
      DirsAreUnit(k);
      var legal := ScanLegal(b, x, y, DIRS[k].0, DIRS[k].1, me, opp);
      LegalDirsAt(b, x, y, p, k);
      if legal {
        res := res[k := true];
      }
    }
    assert res == spec;
  }

  /** Entry k of the directions of an empty square is whether ray k brackets. */
  lemma {:induction false} LegalDirsAt(b: Board, x: nat, y: nat, p: Player, k: nat)
    requires x < 8 && y < 8 && k < 8 && b[Idx(x, y)] == 0
    ensures UnitDir(DIRS[k].0, DIRS[k].1)
    ensures LegalDirs(b, x, y, p)[k] == Brackets(b, x + DIRS[k].0, y + DIRS[k].1, DIRS[k].0, DIRS[k].1, PToCell(p), PToCell(Other(p)), false)
  {
    DirsAreUnit(k);
  }

  /** `any_legal_move`: the squares are tried row by row until one is legal. */
  method AnyLegalMove(b: Board, p: Player) returns (r: bool)
    ensures r == CanMove(b, p)
  {
    for y := 0 to 8
      invariant forall yy: nat, xx: nat :: yy < y && xx < 8 ==> !CanPlace(b, xx, yy, p)
    {
      for x := 0 to 8
        invariant forall yy: nat, xx: nat :: (yy < y && xx < 8) || (yy == y && xx < x) ==> !CanPlace(b, xx, yy, p)
      {
        var dirs := LegalDirsFrom(b, x, y, p);
        if true in dirs {
          assert CanPlace(b, x, y, p);
          return true;
        }
      }
    }
    return false;
  }

  /** The inner walk of `flips_for` along one ray. */
  method RayFlips(b: Board, x: nat, y: nat, dx: int, dy: int, me: nat, opp: nat) returns (flips: seq<nat>)
    requires UnitDir(dx, dy)
    ensures flips == Run(b, x + dx, y + dy, dx, dy, me, opp, [])
  {
    var ray: seq<nat> := [];
    var cx, cy := x + dx, y + dy;
    flips := [];
    while OnBoard(cx, cy)
      invariant Run(b, cx, cy, dx, dy, me, opp, ray) == Run(b, x + dx, y + dy, dx, dy, me, opp, [])
      invariant flips == []
      decreases Dist(cx, cy, dx, dy)
    {
      var c := b[Idx(cx, cy)];
      if c == opp {
        ray := ray + [Idx(cx, cy)];
      } else if c == me {
        if ray != [] {
          flips := ray;
        }
        break;
      } else {
        break;
      }
      DistShrinks(cx, cy, dx, dy);
      cx, cy := cx + dx, cy + dy;
    }
  }

  /** `flips_for`: the flips of the eight rays in order. */
  method FlipsFor(b: Board, x: nat, y: nat, p: Player) returns (flips: seq<nat>)
    ensures flips == Flips(b, x, y, p)
  {
    var me, opp := PToCell(p), PToCell(Other(p));
    flips := [];
    for k := 0 to 8
      invariant flips == FlipsUpTo(b, x, y, me, opp, k)
    {
      DirsAreUnit(k);
      var ray := RayFlips(b, x, y, DIRS[k].0, DIRS[k].1, me, opp);
      flips := flips + ray;
    }
  }

  /** `is_over`. */
  method IsOverM(s: State) returns (over: bool)
    ensures over == IsOver(s)
  {
    var p1 := AnyLegalMove(s.board, P1);
    var p2 := AnyLegalMove(s.board, P2);
    over := !(p1 || p2);
  }

  /** The test of `available_actions`: some ray from the square brackets. */
  method IsLegalPlace(b: Board, x: nat, y: nat, p: Player) returns (legal: bool)
    requires x < 8 && y < 8
    ensures legal == CanPlace(b, x, y, p)
  {
    var dirs := LegalDirsFrom(b, x, y, p);
    legal := true in dirs;
  }

  /** One row of `available_actions`' loops: the legal squares of row y, appended in column order. */
  method RowPlaces(b: Board, p: Player, y: nat, before: seq<Action>) returns (moves: seq<Action>)
    requires y < 8 && before == PlacesBelow(b, p, 8 * y)
    ensures moves == PlacesBelow(b, p, 8 * y + 8)
  {
    moves := before;
    ghost var n := 8 * y;
    for x := 0 to 8
      invariant n == 8 * y + x && moves == PlacesBelow(b, p, n)
    {
      moves := PlaceStep(b, p, x, y, n, moves);
      n := n + 1;
    }
  }

  /** One square of `available_actions`' loops: (x, y) is appended when it is legal. */
  method PlaceStep(b: Board, p: Player, x: nat, y: nat, ghost n: nat, moves: seq<Action>) returns (moves': seq<Action>)
    requires x < 8 && y < 8 && n == 8 * y + x && moves == PlacesBelow(b, p, n)
    ensures moves' == PlacesBelow(b, p, n + 1)
  {
    var legal := IsLegalPlace(b, x, y, p);
    PlacesBelowStep(b, p, x, y, n);
    moves' := if legal then moves + [Place(x, y)] else moves;
  }

  /** `available_actions`: the legal squares row by row, or Pass when there is none. */
  method AvailableActions(s: State) returns (moves: seq<Action>)
    ensures moves == Available(s)
  {
    var over := IsOverM(s);
    if over {
      return [];
    }
    moves := [];
    for y := 0 to 8
      invariant moves == PlacesBelow(s.board, s.toMove, 8 * y)
    {
      moves := RowPlaces(s.board, s.toMove, y, moves);
    }
    if moves == [] {
      moves := [Pass];
    }
  }

  /** The loop of `play` that writes the mover's disc over each flip. */
  method PaintAll(b: Board, flips: seq<nat>, v: nat) returns (r: Board)
    requires forall i :: 0 <= i < |flips| ==> flips[i] < 64
    ensures r == Paint(b, flips, v)
  {
    r := b;
    for i := 0 to |flips|
      invariant r == Paint(b, flips[..i], v)
    {
      assert flips[..i + 1][..i] == flips[..i];
      r := r[flips[i] := v];
    }
    assert flips[..|flips|] == flips;
  }

  /** `play`. The source's debug assertions (a pass only without a placement, a placement only when legal) are not required. */
  method Play(s: State, a: Action) returns (t: State)
    requires a.Place? ==> a.x < 8 && a.y < 8
    ensures t == PlayOf(s, a)
  {
    match a {
      case Pass =>
        t := State(s.board, Other(s.toMove));
      case Place(x, y) =>
        var flips := FlipsFor(s.board, x, y, s.toMove);
        var me := PToCell(s.toMove);
        FlipsAreOpponents(s.board, x, y, me, PToCell(Other(s.toMove)), 8);
        assert flips == FlipsUpTo(s.board, x, y, me, PToCell(Other(s.toMove)), 8);
        var board := PaintAll(s.board[Idx(x, y) := me], flips, me);
        t := State(board, Other(s.toMove));
    }
  }

  /** `evaluate`: the cells are counted in one pass. */
  method Evaluate(s: State) returns (v: real)
    ensures v == Evaluation(s)
  {
    var over := IsOverM(s);
    if !over {
      return 0.0;
    }
    var black, white := 0, 0;
    for i := 0 to 64
      invariant black == |CellsBelow(s.board, 1, i)| && white == |CellsBelow(s.board, 2, i)|
    {
      CellsBelowStep(s.board, 1, i);
      CellsBelowStep(s.board, 2, i);
      if s.board[i] == 1 {
        black := black + 1;
      } else if s.board[i] == 2 {
        white := white + 1;
      }
    }
    v := (black as real - white as real) / 64.0;
  }
}
