// The 9 x 9 Go engine of src/games/perfect_info/go.rs: captures, suicide,
// simple ko by a position hash, two passes to end, and area scoring with
// komi 6.5 for white.
module Go {
  import opened Wrappers
  import opened Players

  /** A board cell holds a `u8`: 0 empty, 1 black (P1), 2 white (P2). */
  type Stone = c: nat | c < 256

  /** A `u8` counter. */
  type U8 = n: nat | n < 256

  /** The 81 cells, indexed `y * 9 + x`. */
  type Board = b: seq<Stone> | |b| == 81 witness seq(81, i => 0)

  /** A point `(x, y)` of the board. */
  type Point = (nat, nat)

  const KOMI: real := 6.5

  datatype Action = Place(x: nat, y: nat) | Pass

  /** What either player sees: the whole board. */
  datatype Trace = Trace(board: Board)

  datatype State = State(board: Board, toMove: Player, passStreak: U8, prevHash: bv64)

  /** `Default`: an empty board, P1 (black) to move, no passes, hash 0. */
  function New(): (s: State)
    ensures forall i :: 0 <= i < 81 ==> s.board[i] == 0
    ensures s.toMove == P1 && s.passStreak == 0 && s.prevHash == 0
  {
    State(seq(81, i => 0), P1, 0, 0)
  }

  /** `p_to_cell`: black 1, white 2, chance 0. */
  function PToCell(p: Player): (c: Stone)
    ensures c < 3 && (c == 0 <==> p == Chance)
  {
    match p
    case P1 => 1
    case P2 => 2
    case Chance => 0
  }

  function Idx(x: nat, y: nat): nat
  {
    y * 9 + x
  }

  predicate OnBoard(p: Point)
  {
    p.0 < 9 && p.1 < 9
  }

  function At(b: Board, p: Point): Stone
    requires OnBoard(p)
  {
    b[Idx(p.0, p.1)]
  }

  /** A point's index gives back its column and row. */
  lemma {:induction false} IdxDivMod(x: nat, y: nat)
    requires x < 9
    ensures Idx(x, y) % 9 == x && Idx(x, y) / 9 == y
  {
  }

  /** Orthogonal neighbours. */
  predicate Adjacent(p: Point, q: Point)
  {
    (p.1 == q.1 && (p.0 + 1 == q.0 || q.0 + 1 == p.0)) ||
    (p.0 == q.0 && (p.1 + 1 == q.1 || q.1 + 1 == p.1))
  }

  /** Every point of the board. */
  function AllPoints(): set<Point>
  {
    set x: nat, y: nat | x < 9 && y < 9 && Idx(x, y) < 81 :: (x, y)
  }

  lemma {:induction false} AllPointsOnBoard(p: Point)
    ensures p in AllPoints() <==> OnBoard(p)
  {
    if OnBoard(p) {
      assert Idx(p.0, p.1) < 81;
    }
  }

  /**
   * `neighbors`: left, right, up and down, skipping those off the board;
   * so two to four points, all on the board, without repeats, and every
   * orthogonal neighbour on the board among them.
   */
  function Neighbors(x: nat, y: nat): (r: seq<Point>)
    requires x < 9 && y < 9
    ensures 2 <= |r| <= 4
    ensures forall k :: 0 <= k < |r| ==> OnBoard(r[k]) && Adjacent((x, y), r[k])
    ensures forall j, k :: 0 <= j < k < |r| ==> r[j] != r[k]
    ensures forall q: Point :: OnBoard(q) && Adjacent((x, y), q) ==> q in r
  {
    (if x > 0 then [(x - 1, y)] else []) +
    (if x + 1 < 9 then [(x + 1, y)] else []) +
    (if y > 0 then [(x, y - 1)] else []) +
    (if y + 1 < 9 then [(x, y + 1)] else [])
  }

  /** S is closed under stepping to an adjacent point holding `color`. */
  ghost predicate Closed(b: Board, color: Stone, S: set<Point>)
  {
    forall s, q: Point :: s in S && OnBoard(q) && Adjacent(s, q) && At(b, q) == color ==> q in S
  }

  /** One step of flooding: S with the adjacent points holding `color`. */
  function Expand(b: Board, color: Stone, S: set<Point>): set<Point>
  {
    S + set x: nat, y: nat | x < 9 && y < 9 && b[Idx(x, y)] == color && (exists s :: s in S && Adjacent(s, (x, y))) :: (x, y)
  }

  /** The flood of S through adjacent points holding `color`, to a fixpoint. */
  function Flood(b: Board, color: Stone, S: set<Point>): set<Point>
    requires S <= AllPoints()
    decreases AllPoints() - S
  {
    var T := Expand(b, color, S);
    assert T <= AllPoints() by {
      forall p | p in T ensures p in AllPoints() {
        if p !in S {
          assert OnBoard(p);
          AllPointsOnBoard(p);
        }
      }
    }
    if T == S then S else Flood(b, color, T)
  }

  /** The flood contains S, holds only points of S or of `color`, and is closed. */
  lemma {:induction false} FloodProps(b: Board, color: Stone, S: set<Point>)
    requires S <= AllPoints()
    ensures S <= Flood(b, color, S) <= AllPoints()
    ensures forall p :: p in Flood(b, color, S) ==> p in S || (OnBoard(p) && At(b, p) == color)
    ensures Closed(b, color, Flood(b, color, S))
    decreases AllPoints() - S
  {
    var T := Expand(b, color, S);
    assert T <= AllPoints() by {
      forall p | p in T ensures p in AllPoints() {
        if p !in S {
          AllPointsOnBoard(p);
        }
      }
    }
    if T == S {
      forall s, q: Point | s in S && OnBoard(q) && Adjacent(s, q) && At(b, q) == color
        ensures q in S
      {
        assert q in T;
      }
    } else {
      FloodProps(b, color, T);
    }
  }

  /** The flood is the least closed set containing S. */
  lemma {:induction false} FloodLeast(b: Board, color: Stone, S: set<Point>, U: set<Point>)
    requires S <= AllPoints() && S <= U && Closed(b, color, U)
    ensures Flood(b, color, S) <= U
    decreases AllPoints() - S
  {
    var T := Expand(b, color, S);
    assert T <= AllPoints() by {
      forall p | p in T ensures p in AllPoints() {
        if p !in S {
          AllPointsOnBoard(p);
        }
      }
    }
    assert T <= U by {
      forall p | p in T ensures p in U {
        if p !in S {
          var s :| s in S && Adjacent(s, p);
        }
      }
    }
    if T != S {
      FloodLeast(b, color, T, U);
    }
  }

  /**
   * The group of a point: the stones of its colour connected to it; an
   * empty point's group is the point alone.
   */
  function Group(b: Board, p: Point): set<Point>
    requires OnBoard(p)
  {
    AllPointsOnBoard(p);
    if At(b, p) == 0 then {p} else Flood(b, At(b, p), {p})
  }

  /** The empty points next to some point of G. */
  function Liberties(b: Board, G: set<Point>): set<Point>
  {
    set x: nat, y: nat | x < 9 && y < 9 && b[Idx(x, y)] == 0 && (exists g :: g in G && Adjacent(g, (x, y))) :: (x, y)
  }

  /** Group facts: it holds the point, lies on the board, and has the point's colour throughout. */
  lemma {:induction false} GroupProps(b: Board, p: Point)
    requires OnBoard(p)
    ensures p in Group(b, p) && Group(b, p) <= AllPoints()
    ensures forall q :: q in Group(b, p) ==> OnBoard(q) && At(b, q) == At(b, p)
    ensures At(b, p) != 0 ==> Closed(b, At(b, p), Group(b, p))
  {
    AllPointsOnBoard(p);
    if At(b, p) != 0 {
      FloodProps(b, At(b, p), {p});
      forall q | q in Group(b, p) ensures OnBoard(q) {
        AllPointsOnBoard(q);
      }
    }
  }

  /**
   * The body of the search loop for one point `cur`: each empty neighbour
   * becomes a liberty, and each unseen neighbour of the group's colour is
   * marked seen and queued.
   */
  method Visit(b: Board, color: Stone, cur: Point, seen: set<Point>, q: seq<Point>, libs: set<Point>)
    returns (seen': set<Point>, q': seq<Point>, libs': set<Point>)
    requires OnBoard(cur)
    ensures forall n :: n in seen' <==> n in seen || (OnBoard(n) && Adjacent(cur, n) && At(b, n) != 0 && At(b, n) == color)
    ensures forall n :: n in libs' <==> n in libs || (OnBoard(n) && Adjacent(cur, n) && At(b, n) == 0)
    ensures forall j :: 0 <= j < |q'| ==> q'[j] in q || (q'[j] in seen' && q'[j] !in seen)
    ensures forall n :: n in seen' && n !in seen ==> n in q'
    ensures forall j :: 0 <= j < |q| ==> q[j] in q'
    ensures seen' == seen ==> q' == q
  {
    var ns := Neighbors(cur.0, cur.1);
    seen', q', libs' := seen, q, libs;
    for k := 0 to |ns|
      invariant forall n :: n in seen' <==> n in seen || (n in ns[..k] && At(b, n) != 0 && At(b, n) == color)
      invariant forall n :: n in libs' <==> n in libs || (n in ns[..k] && At(b, n) == 0)
      invariant forall j :: 0 <= j < |q'| ==> q'[j] in q || (q'[j] in seen' && q'[j] !in seen)
      invariant forall n :: n in seen' && n !in seen ==> n in q'
      invariant forall j :: 0 <= j < |q| ==> q[j] in q'
      invariant seen' == seen ==> q' == q
    {
      var n := ns[k];
      assert ns[..k + 1] == ns[..k] + [n];
      var c := b[Idx(n.0, n.1)];
      if c == 0 {
        libs' := libs' + {n};
      } else if c == color && n !in seen' {
        seen' := seen' + {n};
        q' := q' + [n];
      }
    }
    assert ns[..|ns|] == ns;
  }

  /**
   * `group_and_liberties`: a breadth-first search from (x, y) over stones of
   * its colour; the result is the point's whole group and the number of
   * distinct empty points next to it.
   */
  method GroupAndLiberties(b: Board, x: nat, y: nat) returns (grp: set<Point>, libCount: nat)
    requires x < 9 && y < 9
    ensures grp == Group(b, (x, y))
    ensures libCount == |Liberties(b, grp)|
  {
    var color := b[Idx(x, y)];
    GroupProps(b, (x, y));
    var q := [(x, y)];
    var seen := {(x, y)};
    var libs: set<Point> := {};
    ghost var done: set<Point> := {};
    while q != []
      invariant seen <= Group(b, (x, y)) && (x, y) in seen
      invariant forall k :: 0 <= k < |q| ==> q[k] in seen
      invariant done <= seen && forall s :: s in seen ==> s in done || s in q
      invariant forall s, n: Point :: s in done && OnBoard(n) && Adjacent(s, n) ==>
        (At(b, n) == 0 ==> n in libs) && (At(b, n) != 0 && At(b, n) == color ==> n in seen)
      invariant libs <= Liberties(b, done)
      decreases AllPoints() - seen, |q|
    {
      var cur := q[0];
      ghost var seen0, rest := seen, q[1..];
      assert forall j :: 0 <= j < |rest| ==> rest[j] in q;
      seen, q, libs := Visit(b, color, cur, seen, q[1..], libs);
      assert seen <= Group(b, (x, y)) by {
        forall n | n in seen && n !in seen0 ensures n in Group(b, (x, y)) {
        }
      }
      done := done + {cur};
    }
    assert seen == done;
    if color != 0 {
      assert Closed(b, color, seen) by {
        forall s, n: Point | s in seen && OnBoard(n) && Adjacent(s, n) && At(b, n) == color
          ensures n in seen
        {
        }
      }
      FloodLeast(b, color, {(x, y)}, seen);
    }
    grp := seen;
    assert libs == Liberties(b, grp);
    libCount := |libs|;
  }

  // ---------------------------------------------------------------------
  // Removing stones

  /** The board with every point of R emptied. */
  function Clear(b: Board, R: set<Point>): (r: Board)
  {
    seq(81, i requires 0 <= i < 81 => if (i % 9, i / 9) in R then 0 else b[i])
  }

  /** Emptying R empties exactly the points of R. */
  lemma {:induction false} ClearAt(b: Board, R: set<Point>, p: Point)
    requires OnBoard(p)
    ensures At(Clear(b, R), p) == if p in R then 0 else At(b, p)
  {
    IdxDivMod(p.0, p.1);
  }

  /** Emptying one more point is one more write. */
  lemma {:induction false} ClearStep(b: Board, A: set<Point>, p: Point)
    requires OnBoard(p)
    ensures Clear(b, A + {p}) == Clear(b, A)[Idx(p.0, p.1) := 0]
  {
    IdxDivMod(p.0, p.1);
    forall i | 0 <= i < 81
      ensures Clear(b, A + {p})[i] == Clear(b, A)[Idx(p.0, p.1) := 0][i]
    {
      if (i % 9, i / 9) == p {
        assert i == Idx(p.0, p.1);
      }
    }
  }

  /** Emptying nothing changes nothing. */
  lemma {:induction false} ClearNothing(b: Board)
    ensures Clear(b, {}) == b
  {
  }

  /** `remove_group`: every point of the group is emptied, one write at a time. */
  method RemoveGroup(b: Board, grp: set<Point>) returns (r: Board)
    requires forall p :: p in grp ==> OnBoard(p)
    ensures r == Clear(b, grp)
  {
    r := b;
    ClearNothing(b);
    var rest := grp;
    while rest != {}
      invariant rest <= grp && r == Clear(b, grp - rest)
      decreases rest
    {
      var p :| p in rest;
      ClearStep(b, grp - rest, p);
      assert grp - (rest - {p}) == (grp - rest) + {p};
      r := r[Idx(p.0, p.1) := 0];
      rest := rest - {p};
    }
    assert grp - rest == grp;
  }

  // ---------------------------------------------------------------------
  // Captures

  /** The group of neighbour n when it holds `oppCell` and has no liberty, else nothing. */
  function CapturedGroup(b: Board, n: Point, oppCell: Stone): set<Point>
    requires OnBoard(n)
  {
    if At(b, n) == oppCell && |Liberties(b, Group(b, n))| == 0 then Group(b, n) else {}
  }

  /**
   * The stones captured through the neighbours `ns` of a new stone: the
   * groups of those neighbours that hold `oppCell` and have no liberty.
   */
  function Captures(b: Board, ns: seq<Point>, oppCell: Stone): set<Point>
    requires forall k :: 0 <= k < |ns| ==> OnBoard(ns[k])
  {
    if ns == [] then {}
    else Captures(b, ns[..|ns| - 1], oppCell) + CapturedGroup(b, ns[|ns| - 1], oppCell)
  }

  /** One more neighbour adds its captured group. */
  lemma {:induction false} CapturesStep(b: Board, ns: seq<Point>, oppCell: Stone, k: nat)
    requires forall j :: 0 <= j < |ns| ==> OnBoard(ns[j])
    requires k < |ns|
    ensures Captures(b, ns[..k + 1], oppCell) == Captures(b, ns[..k], oppCell) + CapturedGroup(b, ns[k], oppCell)
  {
    assert ns[..k + 1][..k] == ns[..k];
  }

  /** A captured group is empty exactly when its neighbour is not captured. */
  lemma {:induction false} CapturedGroupNonEmpty(b: Board, n: Point, oppCell: Stone)
    requires OnBoard(n)
    ensures CapturedGroup(b, n, oppCell) != {} <==> At(b, n) == oppCell && |Liberties(b, Group(b, n))| == 0
  {
    GroupProps(b, n);
  }

  /** Each neighbour's captured group is part of what is captured. */
  lemma {:induction false} CapturesHold(b: Board, ns: seq<Point>, oppCell: Stone, k: nat)
    requires forall j :: 0 <= j < |ns| ==> OnBoard(ns[j])
    requires k < |ns|
    ensures CapturedGroup(b, ns[k], oppCell) <= Captures(b, ns, oppCell)
  {
    var init := ns[..|ns| - 1];
    if k < |ns| - 1 {
      CapturesHold(b, init, oppCell, k);
      assert init[k] == ns[k];
    }
  }

  /** Every captured point is on the board, held `oppCell`, and lies in a neighbour's group without liberty. */
  lemma {:induction false} CapturesProps(b: Board, ns: seq<Point>, oppCell: Stone, p: Point)
    requires forall k :: 0 <= k < |ns| ==> OnBoard(ns[k])
    requires p in Captures(b, ns, oppCell)
    ensures OnBoard(p) && At(b, p) == oppCell
    ensures exists k :: 0 <= k < |ns| && p in Group(b, ns[k]) && |Liberties(b, Group(b, ns[k]))| == 0
  {
    var n := ns[|ns| - 1];
    if p in Captures(b, ns[..|ns| - 1], oppCell) {
      CapturesProps(b, ns[..|ns| - 1], oppCell, p);
      var k :| 0 <= k < |ns| - 1 && p in Group(b, ns[..|ns| - 1][k]) && |Liberties(b, Group(b, ns[..|ns| - 1][k]))| == 0;
      assert ns[..|ns| - 1][k] == ns[k];
    } else {
      GroupProps(b, n);
    }
  }

  /**
   * The capture loop shared by `would_be_legal_place` and `play_place`:
   * for each neighbour of (x, y) holding `oppCell`, its group is collected
   * when it has no liberty, and `anyCapture` records that one was.
   */
  method CaptureScan(b: Board, x: nat, y: nat, oppCell: Stone) returns (anyCapture: bool, toRemove: set<Point>)
    requires x < 9 && y < 9
    ensures toRemove == Captures(b, Neighbors(x, y), oppCell)
    ensures anyCapture <==> toRemove != {}
  {
    var ns := Neighbors(x, y);
    anyCapture, toRemove := false, {};
    for k := 0 to |ns|
      invariant toRemove == Captures(b, ns[..k], oppCell)
      invariant anyCapture <==> toRemove != {}
    {
      var n := ns[k];
      CapturesStep(b, ns, oppCell, k);
      CapturedGroupNonEmpty(b, n, oppCell);
      if b[Idx(n.0, n.1)] == oppCell {
        var grp, libs := GroupAndLiberties(b, n.0, n.1);
        if libs == 0 {
          anyCapture := true;
          toRemove := toRemove + grp;
        }
      }
    }
    assert ns[..|ns|] == ns;
  }

  // ---------------------------------------------------------------------
  // The position hash

  /** The hash word of one point: 0 when empty, else its mixed coordinates and colour, rotated. */
  function Mix(b: Board, x: nat, y: nat): bv64
    requires x < 9 && y < 9
  {
    var c := b[Idx(x, y)];
    if c == 0 then 0 else StoneWord(x, y, c)
  }

  /** The mixed coordinates and colour of a stone, rotated by x + y. */
  function StoneWord(x: nat, y: nat, c: Stone): bv64
    requires x < 9 && y < 9
  {
    var s := (Word(y) * 1315423911) ^ (Word(x) * 2654435761) ^ (Word(c) * 1099511628211);
    s.RotateLeft((x + y) % 63)
  }

  /** A byte widened to a 64-bit word. */
  function Word(n: nat): (w: bv64)
    requires n < 256
  {
    if n == 0 then 0 else Word(n - 1) + 1
  }

  /** The exclusive-or of the hash words of the points with index below n. */
  function HashBelow(b: Board, n: nat): bv64
    requires n <= 81
  {
    if n == 0 then 0 else HashBelow(b, n - 1) ^ Mix(b, (n - 1) % 9, (n - 1) / 9)
  }

  /** The word for the side to move: one for P1, another for anyone else. */
  function SideKey(p: Player): bv64
  {
    if p == P1 then 0xA5A5_A5A5_A5A5_A5A5 else 0x05A5_A5A5_A5A5_A5A5
  }

  /** `zobrist` as a value. */
  function Hash(b: Board, toMove: Player): bv64
  {
    HashBelow(b, 81) ^ SideKey(toMove)
  }

  /** The same board hashes differently with P1 and with P2 to move. */
  lemma {:induction false} HashSeparatesSides(b: Board)
    ensures Hash(b, P1) != Hash(b, P2) && Hash(b, P1) != Hash(b, Chance)
  {
    var h := HashBelow(b, 81);
    assert SideKey(P1) ^ SideKey(P2) != 0;
    assert (h ^ SideKey(P1)) ^ (h ^ SideKey(P2)) == SideKey(P1) ^ SideKey(P2);
  }

  /** Empty points add nothing to the hash. */
  lemma {:induction false} HashBelowEmptyTail(b: Board, k: nat, n: nat)
    requires k <= n <= 81
    requires forall i :: k <= i < n ==> b[i] == 0
    ensures HashBelow(b, n) == HashBelow(b, k)
    decreases n
  {
    if n > k {
      HashBelowEmptyTail(b, k, n - 1);
      var m := n - 1;
      var x, y := m % 9, m / 9;
      assert Idx(x, y) == m by {
        assert m == y * 9 + x;
      }
      assert Mix(b, x, y) == 0;
      assert HashBelow(b, n) == HashBelow(b, m) ^ 0;
    }
  }

  /** A black stone at (0, 0): only the colour product remains, and it is not rotated. */
  lemma {:induction false} MixBlackOrigin(b: Board)
    requires b[0] == 1
    ensures Mix(b, 0, 0) == 1099511628211
  {
    assert Word(0) == 0 && Word(1) == 1;
  }

  /** A white stone at (1, 0): the column and colour products, rotated by one. */
  lemma {:induction false} MixWhiteNext(b: Board)
    requires b[1] == 2
    ensures Mix(b, 1, 0) == 4403355383214
  {
    assert Word(0) == 0 && Word(1) == 1 && Word(2) == 2;
    var s: bv64 := (0 * 1315423911) ^ (1 * 2654435761) ^ (2 * 1099511628211);
    assert s == 2201677691607;
    assert s.RotateLeft(1) == 4403355383214;
  }

  /**
   * Two stones on row 0, black at (0, 0) and white at (1, 0): neither hash
   * word is 0, so with black to move the position hashes apart from the
   * empty board with black to move.
   */
  lemma {:induction false} RowZeroStonesHash(b: Board)
    requires b[0] == 1 && b[1] == 2 && forall i :: 2 <= i < 81 ==> b[i] == 0
    ensures Hash(b, P1) == 5502867010589 ^ SideKey(P1)
    ensures Hash(b, P1) != Hash(seq(81, i => 0), P1)
  {
    var e: Board := seq(81, i => 0);
    HashBelowEmptyTail(b, 2, 81);
    HashBelowEmptyTail(e, 0, 81);
    MixBlackOrigin(b);
    MixWhiteNext(b);
    assert HashBelow(b, 1) == 0 ^ Mix(b, 0, 0);
    assert HashBelow(b, 2) == HashBelow(b, 1) ^ Mix(b, 1, 0);
  }

  /** Point (x, y) is the next one after those below its index. */
  lemma {:induction false} HashBelowStep(b: Board, x: nat, y: nat)
    requires x < 9 && y < 9
    ensures HashBelow(b, Idx(x, y) + 1) == HashBelow(b, Idx(x, y)) ^ Mix(b, x, y)
  {
    IdxDivMod(x, y);
  }

  /** One point of `zobrist`: its word folded into h. */
  method PointHash(b: Board, x: nat, y: nat, h0: bv64) returns (h: bv64)
    requires x < 9 && y < 9 && h0 == HashBelow(b, Idx(x, y))
    ensures h == HashBelow(b, Idx(x + 1, y))
  {
    HashBelowStep(b, x, y);
    assert Idx(x + 1, y) == Idx(x, y) + 1;
    h := h0 ^ Mix(b, x, y);
  }

  /** One row of `zobrist`: the words of row y folded into h. */
  method RowHash(b: Board, y: nat, h0: bv64) returns (h: bv64)
    requires y < 9 && h0 == HashBelow(b, Idx(0, y))
    ensures h == HashBelow(b, Idx(0, y + 1))
  {
    h := h0;
    for x := 0 to 9
      invariant h == HashBelow(b, Idx(x, y))
    {
      h := PointHash(b, x, y, h);
    }    assert Idx(9, y) == Idx(0, y + 1);
  }

  /** `zobrist`: the rows in order, each point's word folded in by exclusive-or. */
  method Zobrist(b: Board, toMove: Player) returns (h: bv64)
    ensures h == Hash(b, toMove)
  {
    h := 0;
    for y := 0 to 9
      invariant h == HashBelow(b, Idx(0, y))
    {
      h := RowHash(b, y, h);
    }
    h := h ^ SideKey(toMove);
  }

  // ---------------------------------------------------------------------
  // Placing a stone

  /** The board with p's stone on (x, y), before captures. */
  function Placed(b: Board, x: nat, y: nat, p: Player): Board
    requires x < 9 && y < 9
  {
    b[Idx(x, y) := PToCell(p)]
  }

  /** The opponent stones that p's stone on (x, y) takes. */
  function CapturedBy(b: Board, x: nat, y: nat, p: Player): set<Point>
    requires x < 9 && y < 9
  {
    Captures(Placed(b, x, y, p), Neighbors(x, y), PToCell(Other(p)))
  }

  /** The board after p's stone goes on (x, y) and the opponent groups it takes are removed. */
  function AfterPlace(b: Board, x: nat, y: nat, p: Player): Board
    requires x < 9 && y < 9
  {
    Clear(Placed(b, x, y, p), CapturedBy(b, x, y, p))
  }

  /**
   * `would_be_legal_place`: the point is empty; after the captures, the new
   * stone's group has a liberty unless something was captured (no
   * suicide); and the position with the opponent to move does not hash to
   * `prevHash` (simple ko).
   */
  predicate LegalPlace(s: State, x: nat, y: nat, p: Player)
    requires x < 9 && y < 9
  {
    s.board[Idx(x, y)] == 0 &&
    (|Liberties(AfterPlace(s.board, x, y, p), Group(AfterPlace(s.board, x, y, p), (x, y)))| != 0 || CapturedBy(s.board, x, y, p) != {}) &&
    Hash(AfterPlace(s.board, x, y, p), Other(p)) != s.prevHash
  }

  /** `would_be_legal_place`, step by step on a copy of the board. */
  method WouldBeLegalPlace(s: State, x: nat, y: nat, p: Player) returns (r: bool)
    requires x < 9 && y < 9
    ensures r == LegalPlace(s, x, y, p)
  {
    if s.board[Idx(x, y)] != 0 {
      return false;
    }
    var tmp := s.board[Idx(x, y) := PToCell(p)];
    ghost var placed := tmp;
    var opp := Other(p);
    var anyCapture, toRemove := CaptureScan(tmp, x, y, PToCell(opp));
    if toRemove != {} {
      forall q | q in toRemove ensures OnBoard(q) {
        CapturesProps(placed, Neighbors(x, y), PToCell(opp), q);
      }
      tmp := RemoveGroup(tmp, toRemove);
    } else {
      ClearNothing(tmp);
    }
    var _, libs := GroupAndLiberties(tmp, x, y);
    if libs == 0 && !anyCapture {
      return false;
    }
    var newHash := Zobrist(tmp, opp);
    r := newHash != s.prevHash;
  }

  /**
   * A legal placement always leaves the new stone's group a liberty: with
   * no capture that is the suicide rule, and a capture empties a point next
   * to the new stone.
   */
  lemma {:induction false} LegalPlaceLeavesLiberty(s: State, x: nat, y: nat, p: Player)
    requires x < 9 && y < 9 && LegalPlace(s, x, y, p)
    ensures |Liberties(AfterPlace(s.board, x, y, p), Group(AfterPlace(s.board, x, y, p), (x, y)))| > 0
  {
    var tmp := s.board[Idx(x, y) := PToCell(p)];
    var ns := Neighbors(x, y);
    var oppCell := PToCell(Other(p));
    var captured := Captures(tmp, ns, oppCell);
    var after := Clear(tmp, captured);
    if captured != {} {
      var q :| q in captured;
      CapturesProps(tmp, ns, oppCell, q);
      var k :| 0 <= k < |ns| && q in Group(tmp, ns[k]) && |Liberties(tmp, Group(tmp, ns[k]))| == 0;
      var n := ns[k];
      GroupProps(tmp, n);
      assert At(tmp, n) == oppCell;
      assert n in CapturedGroup(tmp, n, oppCell);
      CapturesHold(tmp, ns, oppCell, k);
      ClearAt(tmp, captured, n);
      GroupProps(after, (x, y));
      assert after[Idx(n.0, n.1)] == 0;
      assert (x, y) in Group(after, (x, y)) && Adjacent((x, y), n);
      assert n in Liberties(after, Group(after, (x, y)));
    }
  }

  /**
   * Placing changes only the new point and the captured stones: the new
   * point holds the mover's cell, each captured point was the opponent's
   * and is now empty, and every other cell is as before.
   */
  lemma {:induction false} AfterPlaceCells(b: Board, x: nat, y: nat, p: Player, q: Point)
    requires x < 9 && y < 9 && p != Chance && OnBoard(q)
    ensures q == (x, y) ==> At(AfterPlace(b, x, y, p), q) == PToCell(p)
    ensures q != (x, y) ==>
      At(AfterPlace(b, x, y, p), q) == At(b, q) ||
      (At(b, q) == PToCell(Other(p)) && At(AfterPlace(b, x, y, p), q) == 0)
  {
    var tmp := b[Idx(x, y) := PToCell(p)];
    var ns := Neighbors(x, y);
    var captured := Captures(tmp, ns, PToCell(Other(p)));
    ClearAt(tmp, captured, q);
    if q in captured {
      CapturesProps(tmp, ns, PToCell(Other(p)), q);
    }
    if q != (x, y) {
      assert Idx(q.0, q.1) != Idx(x, y);
    }
  }

  /** `play_place` as a value: the stone goes down, captures are removed, the side switches, the streak resets. */
  function PlaceOf(s: State, x: nat, y: nat): State
    requires x < 9 && y < 9
  {
    State(AfterPlace(s.board, x, y, s.toMove), Other(s.toMove), 0, Hash(s.board, s.toMove))
  }

  /** `play_place`: the hash of the position before the move is kept for the ko test. */
  method PlayPlace(s: State, x: nat, y: nat) returns (t: State)
    requires x < 9 && y < 9
    ensures t == PlaceOf(s, x, y)
  {
    var prevHash := Zobrist(s.board, s.toMove);
    var board := s.board[Idx(x, y) := PToCell(s.toMove)];
    ghost var placed := board;
    var opp := Other(s.toMove);
    var _, toRemoveFull := CaptureScan(board, x, y, PToCell(opp));
    if toRemoveFull != {} {
      forall q | q in toRemoveFull ensures OnBoard(q) {
        CapturesProps(placed, Neighbors(x, y), PToCell(opp), q);
      }
      board := RemoveGroup(board, toRemoveFull);
    } else {
      ClearNothing(board);
    }
    t := State(board, opp, 0, prevHash);
  }

  /** Pass as a value: the board stays, the side switches, the streak rises and stops at 255. */
  function PassOf(s: State): State
  {
    State(s.board, Other(s.toMove), if s.passStreak < 255 then s.passStreak + 1 else 255, Hash(s.board, s.toMove))
  }

  /** `play`. Coordinates off the board are outside the model. */
  function PlayOf(s: State, a: Action): State
    requires a.Place? ==> a.x < 9 && a.y < 9
  {
    match a
    case Pass => PassOf(s)
    case Place(x, y) => PlaceOf(s, x, y)
  }

  /** `play`: Pass by hand, Place through `play_place`. */
  method Play(s: State, a: Action) returns (t: State)
    requires a.Place? ==> a.x < 9 && a.y < 9
    ensures t == PlayOf(s, a)
  {
    match a {
      case Pass =>
        var h := Zobrist(s.board, s.toMove);
        var streak := if s.passStreak < 255 then s.passStreak + 1 else 255;
        t := State(s.board, Other(s.toMove), streak, h);
      case Place(x, y) =>
        t := PlayPlace(s, x, y);
    }
  }

  /** `active_player`. */
  function ActivePlayer(s: State): Player
  {
    s.toMove
  }

  /** `is_over`: two passes in a row. */
  predicate IsOver(s: State)
  {
    s.passStreak >= 2
  }

  /** A pass raises the streak by one (at most to 255) and switches the side; it ends the game iff a pass came just before. */
  lemma {:induction false} PassEffect(s: State)
    ensures PassOf(s).board == s.board && PassOf(s).toMove == Other(s.toMove)
    ensures PassOf(s).passStreak == if s.passStreak == 255 then 255 else s.passStreak + 1
    ensures s.passStreak <= 255 ==> (IsOver(PassOf(s)) <==> s.passStreak >= 1)
  {
  }

  /** A placement resets the streak: the game is never over just after one. */
  lemma {:induction false} PlaceIsNotOver(s: State, x: nat, y: nat)
    requires x < 9 && y < 9
    ensures !IsOver(PlaceOf(s, x, y)) && PlaceOf(s, x, y).toMove == Other(s.toMove)
  {
  }

  /** From the start, two passes end the game and nothing less does. */
  lemma {:induction false} TwoPassesEnd()
    ensures !IsOver(New()) && !IsOver(PassOf(New())) && IsOver(PassOf(PassOf(New())))
    ensures PassOf(New()).passStreak == 1 && PassOf(PassOf(New())).passStreak == 2
  {
  }

  /** On an empty board a stone captures nothing: black's stone is the only one, and white is to move. */
  lemma {:induction false} FirstStone(x: nat, y: nat, q: Point)
    requires x < 9 && y < 9 && OnBoard(q)
    ensures At(PlaceOf(New(), x, y).board, q) == if q == (x, y) then 1 else 0
    ensures PlaceOf(New(), x, y).toMove == P2 && PlaceOf(New(), x, y).passStreak == 0
  {
    var s := New();
    var b := s.board;
    assert PlaceOf(s, x, y).board == AfterPlace(b, x, y, P1);
    assert At(b, q) == 0;
    AfterPlaceCells(b, x, y, P1, q);
  }

  // ---------------------------------------------------------------------
  // Available actions

  /** For each point index, whether p may place there: `board[i] == 0 && would_be_legal_place`. */
  function LegalMap(s: State, p: Player): (m: seq<bool>)
    ensures |m| == 81
  {
    seq(81, i requires 0 <= i < 81 => s.board[i] == 0 && LegalPlace(s, i % 9, i / 9, p))
  }

  /** The map at a point's index is that point's legality. */
  lemma {:induction false} LegalMapAt(s: State, p: Player, x: nat, y: nat)
    requires x < 9 && y < 9
    ensures LegalMap(s, p)[Idx(x, y)] == LegalPlace(s, x, y, p)
  {
    IdxDivMod(x, y);
  }

  /** The placements marked in m among the points with index below n, in index order. */
  function PlacesBelow(m: seq<bool>, n: nat): seq<Action>
    requires |m| == 81 && n <= 81
  {
    if n == 0 then []
    else
      var x, y := (n - 1) % 9, (n - 1) / 9;
      PlacesBelow(m, n - 1) + (if m[n - 1] then [Place(x, y)] else [])
  }

  /** Point (x, y) is the next one after the points below its index. */
  lemma {:induction false} PlacesBelowStep(m: seq<bool>, x: nat, y: nat)
    requires |m| == 81 && x < 9 && y < 9
    ensures PlacesBelow(m, Idx(x + 1, y)) == PlacesBelow(m, Idx(x, y)) + (if m[Idx(x, y)] then [Place(x, y)] else [])
  {
    IdxDivMod(x, y);
  }

  /** The placements below n are exactly the marked points below n. */
  lemma {:induction false} PlacesBelowSpec(m: seq<bool>, n: nat, a: Action)
    requires |m| == 81 && n <= 81
    ensures a in PlacesBelow(m, n) <==> a.Place? && a.x < 9 && a.y < 9 && Idx(a.x, a.y) < n && m[Idx(a.x, a.y)]
  {
    if n > 0 {
      PlacesBelowSpec(m, n - 1, a);
      var x, y := (n - 1) % 9, (n - 1) / 9;
      assert Idx(x, y) == n - 1;
      if a.Place? && a.x < 9 && a.y < 9 && Idx(a.x, a.y) == n - 1 {
        IdxDivMod(a.x, a.y);
      }
    }
  }

  /** `available_actions_for(p)` as a value: the legal placements, or Pass alone when there is none; never empty. */
  function AvailableFor(s: State, p: Player): (r: seq<Action>)
    ensures r != []
  {
    var moves := PlacesBelow(LegalMap(s, p), 81);
    if moves == [] then [Pass] else moves
  }

  /** `available_actions`: those of the side to move. */
  function Available(s: State): seq<Action>
  {
    AvailableFor(s, s.toMove)
  }

  /** Pass is offered exactly when no placement is legal. */
  lemma {:induction false} AvailablePassIffStuck(s: State, p: Player)
    ensures AvailableFor(s, p) == [Pass] <==> forall x: nat, y: nat :: x < 9 && y < 9 ==> !LegalPlace(s, x, y, p)
  {
    var m := LegalMap(s, p);
    var moves := PlacesBelow(m, 81);
    if moves != [] {
      PlacesBelowSpec(m, 81, moves[0]);
      LegalMapAt(s, p, moves[0].x, moves[0].y);
    } else {
      forall x: nat, y: nat | x < 9 && y < 9 ensures !LegalPlace(s, x, y, p) {
        PlacesBelowSpec(m, 81, Place(x, y));
        LegalMapAt(s, p, x, y);
      }
    }
  }

  /** Otherwise the actions are exactly the legal placements. */
  lemma {:induction false} AvailablePlacesAreLegal(s: State, p: Player, a: Action)
    requires AvailableFor(s, p) != [Pass]
    ensures a in AvailableFor(s, p) <==> a.Place? && a.x < 9 && a.y < 9 && LegalPlace(s, a.x, a.y, p)
  {
    var m := LegalMap(s, p);
    PlacesBelowSpec(m, 81, a);
    if a.Place? && a.x < 9 && a.y < 9 {
      LegalMapAt(s, p, a.x, a.y);
    }
  }

  /** One row of `available_actions_for`. */
  method RowPlaces(s: State, p: Player, y: nat, before: seq<Action>) returns (moves: seq<Action>)
    requires y < 9 && before == PlacesBelow(LegalMap(s, p), Idx(0, y))
    ensures moves == PlacesBelow(LegalMap(s, p), Idx(0, y + 1))
  {
    moves := before;
    for x := 0 to 9
      invariant moves == PlacesBelow(LegalMap(s, p), Idx(x, y))
    {
      PlacesBelowStep(LegalMap(s, p), x, y);
      LegalMapAt(s, p, x, y);
      if s.board[Idx(x, y)] == 0 {
        var legal := WouldBeLegalPlace(s, x, y, p);
        if legal {
          moves := moves + [Place(x, y)];
        }
      }
    }
  }

  /** `available_actions_for`: the rows in order, then Pass when nothing was found. */
  method AvailableActionsFor(s: State, p: Player) returns (moves: seq<Action>)
    ensures moves == AvailableFor(s, p)
  {
    moves := [];
    for y := 0 to 9
      invariant moves == PlacesBelow(LegalMap(s, p), Idx(0, y))
    {
      moves := RowPlaces(s, p, y, moves);
    }
    if moves == [] {
      moves := [Pass];
    }
  }

  // ---------------------------------------------------------------------
  // Traces and sampling

  function TraceOf(s: State, player: Player): (t: Trace)
    ensures t.board == s.board
  {
    Trace(s.board)
  }

  /** Traces are only ever equal or incomparable. */
  function TraceCompare(a: Trace, b: Trace): (o: Option<Ordering>)
    ensures o == Some(Equal) <==> a == b
    ensures o != Some(Equal) ==> o.None?
  {
    if a.board == b.board then Some(Equal) else None
  }

  /** `sample_position`: the traced board with P1 to move, no passes, hash 0. */
  function SamplePosition(t: Trace): (r: seq<State>)
    ensures |r| == 1 && r[0] == State(t.board, P1, 0, 0)
  {
    [State(t.board, P1, 0, 0)]
  }

  /** The sample shows the trace it came from to either player. */
  lemma {:induction false} SampleMatchesTrace(t: Trace, player: Player)
    ensures TraceOf(SamplePosition(t)[0], player) == t
  {
  }

  // ---------------------------------------------------------------------
  // Area scoring

  /** The empty region of an empty point: the empty points connected to it. */
  function Region(b: Board, p: Point): set<Point>
    requires OnBoard(p)
  {
    AllPointsOnBoard(p);
    Flood(b, 0, {p})
  }

  /** The colours of the stones next to some point of R. */
  function BorderColours(b: Board, R: set<Point>): set<Stone>
  {
    set x: nat, y: nat | x < 9 && y < 9 && b[Idx(x, y)] != 0 && (exists r :: r in R && Adjacent(r, (x, y))) :: b[Idx(x, y)]
  }

  /** Region facts: it holds the point, is empty throughout, and is closed among empty points. */
  lemma {:induction false} RegionProps(b: Board, p: Point)
    requires OnBoard(p) && At(b, p) == 0
    ensures p in Region(b, p) && Region(b, p) <= AllPoints()
    ensures forall q :: q in Region(b, p) ==> OnBoard(q) && At(b, q) == 0
    ensures Closed(b, 0, Region(b, p))
  {
    AllPointsOnBoard(p);
    FloodProps(b, 0, {p});
    forall q | q in Region(b, p) ensures OnBoard(q) {
      AllPointsOnBoard(q);
    }
  }

  /** The colours of the stones among the points ns. */
  function ColoursOf(b: Board, ns: seq<Point>): set<Stone>
    requires forall k :: 0 <= k < |ns| ==> OnBoard(ns[k])
  {
    if ns == [] then {}
    else
      var n := ns[|ns| - 1];
      ColoursOf(b, ns[..|ns| - 1]) + (if At(b, n) != 0 then {At(b, n)} else {})
  }

  /** A colour is among ns exactly when some stone of ns has it. */
  lemma {:induction false} ColoursOfSpec(b: Board, ns: seq<Point>, c: Stone)
    requires forall k :: 0 <= k < |ns| ==> OnBoard(ns[k])
    ensures c in ColoursOf(b, ns) <==> exists k :: 0 <= k < |ns| && At(b, ns[k]) != 0 && At(b, ns[k]) == c
  {
    if ns != [] {
      var init := ns[..|ns| - 1];
      ColoursOfSpec(b, init, c);
      if exists k :: 0 <= k < |init| && At(b, init[k]) != 0 && At(b, init[k]) == c {
        var k :| 0 <= k < |init| && At(b, init[k]) != 0 && At(b, init[k]) == c;
        assert ns[k] == init[k];
      }
      if exists k :: 0 <= k < |ns| && At(b, ns[k]) != 0 && At(b, ns[k]) == c {
        var k :| 0 <= k < |ns| && At(b, ns[k]) != 0 && At(b, ns[k]) == c;
        if k < |init| {
          assert init[k] == ns[k];
        }
      }
    }
  }

  /** The colours around one point are its border colours. */
  lemma {:induction false} ColoursOfNeighbors(b: Board, cur: Point)
    requires OnBoard(cur)
    ensures ColoursOf(b, Neighbors(cur.0, cur.1)) == BorderColours(b, {cur})
  {
    var ns := Neighbors(cur.0, cur.1);
    forall c: Stone ensures c in ColoursOf(b, ns) <==> c in BorderColours(b, {cur}) {
      ColoursOfSpec(b, ns, c);
      if c in BorderColours(b, {cur}) {
        BorderColourIsNeighbours(b, cur, c);
      }
      if exists k :: 0 <= k < |ns| && At(b, ns[k]) != 0 && At(b, ns[k]) == c {
        var k :| 0 <= k < |ns| && At(b, ns[k]) != 0 && At(b, ns[k]) == c;
        NeighbourColourIsBorder(b, cur, k);
      }
    }
  }

  /** A border colour of one point is the colour of one of its neighbours. */
  lemma {:induction false} BorderColourIsNeighbours(b: Board, cur: Point, c: Stone)
    requires OnBoard(cur) && c in BorderColours(b, {cur})
    ensures exists k :: 0 <= k < |Neighbors(cur.0, cur.1)| && At(b, Neighbors(cur.0, cur.1)[k]) != 0 && At(b, Neighbors(cur.0, cur.1)[k]) == c
  {
    var ns := Neighbors(cur.0, cur.1);
    var x: nat, y: nat :| x < 9 && y < 9 && b[Idx(x, y)] != 0 && (exists r :: r in {cur} && Adjacent(r, (x, y))) && b[Idx(x, y)] == c;
    var r :| r in {cur} && Adjacent(r, (x, y));
    assert r == cur;
    assert (x, y) in ns;
    var k :| 0 <= k < |ns| && ns[k] == (x, y);
    assert At(b, ns[k]) == c;
  }

  /** The colour of a stone next to a point is a border colour of that point. */
  lemma {:induction false} NeighbourColourIsBorder(b: Board, cur: Point, k: nat)
    requires OnBoard(cur) && k < |Neighbors(cur.0, cur.1)| && At(b, Neighbors(cur.0, cur.1)[k]) != 0
    ensures At(b, Neighbors(cur.0, cur.1)[k]) in BorderColours(b, {cur})
  {
    var n := Neighbors(cur.0, cur.1)[k];
    assert cur in {cur} && Adjacent(cur, (n.0, n.1));
    assert b[Idx(n.0, n.1)] == At(b, n);
  }

  /** One more point adds its colour when it holds a stone. */
  lemma {:induction false} ColoursOfStep(b: Board, ns: seq<Point>, k: nat)
    requires forall j :: 0 <= j < |ns| ==> OnBoard(ns[j])
    requires k < |ns|
    ensures ColoursOf(b, ns[..k + 1]) == ColoursOf(b, ns[..k]) + (if At(b, ns[k]) != 0 then {At(b, ns[k])} else {})
  {
    assert ns[..k + 1][..k] == ns[..k];
  }

  /**
   * What one step of the flood fill does to `seen` and the queue: the
   * unseen empty neighbours of `cur` become seen and are queued, each once,
   * behind the old queue.
   */
  ghost predicate VisitPost(b: Board, cur: Point, seen: set<Point>, q: seq<Point>, seen': set<Point>, q': seq<Point>)
  {
    (forall n :: n in seen' <==> n in seen || (OnBoard(n) && Adjacent(cur, n) && At(b, n) == 0)) &&
    |q| <= |q'| && q'[..|q|] == q &&
    (forall j :: |q| <= j < |q'| ==> q'[j] in seen' && q'[j] !in seen) &&
    (forall i, j :: |q| <= i < j < |q'| ==> q'[i] != q'[j]) &&
    (forall n :: n in seen' && n !in seen ==> n in q') &&
    (seen' == seen ==> q' == q)
  }

  /**
   * The body of the flood-fill loop for one point `cur`: each unseen empty
   * neighbour is marked seen and queued, and each stone's colour is a border
   * colour.
   */
  method VisitEmpty(b: Board, cur: Point, seen: set<Point>, q: seq<Point>, borders: set<Stone>)
    returns (seen': set<Point>, q': seq<Point>, borders': set<Stone>)
    requires OnBoard(cur)
    ensures VisitPost(b, cur, seen, q, seen', q')
    ensures borders' == borders + BorderColours(b, {cur})
  {
    var ns := Neighbors(cur.0, cur.1);
    seen', q', borders' := VisitAll(b, ns, seen, q, borders);
    VisitInvDone(b, cur, seen, q, seen', q');
    ColoursOfNeighbors(b, cur);
  }

  /** The visit of a list of points on the board, one after the other. */
  method VisitAll(b: Board, ns: seq<Point>, seen: set<Point>, q: seq<Point>, borders: set<Stone>)
    returns (seen': set<Point>, q': seq<Point>, borders': set<Stone>)
    requires forall j :: 0 <= j < |ns| ==> OnBoard(ns[j])
    ensures VisitInv(b, ns, |ns|, seen, q, seen', q')
    ensures borders' == borders + ColoursOf(b, ns)
  {
    seen', q', borders' := seen, q, borders;
    for k := 0 to |ns|
      invariant VisitInv(b, ns, k, seen, q, seen', q')
      invariant borders' == borders + ColoursOf(b, ns[..k])
    {
      ghost var s0, q0 := seen', q';
      seen', q', borders' := VisitNeighbour(b, ns[k], seen', q', borders');
      VisitInvStep(b, ns, k, seen, q, s0, q0, seen', q');
      ColoursOfStep(b, ns, k);
    }
    assert ns[..|ns|] == ns;
  }

  /** One neighbour n of the flood fill: queued when empty and unseen, its colour recorded when a stone. */
  method VisitNeighbour(b: Board, n: Point, seen: set<Point>, q: seq<Point>, borders: set<Stone>)
    returns (seen': set<Point>, q': seq<Point>, borders': set<Stone>)
    requires OnBoard(n)
    ensures if At(b, n) == 0 && n !in seen then seen' == seen + {n} && q' == q + [n] else seen' == seen && q' == q
    ensures borders' == borders + (if At(b, n) != 0 then {At(b, n)} else {})
  {
    seen', q', borders' := seen, q, borders;
    var c := b[Idx(n.0, n.1)];
    if c == 0 {
      if n !in seen {
        seen' := seen + {n};
        q' := q + [n];
      }
    } else {
      borders' := borders + {c};
    }
  }

  /** The flood-fill visit after its first k neighbours. */
  ghost predicate VisitInv(b: Board, ns: seq<Point>, k: nat, seen: set<Point>, q: seq<Point>, seen': set<Point>, q': seq<Point>)
    requires forall j :: 0 <= j < |ns| ==> OnBoard(ns[j])
    requires k <= |ns|
  {
    (forall n :: n in seen' <==> n in seen || (n in ns[..k] && At(b, n) == 0)) &&
    |q| <= |q'| && q'[..|q|] == q &&
    (forall j :: |q| <= j < |q'| ==> q'[j] in seen' && q'[j] !in seen) &&
    (forall i, j :: |q| <= i < j < |q'| ==> q'[i] != q'[j]) &&
    (forall n :: n in seen' && n !in seen ==> n in q') &&
    (seen' == seen ==> q' == q)
  }

  /** Visiting one more neighbour keeps the visit invariant. */
  lemma {:induction false} VisitInvStep(b: Board, ns: seq<Point>, k: nat, seen: set<Point>, q: seq<Point>,
                                        s0: set<Point>, q0: seq<Point>, s1: set<Point>, q1: seq<Point>)
    requires forall j :: 0 <= j < |ns| ==> OnBoard(ns[j])
    requires k < |ns| && VisitInv(b, ns, k, seen, q, s0, q0)
    requires if At(b, ns[k]) == 0 && ns[k] !in s0 then s1 == s0 + {ns[k]} && q1 == q0 + [ns[k]] else s1 == s0 && q1 == q0
    ensures VisitInv(b, ns, k + 1, seen, q, s1, q1)
  {
    assert ns[..k + 1] == ns[..k] + [ns[k]];
    if At(b, ns[k]) == 0 && ns[k] !in s0 {
      assert q1[..|q|] == q0[..|q|];
    }
  }

  /** After all neighbours the visit has done what the flood fill needs of it. */
  lemma {:induction false} VisitInvDone(b: Board, cur: Point, seen: set<Point>, q: seq<Point>, seen': set<Point>, q': seq<Point>)
    requires OnBoard(cur)
    requires VisitInv(b, Neighbors(cur.0, cur.1), |Neighbors(cur.0, cur.1)|, seen, q, seen', q')
    ensures VisitPost(b, cur, seen, q, seen', q')
  {
    var ns := Neighbors(cur.0, cur.1);
    assert ns[..|ns|] == ns;
  }

  /** Adjacency goes both ways. */
  lemma {:induction false} AdjacentSymmetric(p: Point, q: Point)
    ensures Adjacent(p, q) <==> Adjacent(q, p)
  {
  }

  /**
   * The invariant of the flood fill from `start` over the region R, with
   * `seen` the points seen before it: the points seen now are the old ones,
   * the region points already taken from the queue, and the queue; the
   * queue holds distinct points of R, none taken or seen before; and every
   * empty neighbour of a taken point is seen.
   */
  ghost predicate FloodInv(b: Board, seen: set<Point>, R: set<Point>, start: Point, seenNow: set<Point>, q: seq<Point>, region: set<Point>)
  {
    (forall z :: z in seenNow <==> z in seen || z in region || z in q) &&
    (forall z :: z in region ==> z !in seen) &&
    (forall k :: 0 <= k < |q| ==> q[k] !in seen && q[k] !in region && q[k] in R) &&
    (forall i, j :: 0 <= i < j < |q| ==> q[i] != q[j]) &&
    region <= R && (start in region || start in q) &&
    (forall r, n: Point :: r in region && OnBoard(n) && Adjacent(r, n) && At(b, n) == 0 ==> n in seenNow)
  }

  /** One step of the flood fill keeps its invariant. */
  lemma {:induction false} FloodStep(b: Board, seen: set<Point>, start: Point, seenNow: set<Point>, q: seq<Point>, region: set<Point>,
                                     seen1: set<Point>, q1: seq<Point>)
    requires OnBoard(start) && At(b, start) == 0
    requires FloodInv(b, seen, Region(b, start), start, seenNow, q, region) && q != []
    requires VisitPost(b, q[0], seenNow, q[1..], seen1, q1)
    ensures FloodInv(b, seen, Region(b, start), start, seen1, q1, region + {q[0]})
    ensures q[0] !in region
  {
    var R := Region(b, start);
    RegionProps(b, start);
    var cur := q[0];
    var rest := q[1..];
    assert forall k :: 0 <= k < |rest| ==> rest[k] == q[k + 1];
    assert forall k :: 0 <= k < |rest| ==> q1[k] == rest[k];
    forall z ensures z in seen1 <==> z in seen || z in region + {cur} || z in q1 {
      if z in seen1 && z !in seenNow {
        assert z in q1;
      }
      if z in q1 {
        var k :| 0 <= k < |q1| && q1[k] == z;
        if k >= |rest| {
          assert z in seen1;
        }
      }
    }
    forall k | 0 <= k < |q1| ensures q1[k] !in seen && q1[k] !in region + {cur} && q1[k] in R {
      if k >= |rest| {
        assert q1[k] in seen1 && q1[k] !in seenNow;
      }
    }
    forall i, j | 0 <= i < j < |q1| ensures q1[i] != q1[j] {
      if i < |rest| && j >= |rest| {
        assert q1[j] !in seenNow;
      }
    }
  }

  /**
   * The flood fill of `area_score` from the unseen empty point (x, y). With
   * `seen` a union of earlier regions (closed among empty points), it marks
   * exactly the point's region seen, counts it, and collects its border
   * colours.
   */
  method FloodRegion(b: Board, x: nat, y: nat, seen: set<Point>) returns (seen': set<Point>, size: nat, borders: set<Stone>)
    requires x < 9 && y < 9 && b[Idx(x, y)] == 0 && (x, y) !in seen
    requires Closed(b, 0, seen)
    ensures seen' == seen + Region(b, (x, y))
    ensures size == |Region(b, (x, y))|
    ensures borders == BorderColours(b, Region(b, (x, y)))
  {
    var start := (x, y);
    RegionProps(b, start);
    ghost var R := Region(b, start);
    var q := [start];
    seen' := seen + {start};
    size := 0;
    borders := {};
    ghost var region: set<Point> := {};
    while q != []
      invariant FloodInv(b, seen, R, start, seen', q, region)
      invariant size == |region| && borders == BorderColours(b, region)
      invariant seen' <= seen + R
      decreases (seen + R) - seen', |q|
    {
      var cur := q[0];
      seen', q, borders := FloodVisit(b, seen, start, seen', q, region, borders);
      region := region + {cur};
      size := size + 1;
    }
    FloodDone(b, seen, start, seen', region);
  }

  /** One pass of the flood fill's loop: take the head of the queue and visit its neighbours. */
  method FloodVisit(b: Board, ghost seen: set<Point>, ghost start: Point, seenNow: set<Point>, q: seq<Point>,
                    ghost region: set<Point>, borders: set<Stone>)
    returns (seen1: set<Point>, q1: seq<Point>, borders1: set<Stone>)
    requires OnBoard(start) && At(b, start) == 0
    requires FloodInv(b, seen, Region(b, start), start, seenNow, q, region) && q != []
    requires borders == BorderColours(b, region)
    ensures FloodInv(b, seen, Region(b, start), start, seen1, q1, region + {q[0]})
    ensures q[0] !in region && borders1 == BorderColours(b, region + {q[0]})
    ensures seenNow <= seen1 && (seen1 == seenNow ==> |q1| < |q|)
  {
    var cur := q[0];
    RegionProps(b, start);
    seen1, q1, borders1 := VisitEmpty(b, cur, seenNow, q[1..], borders);
    FloodStep(b, seen, start, seenNow, q, region, seen1, q1);
    BorderColoursUnion(b, region, cur);
  }

  /** When the queue is empty, the points taken are exactly the region. */
  lemma {:induction false} FloodDone(b: Board, seen: set<Point>, start: Point, seenNow: set<Point>, region: set<Point>)
    requires OnBoard(start) && At(b, start) == 0
    requires Closed(b, 0, seen)
    requires FloodInv(b, seen, Region(b, start), start, seenNow, [], region)
    ensures region == Region(b, start)
  {
    RegionProps(b, start);
    assert Closed(b, 0, region) by {
      forall r, n: Point | r in region && OnBoard(n) && Adjacent(r, n) && At(b, n) == 0
        ensures n in region
      {
        if n in seen {
          AdjacentSymmetric(r, n);
          assert false;
        }
      }
    }
    AllPointsOnBoard(start);
    FloodLeast(b, 0, {start}, region);
  }

  /** The border colours of a union are the union of the border colours. */
  lemma {:induction false} BorderColoursUnion(b: Board, A: set<Point>, p: Point)
    ensures BorderColours(b, A + {p}) == BorderColours(b, A) + BorderColours(b, {p})
  {
    forall c ensures c in BorderColours(b, A + {p}) ==> c in BorderColours(b, A) + BorderColours(b, {p}) {
      if c in BorderColours(b, A + {p}) {
        var x: nat, y: nat :| x < 9 && y < 9 && b[Idx(x, y)] != 0 && (exists r :: r in A + {p} && Adjacent(r, (x, y))) && b[Idx(x, y)] == c;
        var r :| r in A + {p} && Adjacent(r, (x, y));
        if r in A {
          assert c in BorderColours(b, A);
        } else {
          assert c in BorderColours(b, {p});
        }
      }
    }
  }

  /** The credit of one region: its size to black when black alone borders it, to white when white alone does. */
  function Credit(borders: set<Stone>, size: nat): (bw: (nat, nat))
  {
    if |borders| == 1 && 1 in borders then (size, 0)
    else if |borders| == 1 && 2 in borders then (0, size)
    else (0, 0)
  }

  /** A nonempty region is credited to a colour exactly when that colour alone borders it. */
  lemma {:induction false} CreditOnlyForOneColour(borders: set<Stone>, size: nat)
    requires size > 0
    ensures Credit(borders, size).0 > 0 <==> borders == {1}
    ensures Credit(borders, size).1 > 0 <==> borders == {2}
  {
    if |borders| == 1 && 1 in borders {
      assert |borders - {1}| == 0;
    } else if |borders| == 1 && 2 in borders {
      assert |borders - {2}| == 0;
    }
  }

  /**
   * The territory credited by the scan from point (x, y) on, row by row,
   * with `seen` the points already flood-filled: each unseen empty point
   * has its region credited and added to `seen`.
   */
  function Territory(b: Board, x: nat, y: nat, seen: set<Point>): (bw: (nat, nat))
    requires x <= 9 && y <= 9
    decreases 9 - y, 9 - x
  {
    if y == 9 then (0, 0)
    else if x == 9 then Territory(b, 0, y + 1, seen)
    else if b[Idx(x, y)] != 0 || (x, y) in seen then Territory(b, x + 1, y, seen)
    else
      var R := Region(b, (x, y));
      var rest := Territory(b, x + 1, y, seen + R);
      var c := Credit(BorderColours(b, R), |R|);
      (rest.0 + c.0, rest.1 + c.1)
  }

  /** The stones of colour v among the cells with index below n. */
  function CountBelow(b: Board, v: Stone, n: nat): nat
    requires n <= 81
  {
    if n == 0 then 0 else CountBelow(b, v, n - 1) + (if b[n - 1] == v then 1 else 0)
  }

  /** No more stones of two colours than cells. */
  lemma {:induction false} CountsBounded(b: Board, n: nat)
    requires n <= 81
    ensures CountBelow(b, 1, n) + CountBelow(b, 2, n) + CountBelow(b, 0, n) <= n
  {
    if n > 0 {
      CountsBounded(b, n - 1);
    }
  }

  /** `area_score` as a value: stones plus territory, for black and for white. */
  function AreaOf(b: Board): (nat, nat)
  {
    var t := Territory(b, 0, 0, {});
    (CountBelow(b, 1, 81) + t.0, CountBelow(b, 2, 81) + t.1)
  }

  /** One row of the territory scan. */
  method RowTerritory(b: Board, y: nat, seen0: set<Point>, bt0: nat, wt0: nat) returns (seen: set<Point>, bt: nat, wt: nat)
    requires y < 9 && Closed(b, 0, seen0)
    ensures Closed(b, 0, seen)
    ensures bt + Territory(b, 0, y + 1, seen).0 == bt0 + Territory(b, 0, y, seen0).0
    ensures wt + Territory(b, 0, y + 1, seen).1 == wt0 + Territory(b, 0, y, seen0).1
  {
    seen, bt, wt := seen0, bt0, wt0;
    for x := 0 to 9
      invariant Closed(b, 0, seen)
      invariant bt + Territory(b, x, y, seen).0 == bt0 + Territory(b, 0, y, seen0).0
      invariant wt + Territory(b, x, y, seen).1 == wt0 + Territory(b, 0, y, seen0).1
    {
      if b[Idx(x, y)] != 0 || (x, y) in seen {
        continue;
      }
      ghost var before := seen;
      var size, borders;
      seen, size, borders := FloodRegion(b, x, y, seen);
      RegionProps(b, (x, y));
      ClosedUnion(b, before, Region(b, (x, y)));
      if |borders| == 1 {
        if 1 in borders {
          bt := bt + size;
        } else if 2 in borders {
          wt := wt + size;
        }
      }
    }
  }

  /** The union of two sets closed among empty points is closed. */
  lemma {:induction false} ClosedUnion(b: Board, A: set<Point>, B: set<Point>)
    requires Closed(b, 0, A) && Closed(b, 0, B)
    ensures Closed(b, 0, A + B)
  {
  }

  /** The stones of each colour, by a scan of the cells. */
  method CountStones(b: Board) returns (bStones: nat, wStones: nat)
    ensures bStones == CountBelow(b, 1, 81) && wStones == CountBelow(b, 2, 81)
  {
    bStones, wStones := 0, 0;
    for i := 0 to 81
      invariant bStones == CountBelow(b, 1, i) && wStones == CountBelow(b, 2, i)
    {
      if b[i] == 1 {
        bStones := bStones + 1;
      } else if b[i] == 2 {
        wStones := wStones + 1;
      }
    }
  }

  /** The territory of each colour, by flood-filling every unseen empty point row by row. */
  method ScanTerritory(b: Board) returns (bt: nat, wt: nat)
    ensures bt == Territory(b, 0, 0, {}).0 && wt == Territory(b, 0, 0, {}).1
  {
    var seen: set<Point> := {};
    bt, wt := 0, 0;
    var y := 0;
    while y < 9
      invariant y <= 9 && Closed(b, 0, seen)
      invariant bt + Territory(b, 0, y, seen).0 == Territory(b, 0, 0, {}).0
      invariant wt + Territory(b, 0, y, seen).1 == Territory(b, 0, 0, {}).1
    {
      seen, bt, wt := RowTerritory(b, y, seen, bt, wt);
      y := y + 1;
    }
    TerritoryDone(b, seen);
  }

  /** Past the last row nothing is left to credit. */
  lemma {:induction false} TerritoryDone(b: Board, seen: set<Point>)
    ensures Territory(b, 0, 9, seen) == (0, 0)
  {
  }

  /** `area_score`: stones plus territory, for black and for white. */
  method AreaScore(b: Board) returns (black: nat, white: nat)
    ensures black == AreaOf(b).0 && white == AreaOf(b).1
  {
    var bStones, wStones := CountStones(b);
    var bt, wt := ScanTerritory(b);
    black, white := bStones + bt, wStones + wt;
  }

  /** `evaluate` as a value: 0 until the game is over, then black's area minus white's and komi, over 81. */
  function Evaluation(s: State): real
  {
    if !IsOver(s) then 0.0
    else
      var (black, white) := AreaOf(s.board);
      (black as real - (white as real + KOMI)) / 81.0
  }

  /** `evaluate`. */
  method Evaluate(s: State) returns (v: real)
    ensures v == Evaluation(s)
  {
    if !IsOver(s) {
      return 0.0;
    }
    var black, white := AreaScore(s.board);
    var diff := black as real - (white as real + KOMI);
    v := diff / 81.0;
  }

  /** Before the game is over the value is 0; after, it rises with black's area and falls with white's. */
  lemma {:induction false} EvaluationShape(s: State)
    ensures !IsOver(s) ==> Evaluation(s) == 0.0
    ensures IsOver(s) ==> Evaluation(s) * 81.0 == AreaOf(s.board).0 as real - AreaOf(s.board).1 as real - KOMI
  {
  }
}
