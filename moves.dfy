/**
 * Pseudo-legal move generation, the attack detector, the in-place
 * legality filter and the castling path check (src/moves.rs).
 */
module Moves {
  import opened Wrappers
  import opened Board

  const KnightMoves: seq<(int, int)> := [(2, 1), (-2, 1), (2, -1), (-2, -1), (1, 2), (-1, 2), (1, -2), (-1, -2)]
  const BishopDirections: seq<(int, int)> := [(1, 1), (-1, 1), (1, -1), (-1, -1)]
  const RookDirections: seq<(int, int)> := [(1, 0), (-1, 0), (0, 1), (0, -1)]
  const KingMoves: seq<(int, int)> := [(1, 0), (-1, 0), (0, 1), (0, -1), (1, 1), (-1, 1), (1, -1), (-1, -1)]

  predicate OnBoard(r: int, c: int) {
    0 <= r < 8 && 0 <= c < 8
  }

  /** The square at (r, c) holds a piece of `side`. */
  predicate Friendly(g: Grid, r: int, c: int, side: Side)
    requires OnBoard(r, c)
  {
    At(g, r, c).Full? && At(g, r, c).piece.side == side
  }

  // ---------------------------------------------------------------------
  // Knight and king: fixed offsets
  // ---------------------------------------------------------------------

  /** The destination one offset gives: on the board and not friendly, or nothing. */
  function OffsetStep(side: Side, row: nat, col: nat, g: Grid, d: (int, int)): seq<Point> {
    var r, c := row + d.0, col + d.1;
    if OnBoard(r, c) && !Friendly(g, r, c, side) then [Point(r, c)] else []
  }

  /** The destinations of the offsets `ds`, in order. */
  function OffsetTargets(side: Side, row: nat, col: nat, g: Grid, ds: seq<(int, int)>): (ts: seq<Point>)
    ensures |ts| <= |ds|
    decreases |ds|
  {
    if ds == [] then []
    else OffsetTargets(side, row, col, g, ds[..|ds| - 1]) + OffsetStep(side, row, col, g, ds[|ds| - 1])
  }

  /** Some offset of `ds` leads from (row, col) to `p`. */
  predicate OffsetLeadsTo(row: nat, col: nat, ds: seq<(int, int)>, p: Point) {
    exists j :: 0 <= j < |ds| && p.row == row + ds[j].0 && p.col == col + ds[j].1
  }

  /** An offset of `ds` leads to `p` when one of its front part or its last one does. */
  lemma OffsetLeadsToSplit(row: nat, col: nat, ds: seq<(int, int)>, p: Point)
    requires ds != []
    ensures OffsetLeadsTo(row, col, ds, p) <==>
      OffsetLeadsTo(row, col, ds[..|ds| - 1], p) || (p.row == row + ds[|ds| - 1].0 && p.col == col + ds[|ds| - 1].1)
  {
    var front := ds[..|ds| - 1];
    if OffsetLeadsTo(row, col, ds, p) {
      var j :| 0 <= j < |ds| && p.row == row + ds[j].0 && p.col == col + ds[j].1;
      if j < |front| {
        assert front[j] == ds[j];
      }
    }
    if OffsetLeadsTo(row, col, front, p) {
      var j :| 0 <= j < |front| && p.row == row + front[j].0 && p.col == col + front[j].1;
      assert ds[j] == front[j];
    }
  }

  /**
   * A point is an offset destination exactly when some offset leads to it
   * from the origin, it is on the board and it holds no friendly piece.
   */
  lemma {:induction false} OffsetTargetsExact(side: Side, row: nat, col: nat, g: Grid, ds: seq<(int, int)>, p: Point)
    ensures p in OffsetTargets(side, row, col, g, ds) <==>
      OffsetLeadsTo(row, col, ds, p) && InBounds(p) && !Friendly(g, p.row, p.col, side)
    decreases |ds|
  {
    if ds != [] {
      var front := ds[..|ds| - 1];
      OffsetTargetsExact(side, row, col, g, front, p);
      OffsetLeadsToSplit(row, col, ds, p);
      assert OffsetTargets(side, row, col, g, ds)
          == OffsetTargets(side, row, col, g, front) + OffsetStep(side, row, col, g, ds[|ds| - 1]);
    }
  }

  /** The moves of `offsets` from (row, col), pushed in order, as the two offset generators do. */
  method OffsetMoves(side: Side, row: nat, col: nat, board: array<Square>, offsets: seq<(int, int)>)
    returns (moves: seq<Point>)
    requires board.Length == 64
    ensures moves == OffsetTargets(side, row, col, board[..], offsets)
  {
    ghost var g: Grid := board[..];
    moves := [];
    for i := 0 to |offsets|
      invariant moves == OffsetTargets(side, row, col, g, offsets[..i])
    {
      var dir := offsets[i];
      ghost var before := moves;
      var square := (row + dir.0, col + dir.1);
      if square.0 >= 0 && square.0 < 8 && square.1 >= 0 && square.1 < 8 {
        var mov := Point(square.0, square.1);
        assert board[mov.row * 8 + mov.col] == At(g, square.0, square.1);
        match board[mov.row * 8 + mov.col]
        case Full(piece) =>
          if piece.side != side {
            moves := moves + [mov];
          }
        case Empty =>
          moves := moves + [mov];
      }
      assert moves == before + OffsetStep(side, row, col, g, dir);
      assert offsets[..i + 1][..i] == offsets[..i];
    }
    assert offsets[..|offsets|] == offsets;
  }

  /** `get_knight_moves`. */
  method GetKnightMoves(side: Side, row: nat, col: nat, board: array<Square>) returns (moves: seq<Point>)
    requires board.Length == 64
    ensures moves == OffsetTargets(side, row, col, board[..], KnightMoves)
    ensures forall p :: p in moves <==>
      OffsetLeadsTo(row, col, KnightMoves, p) && InBounds(p) && !Friendly(board[..], p.row, p.col, side)
  {
    moves := OffsetMoves(side, row, col, board, KnightMoves);
    forall p: Point {
      OffsetTargetsExact(side, row, col, board[..], KnightMoves, p);
    }
  }

  /** `get_king_moves`. */
  method GetKingMoves(side: Side, row: nat, col: nat, board: array<Square>) returns (moves: seq<Point>)
    requires board.Length == 64
    ensures moves == OffsetTargets(side, row, col, board[..], KingMoves)
    ensures forall p :: p in moves <==>
      OffsetLeadsTo(row, col, KingMoves, p) && InBounds(p) && !Friendly(board[..], p.row, p.col, side)
  {
    moves := OffsetMoves(side, row, col, board, KingMoves);
    forall p: Point {
      OffsetTargetsExact(side, row, col, board[..], KingMoves, p);
    }
  }

  // ---------------------------------------------------------------------
  // Bishop, rook and queen: rays
  // ---------------------------------------------------------------------

  predicate IsDirection(d: (int, int)) {
    -1 <= d.0 <= 1 && -1 <= d.1 <= 1 && d != (0, 0)
  }

  predicate AllDirections(ds: seq<(int, int)>) {
    forall i :: 0 <= i < |ds| ==> IsDirection(ds[i])
  }

  /** An upper bound on the squares left on the board along `d` from (r, c). */
  function RayBound(r: int, c: int, d: (int, int)): int {
    (if d.0 == 1 then 8 - r else if d.0 == -1 then r + 1 else 0)
    + (if d.1 == 1 then 8 - c else if d.1 == -1 then c + 1 else 0)
  }

  /** A step along a direction uses up part of the bound. */
  lemma RayBoundStep(r: int, c: int, d: (int, int))
    requires OnBoard(r, c) && IsDirection(d)
    ensures 0 < RayBound(r, c, d)
    ensures OnBoard(r + d.0, c + d.1) ==> 0 <= RayBound(r + d.0, c + d.1, d) < RayBound(r, c, d)
  {
  }

  /**
   * The destinations along one ray that starts at (r, c): empty squares
   * are taken and the ray goes on; the first piece stops it and is taken
   * only when it is an enemy; the edge of the board stops it.
   */
  function RayFrom(side: Side, r: int, c: int, d: (int, int), g: Grid): (ray: seq<Point>)
    requires IsDirection(d)
    decreases if OnBoard(r, c) then RayBound(r, c, d) else 0
  {
    if !OnBoard(r, c) then []
    else match At(g, r, c)
      case Full(piece) => if piece.side != side then [Point(r, c)] else []
      case Empty => [Point(r, c)] + RayFrom(side, r + d.0, c + d.1, d, g)
  }

  /** Every ray destination is on the board and holds no piece of the moving side. */
  lemma {:induction false} RayFromNotFriendly(side: Side, r: int, c: int, d: (int, int), g: Grid)
    requires IsDirection(d)
    ensures forall p :: p in RayFrom(side, r, c, d, g) ==> InBounds(p) && !Friendly(g, p.row, p.col, side)
    decreases if OnBoard(r, c) then RayBound(r, c, d) else 0
  {
    if OnBoard(r, c) && At(g, r, c) == Empty {
      RayFromNotFriendly(side, r + d.0, c + d.1, d, g);
    }
  }

  /** The square `k` steps of `d` away from (r, c). */
  function Along(r: int, c: int, d: (int, int), k: nat): (int, int) {
    (r + k * d.0, c + k * d.1)
  }

  /** One step first, then `k` more, is `k + 1` steps. */
  lemma AlongStep(r: int, c: int, d: (int, int), k: nat)
    ensures Along(r + d.0, c + d.1, d, k) == Along(r, c, d, k + 1)
  {
    assert (k + 1) * d.0 == k * d.0 + d.0;
    assert (k + 1) * d.1 == k * d.1 + d.1;
  }

  /**
   * `ray` lists the squares 0, 1, 2, ... steps of `d` from (r, c), all on
   * the board; every square before its last one is empty.
   */
  predicate StepsAlong(g: Grid, r: int, c: int, d: (int, int), ray: seq<Point>) {
    forall k: nat :: k < |ray| ==>
      && (ray[k].row, ray[k].col) == Along(r, c, d, k)
      && InBounds(ray[k])
      && (k < |ray| - 1 ==> At(g, ray[k].row, ray[k].col) == Empty)
  }

  /** An empty square in front of a ray that starts one step further on. */
  lemma StepsAlongCons(g: Grid, r: int, c: int, d: (int, int), rest: seq<Point>)
    requires OnBoard(r, c) && At(g, r, c) == Empty
    requires StepsAlong(g, r + d.0, c + d.1, d, rest)
    ensures StepsAlong(g, r, c, d, [Point(r, c)] + rest)
  {
    var ray := [Point(r, c)] + rest;
    forall k: nat | k < |ray|
      ensures (ray[k].row, ray[k].col) == Along(r, c, d, k) && InBounds(ray[k])
      ensures k < |ray| - 1 ==> At(g, ray[k].row, ray[k].col) == Empty
    {
      if k > 0 {
        assert ray[k] == rest[k - 1];
        AlongStep(r, c, d, k - 1);
      }
    }
  }

  /**
   * A ray starts at (r, c) and goes on in steps of `d`; every square
   * before its last one is empty.
   */
  lemma {:induction false} RayFromSteps(side: Side, r: int, c: int, d: (int, int), g: Grid)
    requires IsDirection(d)
    ensures StepsAlong(g, r, c, d, RayFrom(side, r, c, d, g))
    decreases if OnBoard(r, c) then RayBound(r, c, d) else 0
  {
    if OnBoard(r, c) {
      RayBoundStep(r, c, d);
      if At(g, r, c) == Empty {
        RayFromSteps(side, r + d.0, c + d.1, d, g);
        StepsAlongCons(g, r, c, d, RayFrom(side, r + d.0, c + d.1, d, g));
      } else {
        assert RayFrom(side, r, c, d, g) == [] || RayFrom(side, r, c, d, g) == [Point(r, c)];
      }
    }
  }

  /** The square (r, c) cannot extend a ray: it is off the board or holds a friendly piece. */
  predicate Blocked(side: Side, g: Grid, r: int, c: int) {
    !OnBoard(r, c) || Friendly(g, r, c, side)
  }

  /** A ray is empty only when its first square is off the board or friendly. */
  lemma RayFromEmpty(side: Side, r: int, c: int, d: (int, int), g: Grid)
    requires IsDirection(d)
    ensures |RayFrom(side, r, c, d, g)| == 0 ==> Blocked(side, g, r, c)
  {
  }

  /** When the last square of `ray` is empty, the square after it along `d` is blocked. */
  predicate EndsBlocked(side: Side, g: Grid, d: (int, int), ray: seq<Point>) {
    |ray| > 0 ==> var last := ray[|ray| - 1];
      InBounds(last) && At(g, last.row, last.col) == Empty ==> Blocked(side, g, last.row + d.0, last.col + d.1)
  }

  /** Putting a square in front of a non-empty ray keeps its last square. */
  lemma EndsBlockedCons(side: Side, g: Grid, d: (int, int), p: Point, rest: seq<Point>)
    requires |rest| > 0 && EndsBlocked(side, g, d, rest)
    ensures EndsBlocked(side, g, d, [p] + rest)
  {
    assert ([p] + rest)[|rest|] == rest[|rest| - 1];
  }

  /**
   * A ray stops only where it must: when its last square is empty the
   * square after that one is blocked (otherwise the last square holds the
   * enemy piece that stopped it).
   */
  lemma {:induction false} RayFromStops(side: Side, r: int, c: int, d: (int, int), g: Grid)
    requires IsDirection(d)
    ensures EndsBlocked(side, g, d, RayFrom(side, r, c, d, g))
    decreases if OnBoard(r, c) then RayBound(r, c, d) else 0
  {
    if OnBoard(r, c) {
      RayBoundStep(r, c, d);
      var rest := RayFrom(side, r + d.0, c + d.1, d, g);
      if At(g, r, c) == Empty {
        assert RayFrom(side, r, c, d, g) == [Point(r, c)] + rest;
        if |rest| > 0 {
          RayFromStops(side, r + d.0, c + d.1, d, g);
          EndsBlockedCons(side, g, d, Point(r, c), rest);
        } else {
          RayFromEmpty(side, r + d.0, c + d.1, d, g);
          assert [Point(r, c)] + rest == [Point(r, c)];
        }
      } else {
        assert RayFrom(side, r, c, d, g) == [] || RayFrom(side, r, c, d, g) == [Point(r, c)];
      }
    }
  }

  /** The ray destinations of the directions `ds` from (row, col), direction after direction. */
  function DirTargets(side: Side, row: nat, col: nat, g: Grid, ds: seq<(int, int)>): (ts: seq<Point>)
    requires AllDirections(ds)
    decreases |ds|
  {
    if ds == [] then []
    else
      var d := ds[|ds| - 1];
      DirTargets(side, row, col, g, ds[..|ds| - 1]) + RayFrom(side, row + d.0, col + d.1, d, g)
  }

  lemma ConcatAssoc<T>(a: seq<T>, b: seq<T>, c: seq<T>)
    ensures (a + b) + c == a + (b + c)
  {
  }

  lemma DropLastAppend<T>(a: seq<T>, b: seq<T>)
    requires b != []
    ensures (a + b)[..|a + b| - 1] == a + b[..|b| - 1]
    ensures (a + b)[|a + b| - 1] == b[|b| - 1]
  {
  }

  /** Concatenated direction lists are direction lists. */
  lemma AllDirectionsAppend(ds1: seq<(int, int)>, ds2: seq<(int, int)>)
    requires AllDirections(ds1) && AllDirections(ds2)
    ensures AllDirections(ds1 + ds2)
  {
    var ds := ds1 + ds2;
    forall i | 0 <= i < |ds| ensures IsDirection(ds[i]) {
      if i >= |ds1| {
        assert ds[i] == ds2[i - |ds1|];
      }
    }
  }

  /** Ray destinations of two direction lists, one after the other. */
  lemma {:induction false} DirTargetsAppend(side: Side, row: nat, col: nat, g: Grid, ds1: seq<(int, int)>, ds2: seq<(int, int)>)
    requires AllDirections(ds1) && AllDirections(ds2)
    ensures AllDirections(ds1 + ds2)
    ensures DirTargets(side, row, col, g, ds1 + ds2)
         == DirTargets(side, row, col, g, ds1) + DirTargets(side, row, col, g, ds2)
    decreases |ds2|
  {
    AllDirectionsAppend(ds1, ds2);
    if ds2 != [] {
      var front := ds2[..|ds2| - 1];
      DirTargetsAppend(side, row, col, g, ds1, front);
      DirTargetsAppendStep(side, row, col, g, ds1, ds2);
    } else {
      assert ds1 + ds2 == ds1;
    }
  }

  /** The step of `DirTargetsAppend`: from all of `ds2` but its last direction to all of it. */
  lemma DirTargetsAppendStep(side: Side, row: nat, col: nat, g: Grid, ds1: seq<(int, int)>, ds2: seq<(int, int)>)
    requires AllDirections(ds1) && AllDirections(ds2) && AllDirections(ds1 + ds2) && ds2 != []
    requires AllDirections(ds2[..|ds2| - 1]) && AllDirections(ds1 + ds2[..|ds2| - 1])
    requires DirTargets(side, row, col, g, ds1 + ds2[..|ds2| - 1])
          == DirTargets(side, row, col, g, ds1) + DirTargets(side, row, col, g, ds2[..|ds2| - 1])
    ensures DirTargets(side, row, col, g, ds1 + ds2)
         == DirTargets(side, row, col, g, ds1) + DirTargets(side, row, col, g, ds2)
  {
    var ds := ds1 + ds2;
    var front, d := ds2[..|ds2| - 1], ds2[|ds2| - 1];
    DropLastAppend(ds1, ds2);
    DirTargetsLast(side, row, col, g, ds);
    DirTargetsLast(side, row, col, g, ds2);
    ConcatAssoc(DirTargets(side, row, col, g, ds1), DirTargets(side, row, col, g, front),
      RayFrom(side, row + d.0, col + d.1, d, g));
  }

  /** The last direction's ray is the tail of the slider destinations. */
  lemma DirTargetsLast(side: Side, row: nat, col: nat, g: Grid, ds: seq<(int, int)>)
    requires AllDirections(ds) && ds != []
    ensures var d := ds[|ds| - 1];
      DirTargets(side, row, col, g, ds)
      == DirTargets(side, row, col, g, ds[..|ds| - 1]) + RayFrom(side, row + d.0, col + d.1, d, g)
  {
  }

  /** No slider destination holds a piece of the moving side. */
  lemma {:induction false} DirTargetsNotFriendly(side: Side, row: nat, col: nat, g: Grid, ds: seq<(int, int)>)
    requires AllDirections(ds)
    ensures forall p :: p in DirTargets(side, row, col, g, ds) ==> InBounds(p) && !Friendly(g, p.row, p.col, side)
    decreases |ds|
  {
    if ds != [] {
      var d := ds[|ds| - 1];
      DirTargetsNotFriendly(side, row, col, g, ds[..|ds| - 1]);
      RayFromNotFriendly(side, row + d.0, col + d.1, d, g);
    }
  }

  /** One step of `RayFrom` on the board: the square decides. */
  lemma RayFromUnfold(side: Side, r: int, c: int, d: (int, int), g: Grid)
    requires IsDirection(d) && OnBoard(r, c)
    ensures At(g, r, c).Full? ==>
      RayFrom(side, r, c, d, g) == if At(g, r, c).piece.side != side then [Point(r, c)] else []
    ensures At(g, r, c).Empty? ==>
      RayFrom(side, r, c, d, g) == [Point(r, c)] + RayFrom(side, r + d.0, c + d.1, d, g)
  {
  }

  /** One ray of a slider generator: the `while` loop that walks from (r, c) in steps of `dir`. */
  method ScanRay(side: Side, r: int, c: int, dir: (int, int), board: array<Square>) returns (ray: seq<Point>)
    requires board.Length == 64
    requires IsDirection(dir)
    ensures ray == RayFrom(side, r, c, dir, board[..])
  {
    ghost var g: Grid := board[..];
    ray := [];
    var square := (r, c);
    while square.0 >= 0 && square.0 < 8 && square.1 >= 0 && square.1 < 8
      invariant ray + RayFrom(side, square.0, square.1, dir, g) == RayFrom(side, r, c, dir, g)
      decreases if OnBoard(square.0, square.1) then RayBound(square.0, square.1, dir) else 0
    {
      var mov := Point(square.0, square.1);
      assert board[mov.row * 8 + mov.col] == At(g, square.0, square.1);
      RayFromUnfold(side, square.0, square.1, dir, g);
      match board[mov.row * 8 + mov.col] {
        case Full(piece) =>
          if piece.side != side {
            ray := ray + [mov];
          }
          return;
        case Empty =>
      }
      ConcatAssoc(ray, [mov], RayFrom(side, square.0 + dir.0, square.1 + dir.1, dir, g));
      RayBoundStep(square.0, square.1, dir);
      ray := ray + [mov];
      square := (square.0 + dir.0, square.1 + dir.1);
    }
    assert RayFrom(side, square.0, square.1, dir, g) == [];
  }

  /** The moves along the rays `dirs`, pushed in order, as the three slider generators do. */
  method RayMoves(side: Side, row: nat, col: nat, board: array<Square>, dirs: seq<(int, int)>)
    returns (moves: seq<Point>)
    requires board.Length == 64
    requires AllDirections(dirs)
    ensures moves == DirTargets(side, row, col, board[..], dirs)
  {
    moves := [];
    for i := 0 to |dirs|
      invariant moves == DirTargets(side, row, col, board[..], dirs[..i])
    {
      var dir := dirs[i];
      var ray := ScanRay(side, row + dir.0, col + dir.1, dir, board);
      moves := moves + ray;
      assert dirs[..i + 1][..i] == dirs[..i];
    }
    assert dirs[..|dirs|] == dirs;
  }

  /** `get_bishop_moves`. */
  method GetBishopMoves(side: Side, row: nat, col: nat, board: array<Square>) returns (moves: seq<Point>)
    requires board.Length == 64
    ensures moves == DirTargets(side, row, col, board[..], BishopDirections)
    ensures forall p :: p in moves ==> InBounds(p) && !Friendly(board[..], p.row, p.col, side)
  {
    moves := RayMoves(side, row, col, board, BishopDirections);
    DirTargetsNotFriendly(side, row, col, board[..], BishopDirections);
  }

  /** `get_rook_moves`. */
  method GetRookMoves(side: Side, row: nat, col: nat, board: array<Square>) returns (moves: seq<Point>)
    requires board.Length == 64
    ensures moves == DirTargets(side, row, col, board[..], RookDirections)
    ensures forall p :: p in moves ==> InBounds(p) && !Friendly(board[..], p.row, p.col, side)
  {
    moves := RayMoves(side, row, col, board, RookDirections);
    DirTargetsNotFriendly(side, row, col, board[..], RookDirections);
  }

  /** `get_queen_moves`: the bishop directions chained with the rook directions. */
  method GetQueenMoves(side: Side, row: nat, col: nat, board: array<Square>) returns (moves: seq<Point>)
    requires board.Length == 64
    ensures moves == DirTargets(side, row, col, board[..], BishopDirections + RookDirections)
    ensures moves == DirTargets(side, row, col, board[..], BishopDirections)
                   + DirTargets(side, row, col, board[..], RookDirections)
    ensures forall p :: p in moves ==> InBounds(p) && !Friendly(board[..], p.row, p.col, side)
  {
    DirTargetsAppend(side, row, col, board[..], BishopDirections, RookDirections);
    moves := RayMoves(side, row, col, board, BishopDirections + RookDirections);
    DirTargetsNotFriendly(side, row, col, board[..], BishopDirections + RookDirections);
  }

  // ---------------------------------------------------------------------
  // No generator lists a destination twice
  // ---------------------------------------------------------------------

  predicate NoDup<T(==)>(xs: seq<T>) {
    forall i, j :: 0 <= i < j < |xs| ==> xs[i] != xs[j]
  }

  /** Two duplicate-free lists with nothing in common join into a duplicate-free list. */
  lemma NoDupAppend<T>(a: seq<T>, b: seq<T>)
    requires NoDup(a) && NoDup(b)
    requires forall x :: x in a ==> x !in b
    ensures NoDup(a + b)
  {
    forall i, j | 0 <= i < j < |a + b| ensures (a + b)[i] != (a + b)[j] {
      if i < |a| && j >= |a| {
        assert (a + b)[i] in a && (a + b)[j] == b[j - |a|];
      }
    }
  }

  /** A duplicate-free list holding `x` and nothing else is `[x]`. */
  lemma NoDupSingle<T>(xs: seq<T>, x: T)
    requires NoDup(xs) && x in xs
    requires forall k :: 0 <= k < |xs| ==> xs[k] == x
    ensures xs == [x]
  {
    NoDupFirstTwo(xs);
  }

  lemma NoDupFirstTwo<T>(xs: seq<T>)
    requires NoDup(xs)
    ensures |xs| < 2 || xs[0] != xs[1]
  {
  }

  /** Distinct offsets give distinct destinations. */
  lemma {:induction false} OffsetTargetsNoDup(side: Side, row: nat, col: nat, g: Grid, ds: seq<(int, int)>)
    requires NoDup(ds)
    ensures NoDup(OffsetTargets(side, row, col, g, ds))
    decreases |ds|
  {
    if ds != [] {
      var front, d := ds[..|ds| - 1], ds[|ds| - 1];
      OffsetTargetsNoDup(side, row, col, g, front);
      var step := OffsetStep(side, row, col, g, d);
      forall p | p in OffsetTargets(side, row, col, g, front) ensures p !in step {
        OffsetTargetsExact(side, row, col, g, front, p);
      }
      NoDupAppend(OffsetTargets(side, row, col, g, front), step);
    }
  }

  function Sign(x: int): int {
    if x > 0 then 1 else if x < 0 then -1 else 0
  }

  /** The direction in which `p` lies from (r, c), for squares on a line through it. */
  function Heading(r: int, c: int, p: Point): (int, int) {
    (Sign(p.row - r), Sign(p.col - c))
  }

  /** Every square of the ray that starts at (r, c) lies along `d` from the square before (r, c). */
  lemma {:induction false} RayFromHeading(side: Side, r: int, c: int, d: (int, int), g: Grid)
    requires IsDirection(d)
    ensures forall p :: p in RayFrom(side, r, c, d, g) ==> Heading(r - d.0, c - d.1, p) == d
    decreases if OnBoard(r, c) then RayBound(r, c, d) else 0
  {
    if OnBoard(r, c) {
      RayBoundStep(r, c, d);
      RayFromUnfold(side, r, c, d, g);
      if At(g, r, c).Empty? {
        RayFromHeading(side, r + d.0, c + d.1, d, g);
      }
    }
  }

  /** A ray never visits a square twice. */
  lemma {:induction false} RayFromNoDup(side: Side, r: int, c: int, d: (int, int), g: Grid)
    requires IsDirection(d)
    ensures NoDup(RayFrom(side, r, c, d, g))
    decreases if OnBoard(r, c) then RayBound(r, c, d) else 0
  {
    if OnBoard(r, c) {
      RayBoundStep(r, c, d);
      RayFromUnfold(side, r, c, d, g);
      if At(g, r, c).Empty? {
        var rest := RayFrom(side, r + d.0, c + d.1, d, g);
        RayFromNoDup(side, r + d.0, c + d.1, d, g);
        RayFromHeading(side, r + d.0, c + d.1, d, g);
        assert Heading(r, c, Point(r, c)) != d;
        NoDupAppend([Point(r, c)], rest);
      }
    }
  }

  /** Every slider destination lies along one of the directions. */
  lemma {:induction false} DirTargetsHeading(side: Side, row: nat, col: nat, g: Grid, ds: seq<(int, int)>)
    requires AllDirections(ds)
    ensures forall p :: p in DirTargets(side, row, col, g, ds) ==> Heading(row, col, p) in ds
    decreases |ds|
  {
    if ds != [] {
      var front, d := ds[..|ds| - 1], ds[|ds| - 1];
      DirTargetsHeading(side, row, col, g, front);
      DirTargetsLast(side, row, col, g, ds);
      RayFromHeading(side, row + d.0, col + d.1, d, g);
      forall p | p in DirTargets(side, row, col, g, ds) ensures Heading(row, col, p) in ds {
        if p in DirTargets(side, row, col, g, front) {
          var j :| 0 <= j < |front| && front[j] == Heading(row, col, p);
          assert ds[j] == front[j];
        }
      }
    }
  }

  /** Distinct directions give distinct slider destinations. */
  lemma {:induction false} DirTargetsNoDup(side: Side, row: nat, col: nat, g: Grid, ds: seq<(int, int)>)
    requires AllDirections(ds) && NoDup(ds)
    ensures NoDup(DirTargets(side, row, col, g, ds))
    decreases |ds|
  {
    if ds != [] {
      var front, d := ds[..|ds| - 1], ds[|ds| - 1];
      var ray := RayFrom(side, row + d.0, col + d.1, d, g);
      DirTargetsNoDup(side, row, col, g, front);
      DirTargetsHeading(side, row, col, g, front);
      DirTargetsLast(side, row, col, g, ds);
      RayFromNoDup(side, row + d.0, col + d.1, d, g);
      RayFromHeading(side, row + d.0, col + d.1, d, g);
      assert forall p :: p in DirTargets(side, row, col, g, front) ==> p !in ray;
      NoDupAppend(DirTargets(side, row, col, g, front), ray);
    }
  }

  /** The offset and direction tables have no repeated entry. */
  lemma TablesNoDup()
    ensures NoDup(KnightMoves) && NoDup(KingMoves)
    ensures NoDup(BishopDirections) && NoDup(RookDirections) && NoDup(BishopDirections + RookDirections)
    ensures AllDirections(BishopDirections) && AllDirections(RookDirections)
  {
  }

  // ---------------------------------------------------------------------
  // Pawn
  // ---------------------------------------------------------------------

  /**
   * Every square `get_pawn_moves` indexes is on the board (Rust would
   * panic otherwise). White reads row + 1 and Black row - 1; the en passant
   * branches read further squares depending on what they find.
   */
  predicate PawnReadsOnBoard(side: Side, row: nat, col: nat, g: Grid, pawnDoubleMoved: Option<Point>) {
    && row < 8 && col < 8
    && (side == White ==> row <= 6)
    && (side == Black ==> row >= 1)
    && (pawnDoubleMoved.Some? && row == pawnDoubleMoved.value.row ==>
         var point := pawnDoubleMoved.value;
         && (col == point.col + 1 ==>
               (side == White && At(g, row + 1, col - 1) == Empty) || row >= 1)
         && (col + 1 == point.col ==>
               && (side == White ==> col + 1 < 8)
               && ((side == White && At(g, row + 1, col + 1) == Empty) || (row <= 6 && col >= 1))))
  }

  /** The square holds a piece of `side`. */
  predicate HoldsSide(s: Square, side: Side) {
    s.Full? && s.piece.side == side
  }

  /** The forward pushes of `get_pawn_moves`: one square, then two from the start rank. */
  function PawnPushes(side: Side, row: nat, col: nat, g: Grid): (moves: seq<Point>)
    requires row < 8 && col < 8 && (side == White ==> row <= 6) && (side == Black ==> row >= 1)
    ensures forall k :: 0 <= k < |moves| ==> InBounds(moves[k])
  {
    if side == White then
      if At(g, row + 1, col) == Empty then
        [Point(row + 1, col)] + (if row == 1 && At(g, row + 2, col) == Empty then [Point(row + 2, col)] else [])
      else []
    else
      if At(g, row - 1, col) == Empty then
        [Point(row - 1, col)] + (if row == 6 && At(g, row - 2, col) == Empty then [Point(row - 2, col)] else [])
      else []
  }

  /** The diagonal captures of `get_pawn_moves`, towards column - 1 then column + 1. */
  function PawnCaptures(side: Side, row: nat, col: nat, g: Grid): (moves: seq<Point>)
    requires row < 8 && col < 8 && (side == White ==> row <= 6) && (side == Black ==> row >= 1)
    ensures forall k :: 0 <= k < |moves| ==> InBounds(moves[k])
  {
    var left :=
      if col > 0 then
        if side == White then
          (if HoldsSide(At(g, row + 1, col - 1), Black) then [Point(row + 1, col - 1)] else [])
        else
          (if HoldsSide(At(g, row - 1, col - 1), White) then [Point(row - 1, col - 1)] else [])
      else [];
    var right :=
      if col < 7 then
        if side == White then
          (if HoldsSide(At(g, row + 1, col + 1), Black) then [Point(row + 1, col + 1)] else [])
        else
          (if HoldsSide(At(g, row - 1, col + 1), White) then [Point(row - 1, col + 1)] else [])
      else [];
    left + right
  }

  /**
   * The en passant branch of `get_pawn_moves`, as written: the two
   * neighbour cases are not mirror images of each other.
   */
  function PawnEnPassant(side: Side, row: nat, col: nat, g: Grid, pawnDoubleMoved: Option<Point>): (moves: seq<Point>)
    requires PawnReadsOnBoard(side, row, col, g, pawnDoubleMoved)
    ensures forall k :: 0 <= k < |moves| ==> InBounds(moves[k])
    ensures pawnDoubleMoved.None? ==> moves == []
  {
    match pawnDoubleMoved
    case None => []
    case Some(point) =>
      if row != point.row then []
      else if col == point.col + 1 then
        if side == White && At(g, row + 1, col - 1) == Empty then [Point(row + 1, col - 1)]
        else if At(g, row - 1, col - 1) == Empty then [Point(row - 1, col - 1)]
        else []
      else if col + 1 == point.col then
        if side == White && At(g, row + 1, col + 1) == Empty then [Point(row + 1, col + 1)]
        else if At(g, row + 1, col - 1) == Empty then [Point(row + 1, col - 1)]
        else []
      else []
  }

  /** `get_pawn_moves`: forward pushes, diagonal captures, then the en passant branch. */
  function PawnMoves(side: Side, row: nat, col: nat, g: Grid, pawnDoubleMoved: Option<Point>): (moves: seq<Point>)
    requires PawnReadsOnBoard(side, row, col, g, pawnDoubleMoved)
    ensures forall k :: 0 <= k < |moves| ==> InBounds(moves[k])
  {
    PawnPushes(side, row, col, g) + PawnCaptures(side, row, col, g) + PawnEnPassant(side, row, col, g, pawnDoubleMoved)
  }

  /** Direction of travel of a side's pawns. */
  function Forward(side: Side): int {
    if side == White then 1 else -1
  }

  /** Row of a side's pawns before they have moved. */
  function PawnStartRow(side: Side): nat {
    if side == White then 1 else 6
  }

  /**
   * A forward push: one square forward onto an empty square, or two
   * squares forward from the start row over two empty squares.
   */
  predicate PushTarget(side: Side, row: nat, col: nat, g: Grid, p: Point)
    requires InBounds(p) && OnBoard(row + Forward(side), col)
  {
    var f := Forward(side);
    || (p.row == row + f && p.col == col && At(g, p.row, p.col) == Empty)
    || (row == PawnStartRow(side) && p.row == row + 2 * f && p.col == col
        && At(g, row + f, col) == Empty && At(g, p.row, p.col) == Empty)
  }

  /** A capture: one square diagonally forward onto a piece of the other side. */
  predicate CaptureTarget(side: Side, row: nat, col: nat, g: Grid, p: Point)
    requires InBounds(p)
  {
    p.row == row + Forward(side) && (p.col + 1 == col || p.col == col + 1)
    && HoldsSide(At(g, p.row, p.col), Opposite(side))
  }

  /**
   * Where a pawn may go when no en passant is pending, stated without
   * splitting on the side.
   */
  predicate PawnTarget(side: Side, row: nat, col: nat, g: Grid, p: Point) {
    && InBounds(p)
    && OnBoard(row + Forward(side), col)
    && (PushTarget(side, row, col, g, p) || CaptureTarget(side, row, col, g, p))
  }

  lemma PawnPushesExact(side: Side, row: nat, col: nat, g: Grid, p: Point)
    requires row < 8 && col < 8 && (side == White ==> row <= 6) && (side == Black ==> row >= 1)
    ensures p in PawnPushes(side, row, col, g) <==> InBounds(p) && PushTarget(side, row, col, g, p)
  {
    if side == White {
      assert Forward(side) == 1 && PawnStartRow(side) == 1;
    } else {
      assert Forward(side) == -1 && PawnStartRow(side) == 6;
    }
  }

  lemma PawnCapturesExact(side: Side, row: nat, col: nat, g: Grid, p: Point)
    requires row < 8 && col < 8 && (side == White ==> row <= 6) && (side == Black ==> row >= 1)
    ensures p in PawnCaptures(side, row, col, g) <==> InBounds(p) && CaptureTarget(side, row, col, g, p)
  {
    if side == White {
      assert Forward(side) == 1 && Opposite(side) == Black;
    } else {
      assert Forward(side) == -1 && Opposite(side) == White;
    }
  }

  /** With no pending en passant the pawn generator yields exactly the pawn targets. */
  lemma PawnMovesExact(side: Side, row: nat, col: nat, g: Grid, p: Point)
    requires PawnReadsOnBoard(side, row, col, g, None)
    ensures p in PawnMoves(side, row, col, g, None) <==> PawnTarget(side, row, col, g, p)
  {
    assert PawnMoves(side, row, col, g, None) == PawnPushes(side, row, col, g) + PawnCaptures(side, row, col, g);
    PawnPushesExact(side, row, col, g, p);
    PawnCapturesExact(side, row, col, g, p);
  }

  /** Pushes stay on the pawn's column. */
  lemma PawnPushesColumn(side: Side, row: nat, col: nat, g: Grid)
    requires row < 8 && col < 8 && (side == White ==> row <= 6) && (side == Black ==> row >= 1)
    ensures NoDup(PawnPushes(side, row, col, g))
    ensures forall p :: p in PawnPushes(side, row, col, g) ==> p.col == col
  {
  }

  /** Captures land on occupied squares beside the pawn's column. */
  lemma PawnCapturesOffColumn(side: Side, row: nat, col: nat, g: Grid)
    requires row < 8 && col < 8 && (side == White ==> row <= 6) && (side == Black ==> row >= 1)
    ensures NoDup(PawnCaptures(side, row, col, g))
    ensures forall p :: p in PawnCaptures(side, row, col, g) ==> p.col != col && InBounds(p) && At(g, p.row, p.col).Full?
  {
  }

  /** En passant yields at most one empty square beside the pawn's column. */
  lemma PawnEnPassantOffColumn(side: Side, row: nat, col: nat, g: Grid, pawnDoubleMoved: Option<Point>)
    requires PawnReadsOnBoard(side, row, col, g, pawnDoubleMoved)
    ensures |PawnEnPassant(side, row, col, g, pawnDoubleMoved)| <= 1
    ensures forall p :: p in PawnEnPassant(side, row, col, g, pawnDoubleMoved) ==>
      p.col != col && InBounds(p) && At(g, p.row, p.col) == Empty
  {
  }

  /**
   * The pawn generator never repeats a destination: pushes stay on the
   * pawn's column, captures land on occupied squares off it, and en
   * passant lands on an empty square off it.
   */
  lemma PawnMovesNoDup(side: Side, row: nat, col: nat, g: Grid, pawnDoubleMoved: Option<Point>)
    requires PawnReadsOnBoard(side, row, col, g, pawnDoubleMoved)
    ensures NoDup(PawnMoves(side, row, col, g, pawnDoubleMoved))
  {
    var pushes := PawnPushes(side, row, col, g);
    var captures := PawnCaptures(side, row, col, g);
    var ep := PawnEnPassant(side, row, col, g, pawnDoubleMoved);
    PawnPushesColumn(side, row, col, g);
    PawnCapturesOffColumn(side, row, col, g);
    PawnEnPassantOffColumn(side, row, col, g, pawnDoubleMoved);
    NoDupAppend(pushes, captures);
    NoDupAppend(pushes + captures, ep);
  }

  // ---------------------------------------------------------------------
  // Attack detector
  // ---------------------------------------------------------------------

  /** An enemy piece of type `t` or a queen: what a ray of `in_check` is looking for. */
  predicate EnemySlider(s: Square, side: Side, t: PieceType) {
    s.Full? && (s.piece.typ == t || s.piece.typ == Queen) && s.piece.side != side
  }

  /**
   * One ray scan of `in_check`: walk from (r, c) while the square is inside
   * the scanned area and empty; the first piece decides. The scanned area
   * is columns 1..7 only (`square.1 > 0`), as in the source.
   */
  function RayAttacked(side: Side, r: int, c: int, d: (int, int), g: Grid, t: PieceType): bool
    requires IsDirection(d)
    decreases if OnBoard(r, c) then RayBound(r, c, d) else 0
  {
    if !(0 <= r < 8 && 0 < c < 8) then false
    else match At(g, r, c)
      case Full(piece) => (piece.typ == t || piece.typ == Queen) && piece.side != side
      case Empty => RayAttacked(side, r + d.0, c + d.1, d, g, t)
  }

  /** The ray scan along `d` that starts next to `pos`. */
  predicate DirAttacked(side: Side, pos: Point, d: (int, int), g: Grid, t: PieceType)
    requires IsDirection(d)
  {
    RayAttacked(side, pos.row + d.0, pos.col + d.1, d, g, t)
  }

  predicate SliderAttack(side: Side, pos: Point, dirs: seq<(int, int)>, g: Grid, t: PieceType)
    requires AllDirections(dirs)
  {
    exists i :: 0 <= i < |dirs| && DirAttacked(side, pos, dirs[i], g, t)
  }

  /** An enemy knight stands one knight offset `m` away from `pos`. */
  predicate KnightThreat(side: Side, pos: Point, g: Grid, m: (int, int)) {
    var r, c := pos.row + m.0, pos.col + m.1;
    OnBoard(r, c) && At(g, r, c).Full? && At(g, r, c).piece.typ == Knight && At(g, r, c).piece.side != side
  }

  predicate KnightAttack(side: Side, pos: Point, g: Grid) {
    exists i :: 0 <= i < |KnightMoves| && KnightThreat(side, pos, g, KnightMoves[i])
  }

  /**
   * The pawn test of `in_check`. A White square on row 7 fails the first
   * guard and falls through to the branch that looks for White pawns.
   */
  predicate PawnAttack(side: Side, pos: Point, g: Grid)
    requires InBounds(pos)
  {
    if side == White && pos.row < 7 then
      || (pos.col > 0 && At(g, pos.row + 1, pos.col - 1) == FullSquare(Black, Pawn))
      || (pos.col < 7 && At(g, pos.row + 1, pos.col + 1) == FullSquare(Black, Pawn))
    else if pos.row > 0 then
      || (pos.col > 0 && At(g, pos.row - 1, pos.col - 1) == FullSquare(White, Pawn))
      || (pos.col < 7 && At(g, pos.row - 1, pos.col + 1) == FullSquare(White, Pawn))
    else false
  }

  /** `in_check`: is the square `pos`, defended by `side`, attacked? */
  predicate InCheck(side: Side, pos: Point, g: Grid)
    requires InBounds(pos)
  {
    || SliderAttack(side, pos, RookDirections, g, Rook)
    || SliderAttack(side, pos, BishopDirections, g, Bishop)
    || KnightAttack(side, pos, g)
    || PawnAttack(side, pos, g)
  }

  /** One step of a ray scan inside the scanned area. */
  lemma RayAttackedUnfold(side: Side, r: int, c: int, d: (int, int), g: Grid, t: PieceType)
    requires IsDirection(d) && 0 <= r < 8 && 0 < c < 8
    ensures At(g, r, c).Full? ==> RayAttacked(side, r, c, d, g, t) == EnemySlider(At(g, r, c), side, t)
    ensures At(g, r, c).Empty? ==> RayAttacked(side, r, c, d, g, t) == RayAttacked(side, r + d.0, c + d.1, d, g, t)
  {
  }

  /** One `while` loop of `in_check`: walk from (r, c) in steps of `d`; the first piece decides. */
  method ScanAttack(side: Side, r: int, c: int, d: (int, int), board: array<Square>, t: PieceType) returns (hit: bool)
    requires board.Length == 64 && IsDirection(d)
    ensures hit == RayAttacked(side, r, c, d, board[..], t)
  {
    ghost var g: Grid := board[..];
    var square := (r, c);
    while square.0 >= 0 && square.0 < 8 && square.1 > 0 && square.1 < 8
      invariant RayAttacked(side, square.0, square.1, d, g, t) == RayAttacked(side, r, c, d, g, t)
      decreases if OnBoard(square.0, square.1) then RayBound(square.0, square.1, d) else 0
    {
      assert board[square.0 * 8 + square.1] == At(g, square.0, square.1);
      RayAttackedUnfold(side, square.0, square.1, d, g, t);
      match board[square.0 * 8 + square.1] {
        case Full(piece) =>
          return (piece.typ == t || piece.typ == Queen) && piece.side != side;
        case Empty =>
      }
      RayBoundStep(square.0, square.1, d);
      square := (square.0 + d.0, square.1 + d.1);
    }
    hit := false;
  }

  /** The `for dir in ..` loops of `in_check`: one ray scan per direction, stopping at the first attack. */
  method ScanSliders(side: Side, pos: Point, dirs: seq<(int, int)>, board: array<Square>, t: PieceType)
    returns (hit: bool)
    requires board.Length == 64 && AllDirections(dirs)
    ensures hit == SliderAttack(side, pos, dirs, board[..], t)
  {
    ghost var g: Grid := board[..];
    for i := 0 to |dirs|
      invariant forall j :: 0 <= j < i ==> !DirAttacked(side, pos, dirs[j], g, t)
    {
      hit := ScanAttack(side, pos.row + dirs[i].0, pos.col + dirs[i].1, dirs[i], board, t);
      if hit {
        return;
      }
    }
    hit := false;
  }

  /** The knight loop of `in_check`. */
  method ScanKnights(side: Side, pos: Point, board: array<Square>) returns (hit: bool)
    requires board.Length == 64
    ensures hit == KnightAttack(side, pos, board[..])
  {
    for i := 0 to |KnightMoves|
      invariant forall j :: 0 <= j < i ==> !KnightThreat(side, pos, board[..], KnightMoves[j])
    {
      var row, col := pos.row + KnightMoves[i].0, pos.col + KnightMoves[i].1;
      if 0 <= row < 8 && 0 <= col < 8 {
        var square := board[row * 8 + col];
        if square.Full? && square.piece.typ == Knight && square.piece.side != side {
          assert KnightThreat(side, pos, board[..], KnightMoves[i]);
          return true;
        }
      }
    }
    hit := false;
  }

  /**
   * `in_check`: the rook and bishop ray loops, the knight loop, then the
   * pawn test, each returning as soon as it finds an attacker.
   */
  method InCheckScan(side: Side, pos: Point, board: array<Square>) returns (check: bool)
    requires board.Length == 64 && InBounds(pos)
    ensures check == InCheck(side, pos, board[..])
  {
    // Check rook and queen horizontal attacks
    check := ScanSliders(side, pos, RookDirections, board, Rook);
    if check {
      return;
    }

    // Check bishop and queen diagonal attacks
    check := ScanSliders(side, pos, BishopDirections, board, Bishop);
    if check {
      return;
    }

    // Check knight attacks
    check := ScanKnights(side, pos, board);
    if check {
      return;
    }

    // Check pawn attacks
    ghost var g: Grid := board[..];
    if side == White && pos.row < 7 {
      if pos.col > 0 && board[(pos.row + 1) * 8 + pos.col - 1] == FullSquare(Black, Pawn) {
        return true;
      }
      if pos.col < 7 && board[(pos.row + 1) * 8 + pos.col + 1] == FullSquare(Black, Pawn) {
        return true;
      }
    } else if pos.row > 0 {
      if pos.col > 0 && board[(pos.row - 1) * 8 + pos.col - 1] == FullSquare(White, Pawn) {
        return true;
      }
      if pos.col < 7 && board[(pos.row - 1) * 8 + pos.col + 1] == FullSquare(White, Pawn) {
        return true;
      }
    }
    check := false;
  }

  /** A ray scan reports an attack only if an enemy slider of that kind stands on columns 1..7. */
  lemma {:induction false} RayAttackedNeedsSlider(side: Side, r: int, c: int, d: (int, int), g: Grid, t: PieceType)
    requires IsDirection(d)
    requires forall rr, cc :: 0 <= rr < 8 && 0 < cc < 8 ==> !EnemySlider(At(g, rr, cc), side, t)
    ensures !RayAttacked(side, r, c, d, g, t)
    decreases if OnBoard(r, c) then RayBound(r, c, d) else 0
  {
    if 0 <= r < 8 && 0 < c < 8 && At(g, r, c) == Empty {
      RayAttackedNeedsSlider(side, r + d.0, c + d.1, d, g, t);
    }
  }

  /**
   * The detector never looks at column 0 for sliders and has no king test:
   * when the attacker's only rooks, bishops and queens stand on column 0
   * and it has no knights and no pawns, no square is reported attacked,
   * even one next to the enemy king.
   */
  lemma InCheckBlindSpots(side: Side, pos: Point, g: Grid)
    requires InBounds(pos)
    requires forall r, c :: 0 <= r < 8 && 0 < c < 8 ==>
      !(At(g, r, c).Full? && At(g, r, c).piece.side != side && At(g, r, c).piece.typ in {Rook, Bishop, Queen})
    requires forall r, c :: 0 <= r < 8 && 0 <= c < 8 ==>
      !(At(g, r, c).Full? && At(g, r, c).piece.side != side && At(g, r, c).piece.typ in {Knight, Pawn})
    requires side == Black || pos.row < 7 || forall c :: 0 <= c < 8 ==> At(g, 6, c) != FullSquare(White, Pawn)
    ensures !InCheck(side, pos, g)
  {
    forall rr, cc | 0 <= rr < 8 && 0 < cc < 8
      ensures !EnemySlider(At(g, rr, cc), side, Rook) && !EnemySlider(At(g, rr, cc), side, Bishop)
    {
    }
    NoSliderAttack(side, pos, RookDirections, g, Rook);
    NoSliderAttack(side, pos, BishopDirections, g, Bishop);
    NoKnightAttack(side, pos, g);
    NoPawnAttack(side, pos, g);
  }

  /** The ray scans of one kind report nothing when no enemy slider of that kind stands on columns 1..7. */
  lemma NoSliderAttack(side: Side, pos: Point, dirs: seq<(int, int)>, g: Grid, t: PieceType)
    requires AllDirections(dirs)
    requires forall rr, cc :: 0 <= rr < 8 && 0 < cc < 8 ==> !EnemySlider(At(g, rr, cc), side, t)
    ensures !SliderAttack(side, pos, dirs, g, t)
  {
    forall i | 0 <= i < |dirs|
      ensures !RayAttacked(side, pos.row + dirs[i].0, pos.col + dirs[i].1, dirs[i], g, t)
    {
      RayAttackedNeedsSlider(side, pos.row + dirs[i].0, pos.col + dirs[i].1, dirs[i], g, t);
    }
  }

  /** The knight test reports nothing when the attacker has no knight. */
  lemma NoKnightAttack(side: Side, pos: Point, g: Grid)
    requires forall r, c :: 0 <= r < 8 && 0 <= c < 8 ==>
      !(At(g, r, c).Full? && At(g, r, c).piece.side != side && At(g, r, c).piece.typ in {Knight, Pawn})
    ensures !KnightAttack(side, pos, g)
  {
  }

  /** The pawn test of the blind spots: no enemy pawn, and no own pawn below a White back-rank square. */
  lemma NoPawnAttack(side: Side, pos: Point, g: Grid)
    requires InBounds(pos)
    requires forall r, c :: 0 <= r < 8 && 0 <= c < 8 ==>
      !(At(g, r, c).Full? && At(g, r, c).piece.side != side && At(g, r, c).piece.typ in {Knight, Pawn})
    requires side == Black || pos.row < 7 || forall c :: 0 <= c < 8 ==> At(g, 6, c) != FullSquare(White, Pawn)
    ensures !PawnAttack(side, pos, g)
  {
    if side == White && pos.row < 7 {
      if pos.col > 0 {
        var sq := At(g, pos.row + 1, pos.col - 1);
        assert !(sq.Full? && sq.piece.side != side && sq.piece.typ in {Knight, Pawn});
      }
      if pos.col < 7 {
        var sq := At(g, pos.row + 1, pos.col + 1);
        assert !(sq.Full? && sq.piece.side != side && sq.piece.typ in {Knight, Pawn});
      }
    } else if pos.row > 0 && side == Black {
      if pos.col > 0 {
        var sq := At(g, pos.row - 1, pos.col - 1);
        assert !(sq.Full? && sq.piece.side != side && sq.piece.typ in {Knight, Pawn});
      }
      if pos.col < 7 {
        var sq := At(g, pos.row - 1, pos.col + 1);
        assert !(sq.Full? && sq.piece.side != side && sq.piece.typ in {Knight, Pawn});
      }
    }
  }

  /**
   * Converse of the blind spots: an enemy slider of the right kind at
   * distance k along a ray, with the squares before it empty and all of it
   * inside columns 1..7, is found by the scan.
   */
  lemma {:induction false} RayAttackedReaches(side: Side, r: int, c: int, d: (int, int), g: Grid, t: PieceType, k: nat)
    requires IsDirection(d)
    requires forall j: nat :: j <= k ==> 0 <= Along(r, c, d, j).0 < 8 && 0 < Along(r, c, d, j).1 < 8
    requires forall j: nat :: j < k ==> At(g, Along(r, c, d, j).0, Along(r, c, d, j).1) == Empty
    requires EnemySlider(At(g, Along(r, c, d, k).0, Along(r, c, d, k).1), side, t)
    ensures RayAttacked(side, r, c, d, g, t)
    decreases k
  {
    assert Along(r, c, d, 0) == (r, c);
    RayAttackedUnfold(side, r, c, d, g, t);
    if k > 0 {
      assert 0 <= r < 8 && 0 < c < 8 && At(g, r, c) == Empty;
      var r1, c1 := r + d.0, c + d.1;
      forall j: nat | j <= k - 1
        ensures 0 <= Along(r1, c1, d, j).0 < 8 && 0 < Along(r1, c1, d, j).1 < 8
        ensures j < k - 1 ==> At(g, Along(r1, c1, d, j).0, Along(r1, c1, d, j).1) == Empty
      {
        AlongStep(r, c, d, j);
      }
      AlongStep(r, c, d, k - 1);
      RayAttackedReaches(side, r1, c1, d, g, t, k - 1);
    }
  }

  /**
   * Where a ray scan of `in_check` finds its attacker: `k` steps from (r, c),
   * inside the scanned area, with every square before it empty.
   */
  predicate RayHitAt(side: Side, r: int, c: int, d: (int, int), g: Grid, t: PieceType, k: nat) {
    && (forall j: nat :: j <= k ==> 0 <= Along(r, c, d, j).0 < 8 && 0 < Along(r, c, d, j).1 < 8)
    && (forall j: nat :: j < k ==> At(g, Along(r, c, d, j).0, Along(r, c, d, j).1) == Empty)
    && EnemySlider(At(g, Along(r, c, d, k).0, Along(r, c, d, k).1), side, t)
  }

  /** An empty scanned square in front of a hit moves the hit one step further. */
  lemma RayHitAtCons(side: Side, r: int, c: int, d: (int, int), g: Grid, t: PieceType, k: nat)
    requires IsDirection(d) && 0 <= r < 8 && 0 < c < 8 && At(g, r, c) == Empty
    requires RayHitAt(side, r + d.0, c + d.1, d, g, t, k)
    ensures RayHitAt(side, r, c, d, g, t, k + 1)
  {
    forall j: nat | j <= k + 1
      ensures 0 <= Along(r, c, d, j).0 < 8 && 0 < Along(r, c, d, j).1 < 8
      ensures j < k + 1 ==> At(g, Along(r, c, d, j).0, Along(r, c, d, j).1) == Empty
    {
      if j > 0 {
        AlongStep(r, c, d, j - 1);
      }
    }
    AlongStep(r, c, d, k);
  }

  /** A ray scan that reports an attack has found an attacker at some distance. */
  lemma {:induction false} RayAttackedFinds(side: Side, r: int, c: int, d: (int, int), g: Grid, t: PieceType)
    requires IsDirection(d) && RayAttacked(side, r, c, d, g, t)
    ensures exists k: nat :: RayHitAt(side, r, c, d, g, t, k)
    decreases if OnBoard(r, c) then RayBound(r, c, d) else 0
  {
    assert Along(r, c, d, 0) == (r, c);
    RayAttackedUnfold(side, r, c, d, g, t);
    if At(g, r, c).Full? {
      assert RayHitAt(side, r, c, d, g, t, 0);
    } else {
      RayBoundStep(r, c, d);
      RayAttackedFinds(side, r + d.0, c + d.1, d, g, t);
      var k: nat :| RayHitAt(side, r + d.0, c + d.1, d, g, t, k);
      RayHitAtCons(side, r, c, d, g, t, k);
    }
  }

  /** A ray scan reports an attack exactly when an attacker sits at some distance along it. */
  lemma RayAttackedExact(side: Side, r: int, c: int, d: (int, int), g: Grid, t: PieceType)
    requires IsDirection(d)
    ensures RayAttacked(side, r, c, d, g, t) <==> exists k: nat :: RayHitAt(side, r, c, d, g, t, k)
  {
    if exists k: nat :: RayHitAt(side, r, c, d, g, t, k) {
      var k: nat :| RayHitAt(side, r, c, d, g, t, k);
      RayAttackedReaches(side, r, c, d, g, t, k);
    }
    if RayAttacked(side, r, c, d, g, t) {
      RayAttackedFinds(side, r, c, d, g, t);
    }
  }

  /**
   * The pawn test treats a White square on row 7 like a Black one: a White
   * pawn diagonally below it counts as an attacker of its own side.
   */
  lemma OwnPawnAttacksWhiteBackRank(pos: Point, g: Grid)
    requires InBounds(pos) && pos.row == 7 && pos.col > 0
    requires At(g, 6, pos.col - 1) == FullSquare(White, Pawn)
    ensures InCheck(White, pos, g)
  {
  }

  // ---------------------------------------------------------------------
  // Legality filter
  // ---------------------------------------------------------------------

  /** The board with the candidate made: the mover lands on `to`, `from` is emptied. */
  function Probe(g: Grid, m: Move): Grid
    requires InBounds(m.from) && InBounds(m.to)
  {
    g[Idx(m.to) := g[Idx(m.from)]][Idx(m.from) := Empty]
  }

  /** The defending king's square once `m` is made: `to` if the king itself moved. */
  function KingAfter(m: Move, kingPos: Point): Point {
    if m.from == kingPos then m.to else kingPos
  }

  /** The candidate does not leave the king of `side` attacked. */
  predicate KeepsKingSafe(side: Side, m: Move, g: Grid, kingPos: Point)
    requires InBounds(m.from) && InBounds(m.to) && InBounds(kingPos)
  {
    !InCheck(side, KingAfter(m, kingPos), Probe(g, m))
  }

  predicate AllInBounds(ms: seq<Move>) {
    forall k :: 0 <= k < |ms| ==> InBounds(ms[k].from) && InBounds(ms[k].to)
  }

  /** The candidates that keep the king safe, in their original order. */
  function LegalMoves(side: Side, possible: seq<Move>, g: Grid, kingPos: Point): (legal: seq<Move>)
    requires AllInBounds(possible) && InBounds(kingPos)
    ensures |legal| <= |possible|
    decreases |possible|
  {
    if possible == [] then []
    else
      var m := possible[|possible| - 1];
      LegalMoves(side, possible[..|possible| - 1], g, kingPos) + (if KeepsKingSafe(side, m, g, kingPos) then [m] else [])
  }

  /** Every kept move is one of the candidates, so the filter output stays on the board. */
  lemma {:induction false} LegalMovesSubset(side: Side, possible: seq<Move>, g: Grid, kingPos: Point)
    requires AllInBounds(possible) && InBounds(kingPos)
    ensures forall m :: m in LegalMoves(side, possible, g, kingPos) ==> m in possible
    ensures AllInBounds(LegalMoves(side, possible, g, kingPos))
    decreases |possible|
  {
    if possible != [] {
      var front := possible[..|possible| - 1];
      LegalMovesSubset(side, front, g, kingPos);
    }
  }

  /** A move is kept exactly when it is a candidate that keeps the king safe. */
  lemma {:induction false} LegalMovesExact(side: Side, possible: seq<Move>, g: Grid, kingPos: Point, m: Move)
    requires AllInBounds(possible) && InBounds(kingPos)
    ensures m in LegalMoves(side, possible, g, kingPos) <==>
      m in possible && InBounds(m.from) && InBounds(m.to) && KeepsKingSafe(side, m, g, kingPos)
    decreases |possible|
  {
    if possible != [] {
      var front := possible[..|possible| - 1];
      LegalMovesExact(side, front, g, kingPos, m);
      assert possible == front + [possible[|possible| - 1]];
    }
  }

  /** When every candidate keeps the king safe the filter changes nothing, order included. */
  lemma {:induction false} LegalMovesAllSafe(side: Side, possible: seq<Move>, g: Grid, kingPos: Point)
    requires AllInBounds(possible) && InBounds(kingPos)
    requires forall k :: 0 <= k < |possible| ==> KeepsKingSafe(side, possible[k], g, kingPos)
    ensures LegalMoves(side, possible, g, kingPos) == possible
    decreases |possible|
  {
    if possible != [] {
      var front, m := possible[..|possible| - 1], possible[|possible| - 1];
      forall k | 0 <= k < |front|
        ensures InBounds(front[k].from) && InBounds(front[k].to) && KeepsKingSafe(side, front[k], g, kingPos)
      {
        assert front[k] == possible[k];
      }
      LegalMovesAllSafe(side, front, g, kingPos);
      assert KeepsKingSafe(side, m, g, kingPos);
      assert possible == front + [m];
    }
  }

  /** The filter keeps a duplicate-free list duplicate-free. */
  lemma {:induction false} LegalMovesNoDup(side: Side, possible: seq<Move>, g: Grid, kingPos: Point)
    requires AllInBounds(possible) && InBounds(kingPos) && NoDup(possible)
    ensures NoDup(LegalMoves(side, possible, g, kingPos))
    decreases |possible|
  {
    if possible != [] {
      var front, m := possible[..|possible| - 1], possible[|possible| - 1];
      LegalMovesNoDup(side, front, g, kingPos);
      LegalMovesSubset(side, front, g, kingPos);
      assert m !in front;
      NoDupAppend(LegalMoves(side, front, g, kingPos), if KeepsKingSafe(side, m, g, kingPos) then [m] else []);
    }
  }

  /**
   * One probe of `filter_legal_moves`: make the candidate on the shared
   * board, ask the detector, unmake it. The board comes back square for
   * square as it was, whether or not the move is legal.
   */
  method ProbeMove(side: Side, mov: Move, board: array<Square>, kingPos: Point) returns (legal: bool)
    requires board.Length == 64
    requires InBounds(mov.from) && InBounds(mov.to) && InBounds(kingPos)
    modifies board
    ensures board[..] == old(board[..])
    ensures legal == KeepsKingSafe(side, mov, old(board[..]), kingPos)
  {
    var from, to := Idx(mov.from), Idx(mov.to);
    // Make move on board
    var replaced := board[to];
    board[to] := board[from];
    board[from] := Empty;
    assert board[..] == Probe(old(board[..]), mov);
    var check := InCheckScan(side, if mov.from == kingPos then mov.to else kingPos, board);
    legal := !check;
    // Unmake move on board
    board[from] := board[to];
    board[to] := replaced;
    assert from != to ==> board[from] == old(board[from]);
  }

  /** `filter_legal_moves`: probe every candidate in turn on the shared board. */
  method FilterLegalMoves(side: Side, possible: seq<Move>, board: array<Square>, kingPos: Point)
    returns (legal: seq<Move>)
    requires board.Length == 64
    requires AllInBounds(possible) && InBounds(kingPos)
    modifies board
    ensures board[..] == old(board[..])
    ensures legal == LegalMoves(side, possible, old(board[..]), kingPos)
  {
    legal := [];
    for i := 0 to |possible|
      invariant board[..] == old(board[..])
      invariant legal == LegalMoves(side, possible[..i], old(board[..]), kingPos)
    {
      var ok := ProbeMove(side, possible[i], board, kingPos);
      if ok {
        legal := legal + [possible[i]];
      }
      assert possible[..i + 1][..i] == possible[..i];
    }
    assert possible[..|possible|] == possible;
  }

  // ---------------------------------------------------------------------
  // Castling path
  // ---------------------------------------------------------------------

  /** Column `col` of the king's row neither blocks nor is attacked. */
  predicate CastleColumnClear(side: Side, g: Grid, kingPos: Point, col: nat)
    requires InBounds(kingPos) && col < 8
  {
    && (col != kingPos.col ==> At(g, kingPos.row, col) == Empty)
    && !InCheck(side, Point(kingPos.row, col), g)
  }

  /** The loop of `can_castle` over the columns `col..end`, with its early returns. */
  function CastlePathFrom(side: Side, g: Grid, kingPos: Point, col: nat, end: nat): (ok: bool)
    requires InBounds(kingPos) && end <= 8
    ensures ok <==> forall c :: col <= c < end ==> CastleColumnClear(side, g, kingPos, c)
    decreases end - col
  {
    if col >= end then true
    else if col != kingPos.col && At(g, kingPos.row, col).Full? then
      assert !CastleColumnClear(side, g, kingPos, col);
      false
    else if InCheck(side, Point(kingPos.row, col), g) then
      assert !CastleColumnClear(side, g, kingPos, col);
      false
    else CastlePathFrom(side, g, kingPos, col + 1, end)
  }

  /**
   * `can_castle`: every column of the direction's range is empty (the
   * king's own column excepted) and not attacked.
   */
  predicate CanCastle(side: Side, dir: CastleDirection, g: Grid, kingPos: Point)
    requires InBounds(kingPos)
  {
    CastlePathFrom(side, g, kingPos, CastleRange(dir).start, CastleRange(dir).end)
  }

  /**
   * The loop of `can_castle`: over the direction's columns, a piece off
   * the king's column or an attacked square ends the scan with `false`.
   */
  method CanCastleScan(side: Side, dir: CastleDirection, board: array<Square>, kingPos: Point) returns (ok: bool)
    requires board.Length == 64 && InBounds(kingPos)
    ensures ok == CanCastle(side, dir, board[..], kingPos)
  {
    ghost var g: Grid := board[..];
    var cols := CastleRange(dir);
    for col := cols.start to cols.end
      invariant forall c :: cols.start <= c < col ==> CastleColumnClear(side, g, kingPos, c)
    {
      if col != kingPos.col && board[kingPos.row * 8 + col].Full? {
        assert !CastleColumnClear(side, g, kingPos, col);
        return false;
      }
      var attacked := InCheckScan(side, Point(kingPos.row, col), board);
      if attacked {
        assert !CastleColumnClear(side, g, kingPos, col);
        return false;
      }
    }
    ok := true;
  }
}
