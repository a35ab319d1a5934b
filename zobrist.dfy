/**
 * Zobrist keys: a position is hashed by XOR-ing together one pseudorandom
 * 64-bit value per occupied (piece, square), one for Black to move, one per
 * castle right held and one for an en passant file. The random values are
 * a parameter here.
 */
module Zobrist {
  import opened Wrappers
  import opened Board
  import opened Bits

  /** Number of (side, piece type) pairs, the first dimension of the piece table. */
  const PieceKinds: nat := 12

  /** The random values of `Zobrist`: piece table, side, castle rights and en passant files. */
  datatype Params = Params(
    pieceTable: seq<seq<seq<U64>>>,
    blackTurn: U64,
    whiteCastleRights: (U64, U64),
    blackCastleRights: (U64, U64),
    enPassant: seq<U64>)

  /** The array shapes of `Zobrist`: a 12 x 8 x 8 piece table and 8 en passant values. */
  predicate WellFormed(z: Params) {
    && |z.pieceTable| == PieceKinds
    && (forall i :: 0 <= i < PieceKinds ==> |z.pieceTable[i]| == Size)
    && (forall i, r :: 0 <= i < PieceKinds && 0 <= r < Size ==> |z.pieceTable[i][r]| == Size)
    && |z.enPassant| == Size
  }

  /** `ZobristTable` without its (never used) hash map: the parameters and the current key. */
  datatype ZobristTable = ZobristTable(zobrist: Params, key: U64)

  /** Rank of a piece type in the piece table, Pawn first and King last. */
  function TypeRank(t: PieceType): (i: nat)
    ensures i < 6
  {
    match t
    case Pawn => 0
    case Knight => 1
    case Bishop => 2
    case Rook => 3
    case Queen => 4
    case King => 5
  }

  /** Table index of a piece: 6 for Black plus the rank of its type. */
  function PieceIndex(piece: Piece): (i: nat)
    ensures i < PieceKinds
    ensures (piece.side == Black) <==> i >= 6
  {
    (if piece.side == White then 0 else 6) + TypeRank(piece.typ)
  }

  /** Different pieces use different layers of the table. */
  lemma PieceIndexInjective(a: Piece, b: Piece)
    ensures PieceIndex(a) == PieceIndex(b) ==> a == b
  {
  }

  /** `Zobrist::get_piece_key`. */
  function GetPieceKey(z: Params, piece: Piece, square: Point): U64
    requires WellFormed(z) && InBounds(square)
  {
    z.pieceTable[PieceIndex(piece)][square.row][square.col]
  }

  // ---------------------------------------------------------------------
  // The key, stated as a function of the position
  // ---------------------------------------------------------------------

  /** The starting value of the key: `black_turn` when Black is to move, else 0. */
  function SideKey(z: Params, side: Side): U64 {
    if side == White then 0 else z.blackTurn
  }

  /**
   * The key after the piece loop has visited the first `n` squares in
   * row-major order, starting from `acc`: each occupied square XORs in its
   * piece's key.
   */
  function PiecesFrom(acc: U64, z: Params, g: Grid, n: nat): U64
    requires WellFormed(z) && n <= 64
  {
    if n == 0 then acc
    else
      var k := PiecesFrom(acc, z, g, n - 1);
      match g[n - 1]
      case Full(piece) => Xor64(k, GetPieceKey(z, piece, SquareAt(n - 1)))
      case Empty => k
  }

  /** The en passant neighbour test: a pawn whose square behind the double-moved pawn is empty. */
  predicate NeighbourPawn(g: Grid, row: nat, col: nat, ncol: nat)
    requires row < 8 && col < 8 && ncol < 8
    requires At(g, row, ncol).Full? && At(g, row, ncol).piece.typ == Pawn ==>
      (At(g, row, ncol).piece.side == White ==> row + 1 < 8) && (At(g, row, ncol).piece.side == Black ==> row >= 1)
  {
    && At(g, row, ncol).Full?
    && At(g, row, ncol).piece.typ == Pawn
    && ((At(g, row, ncol).piece.side == White && At(g, row + 1, col) == Empty)
        || (At(g, row, ncol).piece.side == Black && At(g, row - 1, col) == Empty))
  }

  /** The squares the neighbour test at column `ncol` reads are on the board. */
  predicate NeighbourReadable(g: Grid, row: nat, ncol: nat)
    requires row < 8 && ncol < 8
  {
    At(g, row, ncol).Full? && At(g, row, ncol).piece.typ == Pawn ==>
      (At(g, row, ncol).piece.side == White ==> row + 1 < 8) && (At(g, row, ncol).piece.side == Black ==> row >= 1)
  }

  /** Every square `ZobristTable::new` reads for the en passant test is on the board. */
  predicate EnPassantReadable(g: Grid, pawnDoubleMoved: Option<Point>) {
    pawnDoubleMoved.Some? ==>
      var p := pawnDoubleMoved.value;
      && InBounds(p)
      && (p.col > 0 ==> NeighbourReadable(g, p.row, p.col - 1))
      && (p.col < 7 && !(p.col > 0 && NeighbourPawn(g, p.row, p.col, p.col - 1)) ==> NeighbourReadable(g, p.row, p.col + 1))
  }

  /** The en passant file recorded in the key: the double-moved pawn's column, if a neighbour could capture. */
  function EnPassantFile(g: Grid, pawnDoubleMoved: Option<Point>): (file: Option<nat>)
    requires EnPassantReadable(g, pawnDoubleMoved)
    ensures pawnDoubleMoved.None? ==> file.None?
    ensures file.Some? ==> file.value == pawnDoubleMoved.value.col && file.value < Size
    ensures pawnDoubleMoved.Some? ==>
      var p := pawnDoubleMoved.value;
      (file.Some? <==> (p.col > 0 && NeighbourPawn(g, p.row, p.col, p.col - 1))
                       || (p.col < 7 && NeighbourPawn(g, p.row, p.col, p.col + 1)))
  {
    match pawnDoubleMoved
    case None => None
    case Some(p) =>
      if p.col > 0 && NeighbourPawn(g, p.row, p.col, p.col - 1) then Some(p.col)
      else if p.col < Size - 1 && NeighbourPawn(g, p.row, p.col, p.col + 1) then Some(p.col)
      else None
  }

  /** The value `ZobristTable::new` XORs in for the castle right (side, dir), if held. */
  function RightValue(z: Params, side: Side, dir: CastleDirection): U64 {
    match side
    case White => (match dir case A => z.whiteCastleRights.0 case H => z.whiteCastleRights.1)
    case Black => (match dir case A => z.blackCastleRights.0 case H => z.blackCastleRights.1)
  }

  /** One castle right step of the key: XOR in `value` when the right is held. */
  function RightStep(k: U64, held: bool, value: U64): U64 {
    if held then Xor64(k, value) else k
  }

  /** The castle rights steps, White's `A` and `H` then Black's, as in `ZobristTable::new`. */
  function WithRights(k: U64, z: Params, rights: CastleRights): U64 {
    var k1 := RightStep(k, rights.white.0, z.whiteCastleRights.0);
    var k2 := RightStep(k1, rights.white.1, z.whiteCastleRights.1);
    var k3 := RightStep(k2, rights.black.0, z.blackCastleRights.0);
    RightStep(k3, rights.black.1, z.blackCastleRights.1)
  }

  /** The en passant step of the key: XOR in the file's value when a file was recorded. */
  function WithEnPassant(k: U64, z: Params, file: Option<nat>): U64
    requires WellFormed(z) && (file.Some? ==> file.value < Size)
  {
    match file
    case Some(col) => Xor64(k, z.enPassant[col])
    case None => k
  }

  /** The key `ZobristTable::new` computes for a position: side, then pieces, en passant and rights. */
  function Key(z: Params, side: Side, g: Grid, rights: CastleRights, pawnDoubleMoved: Option<Point>): U64
    requires WellFormed(z) && EnPassantReadable(g, pawnDoubleMoved)
  {
    WithRights(WithEnPassant(PiecesFrom(SideKey(z, side), z, g, 64), z, EnPassantFile(g, pawnDoubleMoved)), z, rights)
  }

  lemma RightStepShift(k: U64, held: bool, value: U64, v: U64)
    ensures RightStep(Xor64(k, v), held, value) == Xor64(RightStep(k, held, value), v)
  {
    if held {
      Xor64Shift(k, value, v);
    }
  }

  lemma RightStepFlip(k: U64, held: bool, value: U64)
    ensures RightStep(k, !held, value) == Xor64(RightStep(k, held, value), value)
  {
    if held {
      Xor64Cancel(k, value);
    }
  }

  // ---------------------------------------------------------------------
  // Properties of the key
  // ---------------------------------------------------------------------

  /** XOR-ing `v` into the starting value XORs `v` into the result of the piece loop. */
  lemma {:induction false} PiecesFromShift(acc: U64, v: U64, z: Params, g: Grid, n: nat)
    requires WellFormed(z) && n <= 64
    ensures PiecesFrom(Xor64(acc, v), z, g, n) == Xor64(PiecesFrom(acc, z, g, n), v)
  {
    if n > 0 {
      PiecesFromShift(acc, v, z, g, n - 1);
      if g[n - 1].Full? {
        Xor64Shift(PiecesFrom(acc, z, g, n - 1), GetPieceKey(z, g[n - 1].piece, SquareAt(n - 1)), v);
      }
    }
  }

  lemma WithRightsShift(k: U64, v: U64, z: Params, rights: CastleRights)
    ensures WithRights(Xor64(k, v), z, rights) == Xor64(WithRights(k, z, rights), v)
  {
    var k1 := RightStep(k, rights.white.0, z.whiteCastleRights.0);
    var k2 := RightStep(k1, rights.white.1, z.whiteCastleRights.1);
    var k3 := RightStep(k2, rights.black.0, z.blackCastleRights.0);
    RightStepShift(k, rights.white.0, z.whiteCastleRights.0, v);
    RightStepShift(k1, rights.white.1, z.whiteCastleRights.1, v);
    RightStepShift(k2, rights.black.0, z.blackCastleRights.0, v);
    RightStepShift(k3, rights.black.1, z.blackCastleRights.1, v);
  }

  /** Changing the side to move changes the key by exactly `black_turn`. */
  lemma KeySideToggle(z: Params, g: Grid, rights: CastleRights, pawnDoubleMoved: Option<Point>)
    requires WellFormed(z) && EnPassantReadable(g, pawnDoubleMoved)
    ensures Key(z, Black, g, rights, pawnDoubleMoved) == Xor64(Key(z, White, g, rights, pawnDoubleMoved), z.blackTurn)
  {
    var v := z.blackTurn;
    var file := EnPassantFile(g, pawnDoubleMoved);
    Xor64Zero(v);
    PiecesFromShift(0, v, z, g, 64);
    var p := PiecesFrom(0, z, g, 64);
    if file.Some? {
      Xor64Shift(p, z.enPassant[file.value], v);
    }
    WithRightsShift(WithEnPassant(p, z, file), v, z, rights);
  }

  /** The rights with the one right (side, dir) flipped. */
  function FlipRight(rights: CastleRights, side: Side, dir: CastleDirection): (r: CastleRights)
    ensures HasRight(r, side, dir) == !HasRight(rights, side, dir)
    ensures forall s, d :: (s, d) != (side, dir) ==> HasRight(r, s, d) == HasRight(rights, s, d)
  {
    match side
    case White => (match dir
      case A => rights.(white := (!rights.white.0, rights.white.1))
      case H => rights.(white := (rights.white.0, !rights.white.1)))
    case Black => (match dir
      case A => rights.(black := (!rights.black.0, rights.black.1))
      case H => rights.(black := (rights.black.0, !rights.black.1)))
  }

  /** Toggling one castle right changes the rights steps by exactly that right's value. */
  lemma WithRightsToggle(k: U64, z: Params, rights: CastleRights, s: Side, d: CastleDirection)
    ensures WithRights(k, z, FlipRight(rights, s, d)) == Xor64(WithRights(k, z, rights), RightValue(z, s, d))
  {
    var r := FlipRight(rights, s, d);
    var k1 := RightStep(k, rights.white.0, z.whiteCastleRights.0);
    var k2 := RightStep(k1, rights.white.1, z.whiteCastleRights.1);
    var k3 := RightStep(k2, rights.black.0, z.blackCastleRights.0);
    match s {
      case White =>
        match d {
          case A =>
            var v := z.whiteCastleRights.0;
            RightStepFlip(k, rights.white.0, v);
            RightStepShift(k1, rights.white.1, z.whiteCastleRights.1, v);
            RightStepShift(k2, rights.black.0, z.blackCastleRights.0, v);
            RightStepShift(k3, rights.black.1, z.blackCastleRights.1, v);
          case H =>
            var v := z.whiteCastleRights.1;
            RightStepFlip(k1, rights.white.1, v);
            RightStepShift(k2, rights.black.0, z.blackCastleRights.0, v);
            RightStepShift(k3, rights.black.1, z.blackCastleRights.1, v);
        }
      case Black =>
        match d {
          case A =>
            var v := z.blackCastleRights.0;
            RightStepFlip(k2, rights.black.0, v);
            RightStepShift(k3, rights.black.1, z.blackCastleRights.1, v);
          case H =>
            RightStepFlip(k3, rights.black.1, z.blackCastleRights.1);
        }
    }
  }

  /** Toggling one castle right changes the key by exactly that right's value. */
  lemma KeyRightToggle(z: Params, side: Side, g: Grid, rights: CastleRights, pawnDoubleMoved: Option<Point>,
                       s: Side, d: CastleDirection)
    requires WellFormed(z) && EnPassantReadable(g, pawnDoubleMoved)
    ensures Key(z, side, g, FlipRight(rights, s, d), pawnDoubleMoved)
      == Xor64(Key(z, side, g, rights, pawnDoubleMoved), RightValue(z, s, d))
  {
    WithRightsToggle(WithEnPassant(PiecesFrom(SideKey(z, side), z, g, 64), z, EnPassantFile(g, pawnDoubleMoved)), z, rights, s, d);
  }

  /** With no double-moved pawn no en passant value enters the key. */
  lemma KeyWithoutEnPassant(z: Params, side: Side, g: Grid, rights: CastleRights)
    requires WellFormed(z)
    ensures Key(z, side, g, rights, None) == WithRights(PiecesFrom(SideKey(z, side), z, g, 64), z, rights)
  {
  }

  /**
   * Placing a piece on an empty square changes the piece part of the key
   * by exactly that piece's key at that square, once the loop has passed
   * it: the key can be updated incrementally.
   */
  lemma {:induction false} PiecesFromPlace(acc: U64, z: Params, g: Grid, i: nat, piece: Piece, n: nat)
    requires WellFormed(z) && i < 64 && n <= 64 && g[i] == Empty
    ensures i < n ==> PiecesFrom(acc, z, g[i := Full(piece)], n) == Xor64(PiecesFrom(acc, z, g, n), GetPieceKey(z, piece, SquareAt(i)))
    ensures i >= n ==> PiecesFrom(acc, z, g[i := Full(piece)], n) == PiecesFrom(acc, z, g, n)
  {
    if n > 0 {
      var h := g[i := Full(piece)];
      PiecesFromPlace(acc, z, g, i, piece, n - 1);
      if i < n - 1 && g[n - 1].Full? {
        assert h[n - 1] == g[n - 1];
        Xor64Shift(PiecesFrom(acc, z, g, n - 1), GetPieceKey(z, piece, SquareAt(i)), GetPieceKey(z, g[n - 1].piece, SquareAt(n - 1)));
      }
    }
  }

  /** Removing a piece is the same XOR: the update is its own inverse. */
  lemma PiecesFromRemove(acc: U64, z: Params, g: Grid, i: nat, piece: Piece)
    requires WellFormed(z) && i < 64 && g[i] == Full(piece)
    ensures PiecesFrom(acc, z, g[i := Empty], 64) == Xor64(PiecesFrom(acc, z, g, 64), GetPieceKey(z, piece, SquareAt(i)))
  {
    var h := g[i := Empty];
    PiecesFromPlace(acc, z, h, i, piece, 64);
    assert h[i := Full(piece)] == g;
    Xor64Cancel(PiecesFrom(acc, z, h, 64), GetPieceKey(z, piece, SquareAt(i)));
  }

  // ---------------------------------------------------------------------
  // ZobristTable::new
  // ---------------------------------------------------------------------

  /** The piece loop of `ZobristTable::new`: XOR every occupied square's piece key into `acc`. */
  method PieceKeys(z: Params, acc: U64, board: array<Square>) returns (key: U64)
    requires WellFormed(z) && board.Length == 64
    ensures key == PiecesFrom(acc, z, board[..], 64)
  {
    ghost var g: Grid := board[..];
    key := acc;
    for r := 0 to Size
      invariant key == PiecesFrom(acc, z, g, r * 8)
    {
      for c := 0 to Size
        invariant key == PiecesFrom(acc, z, g, r * 8 + c)
      {
        assert (r * 8 + c) / 8 == r && (r * 8 + c) % 8 == c;
        match board[r * 8 + c]
        case Full(piece) =>
          key := Xor64(key, GetPieceKey(z, piece, Point(r, c)));
        case Empty =>
      }
    }
  }

  /** The en passant test of `ZobristTable::new`: left neighbour first, then right. */
  method EnPassantColumn(board: array<Square>, pawnDoubleMoved: Option<Point>) returns (enPassant: Option<nat>)
    requires board.Length == 64
    requires EnPassantReadable(board[..], pawnDoubleMoved)
    ensures enPassant == EnPassantFile(board[..], pawnDoubleMoved)
  {
    ghost var g: Grid := board[..];
    enPassant := None;
    if pawnDoubleMoved.Some? {
      var point := pawnDoubleMoved.value;
      if point.col > 0 {
        var square := board[point.row * 8 + point.col - 1];
        assert square == At(g, point.row, point.col - 1);
        if square.Full? {
          var piece := square.piece;
          if piece.typ == Pawn
            && ((piece.side == White && board[(point.row + 1) * 8 + point.col] == Empty)
                || (piece.side == Black && board[(point.row - 1) * 8 + point.col] == Empty))
          {
            enPassant := Some(point.col);
          }
        }
      }
      assert enPassant.Some? <==> point.col > 0 && NeighbourPawn(g, point.row, point.col, point.col - 1);
      if enPassant == None && point.col < Size - 1 {
        var square := board[point.row * 8 + point.col + 1];
        assert square == At(g, point.row, point.col + 1);
        if square.Full? {
          var piece := square.piece;
          if piece.typ == Pawn
            && ((piece.side == White && board[(point.row + 1) * 8 + point.col] == Empty)
                || (piece.side == Black && board[(point.row - 1) * 8 + point.col] == Empty))
          {
            enPassant := Some(point.col);
          }
        }
      }
    }
  }

  /** The initial key of `ZobristTable::new`: side, pieces, en passant file, castle rights. */
  method NewKey(z: Params, side: Side, board: array<Square>, rights: CastleRights, pawnDoubleMoved: Option<Point>)
    returns (key: U64)
    requires WellFormed(z) && board.Length == 64
    requires EnPassantReadable(board[..], pawnDoubleMoved)
    ensures key == Key(z, side, board[..], rights, pawnDoubleMoved)
  {
    key := if side == White then 0 else z.blackTurn;

    // Update hash with piece positions
    key := PieceKeys(z, key, board);

    // Update hash with en passant moves
    var enPassant := EnPassantColumn(board, pawnDoubleMoved);
    if enPassant.Some? {
      key := Xor64(key, z.enPassant[enPassant.value]);
    }

    // Update hash with castle rights
    if rights.white.0 {
      key := Xor64(key, z.whiteCastleRights.0);
    }
    if rights.white.1 {
      key := Xor64(key, z.whiteCastleRights.1);
    }
    if rights.black.0 {
      key := Xor64(key, z.blackCastleRights.0);
    }
    if rights.black.1 {
      key := Xor64(key, z.blackCastleRights.1);
    }
  }

  /** `ZobristTable::new`: the parameters and the key of the given position. */
  method NewTable(z: Params, side: Side, board: array<Square>, rights: CastleRights, pawnDoubleMoved: Option<Point>)
    returns (table: ZobristTable)
    requires WellFormed(z) && board.Length == 64
    requires EnPassantReadable(board[..], pawnDoubleMoved)
    ensures table.zobrist == z
    ensures table.key == Key(z, side, board[..], rights, pawnDoubleMoved)
  {
    var key := NewKey(z, side, board, rights, pawnDoubleMoved);
    table := ZobristTable(z, key);
  }
}
