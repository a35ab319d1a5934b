/**
 * Board and game-state data model (src/board.rs): sides, pieces, squares,
 * the fixed set-up constants and the starting position.
 *
 * The 8x8 grid `[[Square; 8]; 8]` is stored row-major: square (r, c) is
 * element 8 * r + c of a 64-element sequence (or array, inside `Game`).
 */
module Board {
  import opened Wrappers

  const Size: nat := 8

  datatype Side = White | Black

  datatype PieceType = Pawn | Knight | Bishop | Rook | Queen | King

  datatype Piece = Piece(side: Side, typ: PieceType)

  datatype Square = Full(piece: Piece) | Empty

  datatype Point = Point(row: nat, col: nat)

  /** A move between two squares (`Move { from, to }`). */
  datatype Move = Move(from: Point, to: Point)

  datatype CastleDirection = A | H

  datatype KingPositions = KingPositions(white: Point, black: Point)

  /** Castle rights per side, as (toward the a-file rook, toward the h-file rook). */
  datatype CastleRights = CastleRights(white: (bool, bool), black: (bool, bool))

  /** A half-open column range `start..end`, as Rust's `Range<usize>`. */
  datatype ColumnRange = ColumnRange(start: nat, end: nat)

  datatype Positions = Positions(whiteKing: Point, blackKing: Point,
                                 whiteRooks: (Point, Point), blackRooks: (Point, Point))

  datatype CastledPositions = CastledPositions(whiteKing: (Point, Point), blackKing: (Point, Point),
                                               whiteRooks: (Point, Point), blackRooks: (Point, Point))

  /** A board of 64 squares, row-major. */
  type Grid = g: seq<Square> | |g| == 64 witness seq(64, i => Empty)

  const PromotionPieces: seq<PieceType> := [Knight, Bishop, Rook, Queen]

  const InitialPositions: Positions :=
    Positions(Point(0, 4), Point(7, 4), (Point(0, 0), Point(0, 7)), (Point(7, 0), Point(7, 7)))

  const CastledSquares: CastledPositions :=
    CastledPositions((Point(0, 2), Point(0, 6)), (Point(7, 2), Point(7, 6)),
                     (Point(0, 3), Point(0, 5)), (Point(7, 3), Point(7, 5)))

  const CastleColumns: (ColumnRange, ColumnRange) := (ColumnRange(2, 5), ColumnRange(4, 7))

  predicate InBounds(p: Point) {
    p.row < Size && p.col < Size
  }

  /** The square at row `r`, column `c`. */
  function At(g: Grid, r: int, c: int): Square
    requires 0 <= r < 8 && 0 <= c < 8
  {
    g[r * 8 + c]
  }

  /** Flat index of an on-board point. */
  function Idx(p: Point): (i: nat)
    requires InBounds(p)
    ensures i < 64
  {
    p.row * 8 + p.col
  }

  /** The point stored at flat index `i`, the inverse of `Idx`. */
  function SquareAt(i: nat): (p: Point)
    requires i < 64
    ensures InBounds(p) && Idx(p) == i
  {
    Point(i / 8, i % 8)
  }

  /** `SquareAt` undoes `Idx`. */
  lemma SquareAtIdx(p: Point)
    requires InBounds(p)
    ensures SquareAt(Idx(p)) == p
  {
    var q := SquareAt(Idx(p));
    assert q.row * 8 + q.col == p.row * 8 + p.col;
  }

  /** `Side::get_opposite`. */
  function Opposite(side: Side): (r: Side)
    ensures r != side
  {
    match side
    case White => Black
    case Black => White
  }

  /** Taking the opposite side twice gives back the original side. */
  lemma OppositeInvolutive(side: Side)
    ensures Opposite(Opposite(side)) == side
  {
  }

  /** `Square::full`: the square holding a piece of that side and type. */
  function FullSquare(side: Side, typ: PieceType): (s: Square)
    ensures s.Full? && s.piece.side == side && s.piece.typ == typ
  {
    Full(Piece(side, typ))
  }

  /** `PieceType::get_type`: the piece letter of algebraic notation. */
  function GetType(ch: char): (r: Option<PieceType>)
    ensures r.None? <==> ch !in ['P', 'N', 'B', 'R', 'Q', 'K']
    ensures r == Some(Pawn) <==> ch == 'P'
    ensures r == Some(Knight) <==> ch == 'N'
    ensures r == Some(Bishop) <==> ch == 'B'
    ensures r == Some(Rook) <==> ch == 'R'
    ensures r == Some(Queen) <==> ch == 'Q'
    ensures r == Some(King) <==> ch == 'K'
  {
    match ch
    case 'P' => Some(Pawn)
    case 'N' => Some(Knight)
    case 'B' => Some(Bishop)
    case 'R' => Some(Rook)
    case 'Q' => Some(Queen)
    case 'K' => Some(King)
    case _ => None
  }

  /** `KingPositions::get_pos`. */
  function GetPos(kings: KingPositions, side: Side): (p: Point)
    ensures side == White ==> p == kings.white
    ensures side == Black ==> p == kings.black
  {
    match side
    case White => kings.white
    case Black => kings.black
  }

  /** The king cache with `side`'s entry replaced. */
  function SetPos(kings: KingPositions, side: Side, p: Point): (k: KingPositions)
    ensures GetPos(k, side) == p && GetPos(k, Opposite(side)) == GetPos(kings, Opposite(side))
  {
    match side
    case White => kings.(white := p)
    case Black => kings.(black := p)
  }

  /** `CastleRights::has_right`. */
  function HasRight(rights: CastleRights, side: Side, dir: CastleDirection): (r: bool)
    ensures side == White && dir == A ==> r == rights.white.0
    ensures side == White && dir == H ==> r == rights.white.1
    ensures side == Black && dir == A ==> r == rights.black.0
    ensures side == Black && dir == H ==> r == rights.black.1
  {
    match side
    case White => (match dir case A => rights.white.0 case H => rights.white.1)
    case Black => (match dir case A => rights.black.0 case H => rights.black.1)
  }

  /** Both of `side`'s castle rights revoked, `castle_rights.<side> = (false, false)`. */
  function RevokeAll(rights: CastleRights, side: Side): (r: CastleRights)
    ensures forall dir :: !HasRight(r, side, dir)
    ensures forall dir :: HasRight(r, Opposite(side), dir) == HasRight(rights, Opposite(side), dir)
  {
    match side
    case White => rights.(white := (false, false))
    case Black => rights.(black := (false, false))
  }

  /** One castle right revoked, as in `castle_rights.<side>.<0|1> = false`. */
  function RevokeOne(rights: CastleRights, side: Side, dir: CastleDirection): (r: CastleRights)
    ensures !HasRight(r, side, dir)
    ensures forall s, d :: (s, d) != (side, dir) ==> HasRight(r, s, d) == HasRight(rights, s, d)
  {
    match side
    case White => (match dir
      case A => rights.(white := (false, rights.white.1))
      case H => rights.(white := (rights.white.0, false)))
    case Black => (match dir
      case A => rights.(black := (false, rights.black.1))
      case H => rights.(black := (rights.black.0, false)))
  }

  /** The home row of a side's king and rooks. */
  function HomeRow(side: Side): nat {
    if side == White then 0 else 7
  }

  /** The initial square of `side`'s rook toward `dir` (`INITIAL_POSITIONS.*_ROOKS`). */
  function RookHome(side: Side, dir: CastleDirection): Point {
    match (side, dir)
    case (White, A) => InitialPositions.whiteRooks.0
    case (White, H) => InitialPositions.whiteRooks.1
    case (Black, A) => InitialPositions.blackRooks.0
    case (Black, H) => InitialPositions.blackRooks.1
  }

  /** The initial square of `side`'s king (`INITIAL_POSITIONS.*_KING`). */
  function KingHome(side: Side): Point {
    if side == White then InitialPositions.whiteKing else InitialPositions.blackKing
  }

  /** The king's square after castling toward `dir` (`CASTLED_POSITIONS.*_KING`). */
  function CastledKing(side: Side, dir: CastleDirection): Point {
    match (side, dir)
    case (White, A) => CastledSquares.whiteKing.0
    case (White, H) => CastledSquares.whiteKing.1
    case (Black, A) => CastledSquares.blackKing.0
    case (Black, H) => CastledSquares.blackKing.1
  }

  /** The rook's square after castling toward `dir` (`CASTLED_POSITIONS.*_ROOKS`). */
  function CastledRook(side: Side, dir: CastleDirection): Point {
    match (side, dir)
    case (White, A) => CastledSquares.whiteRooks.0
    case (White, H) => CastledSquares.whiteRooks.1
    case (Black, A) => CastledSquares.blackRooks.0
    case (Black, H) => CastledSquares.blackRooks.1
  }

  /** The columns `can_castle` scans for `dir` (`CASTLE_COLUMNS.0` or `.1`). */
  function CastleRange(dir: CastleDirection): (r: ColumnRange)
    ensures r.start < r.end <= Size
  {
    match dir
    case A => CastleColumns.0
    case H => CastleColumns.1
  }

  /**
   * The set-up constants agree with each other: every initial and castled
   * king and rook square lies on its side's home row, the castled king
   * column lies in the scanned range, and so does the king's home column.
   * The a-side range 2..5 leaves out column 1 (the b-file).
   */
  lemma CastleConstantsConsistent(side: Side, dir: CastleDirection)
    ensures InBounds(KingHome(side)) && KingHome(side).row == HomeRow(side) && KingHome(side).col == 4
    ensures InBounds(RookHome(side, dir)) && RookHome(side, dir).row == HomeRow(side)
    ensures RookHome(side, dir).col == (if dir == A then 0 else 7)
    ensures CastledKing(side, dir).row == HomeRow(side) && CastledRook(side, dir).row == HomeRow(side)
    ensures CastleRange(dir).start <= CastledKing(side, dir).col < CastleRange(dir).end
    ensures CastleRange(dir).start <= KingHome(side).col < CastleRange(dir).end
    ensures dir == A ==> !(CastleRange(dir).start <= 1 < CastleRange(dir).end)
  {
  }

  predicate Distinct4(a: int, b: int, c: int, d: int) {
    a != b && a != c && a != d && b != c && b != d && c != d
  }

  predicate Among4(i: int, a: int, b: int, c: int, d: int) {
    i == a || i == b || i == c || i == d
  }

  /** The squares a castle moves pieces to and from are on the board. */
  lemma CastleSquaresOnBoard(side: Side, dir: CastleDirection)
    ensures InBounds(RookHome(side, dir)) && InBounds(CastledKing(side, dir)) && InBounds(CastledRook(side, dir))
  {
    var row := HomeRow(side);
    assert RookHome(side, dir) == Point(row, if dir == A then 0 else 7);
    assert CastledKing(side, dir) == Point(row, if dir == A then 2 else 6);
    assert CastledRook(side, dir) == Point(row, if dir == A then 3 else 5);
  }

  /** The four castle squares of a side and direction are different squares. */
  lemma CastleSquaresDistinct(side: Side, dir: CastleDirection)
    ensures InBounds(KingHome(side)) && InBounds(RookHome(side, dir))
    ensures InBounds(CastledKing(side, dir)) && InBounds(CastledRook(side, dir))
    ensures Distinct4(Idx(KingHome(side)), Idx(RookHome(side, dir)), Idx(CastledKing(side, dir)), Idx(CastledRook(side, dir)))
  {
    var row := HomeRow(side);
    var rookCol, kingCol, castledRookCol := if dir == A then 0 else 7, if dir == A then 2 else 6, if dir == A then 3 else 5;
    assert KingHome(side) == Point(row, 4);
    assert RookHome(side, dir) == Point(row, rookCol);
    assert CastledKing(side, dir) == Point(row, kingCol);
    assert CastledRook(side, dir) == Point(row, castledRookCol);
    assert Idx(KingHome(side)) == row * 8 + 4;
    assert Idx(RookHome(side, dir)) == row * 8 + rookCol;
    assert Idx(CastledKing(side, dir)) == row * 8 + kingCol;
    assert Idx(CastledRook(side, dir)) == row * 8 + castledRookCol;
  }

  /** The back rank of a side, in board.rs order: R N B Q K B N R. */
  function BackRank(side: Side): seq<Square> {
    [FullSquare(side, Rook), FullSquare(side, Knight), FullSquare(side, Bishop), FullSquare(side, Queen),
     FullSquare(side, King), FullSquare(side, Bishop), FullSquare(side, Knight), FullSquare(side, Rook)]
  }

  function PawnRank(side: Side): seq<Square> {
    seq(8, i => FullSquare(side, Pawn))
  }

  function EmptyRank(): seq<Square> {
    seq(8, i => Empty)
  }

  /** The starting position built by `Game::new`. */
  function InitialBoard(): Grid {
    BackRank(White) + PawnRank(White) + EmptyRank() + EmptyRank() + EmptyRank() + EmptyRank()
    + PawnRank(Black) + BackRank(Black)
  }

  /** Row `r` of the initial board is the `r`-th rank of the literal. */
  lemma InitialBoardAt(r: int, c: int)
    requires 0 <= r < 8 && 0 <= c < 8
    ensures At(InitialBoard(), r, c) ==
      (if r == 0 then BackRank(White)[c]
       else if r == 1 then FullSquare(White, Pawn)
       else if r == 6 then FullSquare(Black, Pawn)
       else if r == 7 then BackRank(Black)[c]
       else Empty)
  {
  }

  /** The back ranks hold no pawn. */
  lemma BackRankNoPawn(side: Side, c: int)
    requires 0 <= c < 8
    ensures BackRank(side)[c].Full? && BackRank(side)[c].piece.typ != Pawn
  {
  }

  /** The starting pawns stand on row 1 (White) and row 6 (Black) only. */
  lemma InitialPawnRows(r: int, c: int)
    requires 0 <= r < 8 && 0 <= c < 8
    requires At(InitialBoard(), r, c).Full? && At(InitialBoard(), r, c).piece.typ == Pawn
    ensures At(InitialBoard(), r, c).piece.side == White ==> r == 1
    ensures At(InitialBoard(), r, c).piece.side == Black ==> r == 6
  {
    InitialBoardAt(r, c);
    if r == 0 || r == 7 {
      BackRankNoPawn(if r == 0 then White else Black, c);
    }
  }

  /**
   * The starting position: row 1 all White pawns, row 6 all Black pawns,
   * rows 2 to 5 empty, and exactly one king per side, White's at (0, 4)
   * and Black's at (7, 4).
   */
  lemma InitialBoardLayout()
    ensures forall c :: 0 <= c < 8 ==> At(InitialBoard(), 1, c) == FullSquare(White, Pawn)
    ensures forall c :: 0 <= c < 8 ==> At(InitialBoard(), 6, c) == FullSquare(Black, Pawn)
    ensures forall r, c :: 2 <= r <= 5 && 0 <= c < 8 ==> At(InitialBoard(), r, c) == Empty
    ensures forall r, c :: 0 <= r < 8 && 0 <= c < 8 ==>
      (At(InitialBoard(), r, c) == FullSquare(White, King) <==> r == 0 && c == 4)
    ensures forall r, c :: 0 <= r < 8 && 0 <= c < 8 ==>
      (At(InitialBoard(), r, c) == FullSquare(Black, King) <==> r == 7 && c == 4)
  {
    forall r, c | 0 <= r < 8 && 0 <= c < 8 {
      InitialBoardAt(r, c);
    }
  }
}
