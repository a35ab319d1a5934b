/**
 * The algebraic-notation front end: `parse_move` turns the text a player
 * typed into a `PlayerMove`, and `validate_move` rejects moves that are
 * obviously wrong for the current position before the game looks for a
 * matching piece.
 */
module MoveInput {
  import opened Wrappers
  import opened Board
  import Moves

  /** Which origin squares the player allowed: a rank, a file, or anything. */
  datatype File = Row(row: nat) | Column(col: nat) | Any

  datatype MoveType =
    | Move
    | Capture
    | Promotion(promote: PieceType)
    | CapturePromotion(promote: PieceType)
    | Castle(dir: CastleDirection)

  /** A parsed move: the piece letter, the origin filter, the target and the kind. */
  datatype PlayerMove = PlayerMove(piece: PieceType, from: File, to: Point, typ: MoveType)

  /** Why a text or a parsed move was refused; the source reports these as messages. */
  datatype InputError =
    | InvalidMove
    | InvalidPawnPromotion
    | InvalidPawnCapture
    | InvalidPawnMove
    | InvalidPieceMove(piece: PieceType)
    | MustPromote
    | InvalidCapture
    | InvalidCastle
    | CastleBlocked

  // ---------------------------------------------------------------------
  // Characters of the notation
  // ---------------------------------------------------------------------

  /** A rank digit `1`..`8`. */
  predicate IsRank(ch: char) {
    '1' <= ch <= '8'
  }

  /** A file letter `a`..`h`. */
  predicate IsFile(ch: char) {
    'a' <= ch <= 'h'
  }

  /** Board row of a rank digit (`to_digit(..) - 1`). */
  function RankIndex(ch: char): (r: nat)
    requires IsRank(ch)
    ensures r < Size
  {
    ch as int - '1' as int
  }

  /** Board column of a file letter (`ch as usize - 'a'`). */
  function FileIndex(ch: char): (c: nat)
    requires IsFile(ch)
    ensures c < Size
  {
    ch as int - 'a' as int
  }

  /** The digit naming row `r`. */
  function RankChar(r: nat): (ch: char)
    requires r < Size
    ensures IsRank(ch) && RankIndex(ch) == r
  {
    ('1' as int + r) as char
  }

  /** The letter naming column `c`. */
  function FileChar(c: nat): (ch: char)
    requires c < Size
    ensures IsFile(ch) && FileIndex(ch) == c
  {
    ('a' as int + c) as char
  }

  /** The piece letter that `get_type` maps back to `t`. */
  function PieceLetter(t: PieceType): (ch: char)
    ensures GetType(ch) == Some(t)
  {
    match t
    case Pawn => 'P'
    case Knight => 'N'
    case Bishop => 'B'
    case Rook => 'R'
    case Queen => 'Q'
    case King => 'K'
  }

  /** A square in algebraic notation, file then rank. */
  function SquareText(p: Point): (s: seq<char>)
    requires InBounds(p)
    ensures |s| == 2 && IsFile(s[0]) && IsRank(s[1]) && Point(RankIndex(s[1]), FileIndex(s[0])) == p
  {
    [FileChar(p.col), RankChar(p.row)]
  }

  // ---------------------------------------------------------------------
  // Parsing
  // ---------------------------------------------------------------------

  /** A promotion letter, accepted only for the four promotion pieces. */
  function PromotionLetter(ch: char): (r: Option<PieceType>)
    ensures r.Some? <==> GetType(ch).Some? && GetType(ch).value in PromotionPieces
    ensures r.Some? ==> r == GetType(ch)
  {
    match GetType(ch)
    case Some(promote) => if promote in PromotionPieces then Some(promote) else None
    case None => None
  }

  /** The pawn branch of `parse_move`: the first character is a file letter. */
  function ParsePawn(chars: seq<char>): (r: Result<PlayerMove, InputError>)
    requires |chars| >= 2 && IsFile(chars[0])
  {
    if |chars| == 2 && IsRank(chars[1]) then
      var col := FileIndex(chars[0]);
      Ok(PlayerMove(Pawn, Column(col), Point(RankIndex(chars[1]), col), MoveType.Move))
    else if |chars| == 4 then
      if chars[1] == 'x' && IsFile(chars[2]) && IsRank(chars[3]) then
        Ok(PlayerMove(Pawn, Column(FileIndex(chars[0])), Point(RankIndex(chars[3]), FileIndex(chars[2])), Capture))
      else if (chars[1] == '8' || chars[1] == '1') && chars[2] == '=' then
        match PromotionLetter(chars[3])
        case Some(promote) =>
          var col := FileIndex(chars[0]);
          Ok(PlayerMove(Pawn, Column(col), Point(RankIndex(chars[1]), col), Promotion(promote)))
        case None => Err(InvalidPawnPromotion)
      else Err(InvalidPawnCapture)
    else if |chars| == 6 && chars[1] == 'x' && IsFile(chars[2]) && IsRank(chars[3]) && chars[4] == '=' then
      match PromotionLetter(chars[5])
      case Some(promote) =>
        Ok(PlayerMove(Pawn, Column(FileIndex(chars[0])), Point(RankIndex(chars[3]), FileIndex(chars[2])),
                      CapturePromotion(promote)))
      case None => Err(InvalidPawnPromotion)
    else Err(InvalidPawnMove)
  }

  /** The origin filter named by a disambiguating rank digit or file letter, if it is one. */
  function FromChar(ch: char): (r: Option<File>)
    ensures r.Some? <==> IsRank(ch) || IsFile(ch)
  {
    if IsRank(ch) then Some(Row(RankIndex(ch)))
    else if IsFile(ch) then Some(Column(FileIndex(ch)))
    else None
  }

  /** The piece branch of `parse_move`: the first character is a piece letter. */
  function ParsePiece(piece: PieceType, chars: seq<char>): (r: Result<PlayerMove, InputError>)
    requires |chars| >= 2
  {
    if |chars| == 3 && IsFile(chars[1]) && IsRank(chars[2]) then
      Ok(PlayerMove(piece, Any, Point(RankIndex(chars[2]), FileIndex(chars[1])), MoveType.Move))
    else if |chars| == 4 && IsFile(chars[2]) && IsRank(chars[3]) then
      var to := Point(RankIndex(chars[3]), FileIndex(chars[2]));
      if chars[1] == 'x' then Ok(PlayerMove(piece, Any, to, Capture))
      else match FromChar(chars[1])
        case Some(from) => Ok(PlayerMove(piece, from, to, MoveType.Move))
        case None => Err(InvalidPieceMove(piece))
    else if |chars| == 5 && chars[2] == 'x' && IsFile(chars[3]) && IsRank(chars[4]) then
      match FromChar(chars[1])
      case Some(from) => Ok(PlayerMove(piece, from, Point(RankIndex(chars[4]), FileIndex(chars[3])), Capture))
      case None => Err(InvalidPieceMove(piece))
    else Err(InvalidPieceMove(piece))
  }

  /** `parse_move`: castles first, then pawn moves, then piece moves. */
  function ParseMove(input: seq<char>): (r: Result<PlayerMove, InputError>)
  {
    if |input| < 2 then Err(InvalidMove)
    else if input == "O-O" then Ok(PlayerMove(King, Any, Point(0, 0), Castle(H)))
    else if input == "O-O-O" then Ok(PlayerMove(King, Any, Point(0, 0), Castle(A)))
    else if IsFile(input[0]) then ParsePawn(input)
    else match GetType(input[0])
      case Some(piece) => ParsePiece(piece, input)
      case None => Err(InvalidMove)
  }

  // ---------------------------------------------------------------------
  // Rendering, the inverse of parsing
  // ---------------------------------------------------------------------

  predicate FromInBounds(from: File) {
    match from
    case Row(r) => r < Size
    case Column(c) => c < Size
    case Any => true
  }

  /**
   * The moves `parse_move` can produce: castles carry the unused target
   * (0, 0); promotions are pawn moves from the target's file to the first or
   * last rank; capture promotions start from some file; every other move
   * names any piece, any origin filter and any target on the board.
   */
  predicate Renderable(md: PlayerMove) {
    match md.typ
    case Castle(_) => md.piece == King && md.from == Any && md.to == Point(0, 0)
    case Promotion(p) =>
      md.piece == Pawn && md.from == Column(md.to.col) && InBounds(md.to)
      && (md.to.row == 0 || md.to.row == 7) && p in PromotionPieces
    case CapturePromotion(p) =>
      md.piece == Pawn && md.from.Column? && md.from.col < Size && InBounds(md.to) && p in PromotionPieces
    case _ => InBounds(md.to) && FromInBounds(md.from)
  }

  function FromText(from: File): seq<char>
    requires FromInBounds(from)
  {
    match from
    case Row(r) => [RankChar(r)]
    case Column(c) => [FileChar(c)]
    case Any => []
  }

  /**
   * Algebraic notation for a parsed move: the short pawn forms where they
   * say the same thing (`e4`, `exd5`, `e8=Q`, `exd8=Q`), the piece-letter
   * forms (`Nf3`, `Nxf3`, `Nbd2`, `R1xa3`, and `Pe4` for a pawn with no
   * origin file) otherwise.
   */
  function Render(md: PlayerMove): (s: seq<char>)
    requires Renderable(md)
  {
    match md.typ
    case Castle(dir) => if dir == H then "O-O" else "O-O-O"
    case Promotion(p) => [FileChar(md.to.col), RankChar(md.to.row), '=', PieceLetter(p)]
    case CapturePromotion(p) => [FileChar(md.from.col), 'x'] + SquareText(md.to) + ['=', PieceLetter(p)]
    case Move =>
      if md.piece == Pawn && md.from == Column(md.to.col) then SquareText(md.to)
      else [PieceLetter(md.piece)] + FromText(md.from) + SquareText(md.to)
    case Capture =>
      if md.piece == Pawn && md.from.Column? then [FileChar(md.from.col), 'x'] + SquareText(md.to)
      else [PieceLetter(md.piece)] + FromText(md.from) + ['x'] + SquareText(md.to)
  }

  /** Parsing the rendering of a move gives the move back. */
  lemma ParseRender(md: PlayerMove)
    requires Renderable(md)
    ensures ParseMove(Render(md)) == Ok(md)
  {
    var s := Render(md);
    match md.typ
    case Castle(dir) =>
    case Promotion(p) =>
      assert GetType(s[0]).None?;
      assert ParsePawn(s) == Ok(md);
    case CapturePromotion(p) =>
      assert ParsePawn(s) == Ok(md);
    case Move =>
      if md.piece == Pawn && md.from == Column(md.to.col) {
        assert ParsePawn(s) == Ok(md);
      } else {
        assert !IsFile(s[0]) && GetType(s[0]) == Some(md.piece);
        match md.from
        case Any =>
        case Row(r) =>
          assert FromChar(s[1]) == Some(md.from);
        case Column(c) =>
          assert FromChar(s[1]) == Some(md.from);
      }
    case Capture =>
      if md.piece == Pawn && md.from.Column? {
        assert ParsePawn(s) == Ok(md);
      } else {
        assert !IsFile(s[0]) && GetType(s[0]) == Some(md.piece);
        match md.from
        case Any =>
        case Row(r) =>
          assert FromChar(s[1]) == Some(md.from);
        case Column(c) =>
          assert FromChar(s[1]) == Some(md.from);
      }
  }

  /** Everything `parse_move` accepts is renderable, so rendering and reparsing recovers it. */
  lemma ParseRenderable(input: seq<char>)
    ensures ParseMove(input).Ok? ==> Renderable(ParseMove(input).value)
    ensures ParseMove(input).Ok? ==> ParseMove(Render(ParseMove(input).value)) == ParseMove(input)
  {
    if ParseMove(input).Ok? {
      ParseRender(ParseMove(input).value);
    }
  }

  /** Every successful parse names a target on the board, castles excepted. */
  lemma ParsedTargetInBounds(input: seq<char>)
    requires ParseMove(input).Ok? && !ParseMove(input).value.typ.Castle?
    ensures InBounds(ParseMove(input).value.to)
  {
    ParseRenderable(input);
  }

  /** Inputs too short to be a move, and the two castle strings. */
  lemma ParseMoveShortAndCastles(input: seq<char>)
    ensures |input| < 2 ==> ParseMove(input) == Err(InvalidMove)
    ensures ParseMove("O-O") == Ok(PlayerMove(King, Any, Point(0, 0), Castle(H)))
    ensures ParseMove("O-O-O") == Ok(PlayerMove(King, Any, Point(0, 0), Castle(A)))
    ensures ParseMove(input).Ok? && ParseMove(input).value.typ.Castle? ==> input == "O-O" || input == "O-O-O"
  {
  }

  /**
   * The pawn forms, which start with a file letter: a file and a rank is a
   * pawn push along that file; every promotion names one of the four
   * promotion pieces, and a plain promotion is written on rank 8 or 1.
   */
  lemma ParsePawnForms(input: seq<char>)
    requires |input| >= 2 && IsFile(input[0])
    ensures |input| == 2 && IsRank(input[1]) ==>
      ParseMove(input) == Ok(PlayerMove(Pawn, Column(FileIndex(input[0])), Point(RankIndex(input[1]), FileIndex(input[0])), MoveType.Move))
    ensures ParseMove(input).Ok? ==> ParseMove(input).value.piece == Pawn && ParseMove(input).value.from == Column(FileIndex(input[0]))
    ensures ParseMove(input).Ok? && ParseMove(input).value.typ.Promotion? ==>
      ParseMove(input).value.typ.promote in PromotionPieces && (input[1] == '8' || input[1] == '1')
    ensures ParseMove(input).Ok? && ParseMove(input).value.typ.CapturePromotion? ==>
      ParseMove(input).value.typ.promote in PromotionPieces && |input| == 6
    ensures |input| !in {2, 4, 6} ==> ParseMove(input) == Err(InvalidPawnMove)
  {
    assert input != "O-O" && input != "O-O-O";
  }

  /**
   * The piece forms, which start with a piece letter, by length: three
   * characters are a move from anywhere; four are a capture with `x`, or a
   * move from the rank or file named second; five are a capture from the
   * rank or file named second. Nothing else parses.
   */
  lemma ParsePieceForms(input: seq<char>)
    requires |input| >= 2 && GetType(input[0]).Some?
    ensures ParseMove(input).Ok? ==> ParseMove(input).value.piece == GetType(input[0]).value && |input| in {3, 4, 5}
    ensures ParseMove(input).Ok? && |input| == 3 ==> ParseMove(input).value.from == Any && ParseMove(input).value.typ == MoveType.Move
    ensures ParseMove(input).Ok? && |input| == 4 && input[1] == 'x' ==>
      ParseMove(input).value.from == Any && ParseMove(input).value.typ == Capture
    ensures ParseMove(input).Ok? && |input| == 4 && IsRank(input[1]) ==>
      ParseMove(input).value.from == Row(RankIndex(input[1])) && ParseMove(input).value.typ == MoveType.Move
    ensures ParseMove(input).Ok? && |input| == 4 && IsFile(input[1]) ==>
      ParseMove(input).value.from == Column(FileIndex(input[1])) && ParseMove(input).value.typ == MoveType.Move
    ensures ParseMove(input).Ok? && |input| == 5 ==>
      input[2] == 'x' && ParseMove(input).value.typ == Capture && ParseMove(input).value.from == FromChar(input[1]).value
  {
    assert !IsFile(input[0]);
    assert input != "O-O" && input != "O-O-O";
  }

  // ---------------------------------------------------------------------
  // Validation
  // ---------------------------------------------------------------------

  /** `validate_move` indexes the target square for these kinds and the king's for castles. */
  predicate ValidateReadsOnBoard(md: PlayerMove, kingPos: Point) {
    && (md.typ.Move? || md.typ.Capture? || md.typ.CapturePromotion? ==> InBounds(md.to))
    && (md.typ.Castle? ==> InBounds(kingPos))
  }

  /** The target is not on the side's promotion rank (`to.0 < 7` for White, `> 0` for Black). */
  predicate WrongPromotionRank(turn: Side, to: Point) {
    (turn == White && to.row < Size - 1) || (turn == Black && to.row > 0)
  }

  /** `validate_move`: the quick checks made before the game looks for the moving piece. */
  function ValidateMove(md: PlayerMove, turn: Side, g: Grid, rights: CastleRights, kingPos: Point)
    : (r: Result<(), InputError>)
    requires ValidateReadsOnBoard(md, kingPos)
    ensures md.typ.Move? ==>
      (r.Ok? <==> At(g, md.to.row, md.to.col) == Empty && !(md.piece == Pawn && (md.to.row == 0 || md.to.row == 7)))
    ensures md.typ.Move? && At(g, md.to.row, md.to.col) != Empty ==> r == Err(InvalidMove)
    ensures md.typ.Capture? ==> (r.Ok? <==> At(g, md.to.row, md.to.col) != Empty)
    ensures md.typ.Promotion? ==> (r.Ok? <==> !WrongPromotionRank(turn, md.to))
    ensures md.typ.CapturePromotion? ==>
      (r.Ok? <==> At(g, md.to.row, md.to.col) != Empty && !WrongPromotionRank(turn, md.to))
    ensures md.typ.Castle? ==>
      (r.Ok? <==> HasRight(rights, turn, md.typ.dir) && Moves.CanCastle(turn, md.typ.dir, g, kingPos))
    ensures md.typ.Castle? && !HasRight(rights, turn, md.typ.dir) ==> r == Err(InvalidCastle)
  {
    match md.typ
    case Move =>
      if At(g, md.to.row, md.to.col) != Empty then Err(InvalidMove)
      else if md.piece == Pawn && (md.to.row == 0 || md.to.row == Size - 1) then Err(MustPromote)
      else Ok(())
    case Capture =>
      if At(g, md.to.row, md.to.col) == Empty then Err(InvalidCapture) else Ok(())
    case Promotion(_) =>
      if WrongPromotionRank(turn, md.to) then Err(InvalidPawnPromotion) else Ok(())
    case CapturePromotion(_) =>
      if At(g, md.to.row, md.to.col) == Empty then Err(InvalidCapture)
      else if WrongPromotionRank(turn, md.to) then Err(InvalidPawnPromotion)
      else Ok(())
    case Castle(dir) =>
      if !HasRight(rights, turn, dir) then Err(InvalidCastle)
      else if !Moves.CanCastle(turn, dir, g, kingPos) then Err(CastleBlocked)
      else Ok(())
  }

  /** A pawn capture without promotion onto the first or last rank. */
  predicate LastRankPawnCapture(md: PlayerMove) {
    md.typ.Capture? && md.piece == Pawn && (md.to.row == 0 || md.to.row == Size - 1)
  }

  /**
   * `validate_move` as its plain-move branch evidently intends it for
   * captures too: a pawn capture onto the first or last rank must be
   * written as a capture promotion. Every other input gets the verdict of
   * `validate_move`.
   */
  function ValidateMoveIntended(md: PlayerMove, turn: Side, g: Grid, rights: CastleRights, kingPos: Point)
    : (r: Result<(), InputError>)
    requires ValidateReadsOnBoard(md, kingPos)
    ensures r.Ok? <==> ValidateMove(md, turn, g, rights, kingPos).Ok? && !LastRankPawnCapture(md)
    ensures !LastRankPawnCapture(md) ==> r == ValidateMove(md, turn, g, rights, kingPos)
    ensures LastRankPawnCapture(md) && At(g, md.to.row, md.to.col) != Empty ==> r == Err(MustPromote)
  {
    match ValidateMove(md, turn, g, rights, kingPos)
    case Err(e) => Err(e)
    case Ok(_) => if LastRankPawnCapture(md) then Err(MustPromote) else Ok(())
  }

  /** `validate_move` on the game's board; the castle path is scanned by `can_castle`. */
  method Validate(md: PlayerMove, turn: Side, board: array<Square>, rights: CastleRights, kingPos: Point)
    returns (r: Result<(), InputError>)
    requires board.Length == 64 && ValidateReadsOnBoard(md, kingPos)
    ensures r == ValidateMove(md, turn, board[..], rights, kingPos)
  {
    match md.typ {
      case Move =>
        if board[Idx(md.to)] != Empty {
          return Err(InvalidMove);
        }
        if md.piece == Pawn && (md.to.row == 0 || md.to.row == Size - 1) {
          return Err(MustPromote);
        }
      case Capture =>
        if board[Idx(md.to)] == Empty {
          return Err(InvalidCapture);
        }
      case Promotion(_) =>
        if WrongPromotionRank(turn, md.to) {
          return Err(InvalidPawnPromotion);
        }
      case CapturePromotion(_) =>
        if board[Idx(md.to)] == Empty {
          return Err(InvalidCapture);
        }
        if WrongPromotionRank(turn, md.to) {
          return Err(InvalidPawnPromotion);
        }
      case Castle(dir) =>
        if !HasRight(rights, turn, dir) {
          return Err(InvalidCastle);
        }
        var clear := Moves.CanCastleScan(turn, dir, board, kingPos);
        if !clear {
          return Err(CastleBlocked);
        }
    }
    r := Ok(());
  }

  /**
   * Validation does not stop a pawn from capturing onto the last rank
   * without promoting: `exd8` with a piece on d8 passes, and the move is
   * then made as a plain pawn move onto that rank.
   */
  lemma PawnCaptureOntoLastRankPasses(turn: Side, g: Grid, rights: CastleRights, kingPos: Point, from: nat, to: Point)
    requires InBounds(to) && (to.row == 0 || to.row == 7) && At(g, to.row, to.col) != Empty
    ensures ValidateMove(PlayerMove(Pawn, Column(from), to, Capture), turn, g, rights, kingPos) == Ok(())
  {
  }
}
