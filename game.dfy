/**
 * The game: the state of `Game`, making a parsed move (the commit part of
 * `player_move`), the candidate search behind it (`get_possible_moves`,
 * `get_moves`), the end-of-game test (`get_game_result`) and the starting
 * position (`Game::new`).
 */
module Game {
  import opened Wrappers
  import opened Board
  import opened Bits
  import Moves
  import MoveInput
  import Zobrist

  datatype DrawType = Repetition | Stalemate | Material | FiftyMove

  /** `GameResult`; the source's `None` variant is `NoResult` here. */
  datatype GameResult = Win(winner: Side) | Draw(draw: DrawType) | NoResult

  /** Why `player_move` refused a validated move. */
  datatype MoveError =
    | Rejected(reason: MoveInput.InputError)  // `validate_move` refused the move
    | NotAMove            // no piece of the requested kind can reach the target
    | LeavesKingInCheck   // every candidate leaves the king attacked
    | Ambiguous           // more than one candidate is legal

  /** The fields of `Game` that the rules read, as a value. */
  datatype State = State(
    turn: Side,
    board: Grid,
    kings: KingPositions,
    rights: CastleRights,
    pawnDoubleMoved: Option<Point>,
    lastActivePly: nat)

  /** The king cache of both sides points at the board. */
  predicate KingsOnBoard(s: State) {
    InBounds(s.kings.white) && InBounds(s.kings.black)
  }

  // ---------------------------------------------------------------------
  // get_moves
  // ---------------------------------------------------------------------

  /** The squares `get_moves` reads are on the board; only the pawn generator can step off it. */
  predicate MovesDefined(piece: Piece, p: Point, s: State) {
    InBounds(p) && (piece.typ == Pawn ==> Moves.PawnReadsOnBoard(piece.side, p.row, p.col, s.board, s.pawnDoubleMoved))
  }

  /** Every piece on the board can be asked for its moves. */
  predicate AllMovesDefined(s: State) {
    forall i :: 0 <= i < 64 && s.board[i].Full? ==> MovesDefined(s.board[i].piece, SquareAt(i), s)
  }

  /** Offset destinations are on the board. */
  lemma OffsetTargetsOnBoard(side: Side, p: Point, g: Grid, ds: seq<(int, int)>)
    requires InBounds(p)
    ensures forall t :: t in Moves.OffsetTargets(side, p.row, p.col, g, ds) ==> InBounds(t)
  {
    forall t | t in Moves.OffsetTargets(side, p.row, p.col, g, ds) {
      Moves.OffsetTargetsExact(side, p.row, p.col, g, ds, t);
    }
  }

  /** `get_moves`: the generator of the piece's type. */
  function MovesOf(piece: Piece, p: Point, s: State): (ts: seq<Point>)
    requires MovesDefined(piece, p, s)
    ensures forall k :: 0 <= k < |ts| ==> InBounds(ts[k])
    ensures forall t :: t in ts ==> InBounds(t)
  {
    match piece.typ
    case Pawn => Moves.PawnMoves(piece.side, p.row, p.col, s.board, s.pawnDoubleMoved)
    case Knight =>
      OffsetTargetsOnBoard(piece.side, p, s.board, Moves.KnightMoves);
      Moves.OffsetTargets(piece.side, p.row, p.col, s.board, Moves.KnightMoves)
    case Bishop =>
      Moves.DirTargetsNotFriendly(piece.side, p.row, p.col, s.board, Moves.BishopDirections);
      Moves.DirTargets(piece.side, p.row, p.col, s.board, Moves.BishopDirections)
    case Rook =>
      Moves.DirTargetsNotFriendly(piece.side, p.row, p.col, s.board, Moves.RookDirections);
      Moves.DirTargets(piece.side, p.row, p.col, s.board, Moves.RookDirections)
    case Queen =>
      Moves.DirTargetsNotFriendly(piece.side, p.row, p.col, s.board, Moves.BishopDirections + Moves.RookDirections);
      Moves.DirTargets(piece.side, p.row, p.col, s.board, Moves.BishopDirections + Moves.RookDirections)
    case King =>
      OffsetTargetsOnBoard(piece.side, p, s.board, Moves.KingMoves);
      Moves.OffsetTargets(piece.side, p.row, p.col, s.board, Moves.KingMoves)
  }

  // ---------------------------------------------------------------------
  // get_possible_moves
  // ---------------------------------------------------------------------

  /** The origin filter of a parsed move. */
  predicate FileMatches(from: MoveInput.File, p: Point) {
    match from
    case Row(row) => row == p.row
    case Column(col) => col == p.col
    case Any => true
  }

  /** Square `i` holds a piece the request may move: filter, side to move and requested type. */
  predicate Candidate(md: MoveInput.PlayerMove, s: State, i: nat)
    requires i < 64
  {
    && FileMatches(md.from, SquareAt(i))
    && s.board[i].Full?
    && s.board[i].piece.side == s.turn
    && s.board[i].piece.typ == md.piece
  }

  /** Every candidate square can be asked for its moves. */
  predicate RequestDefined(md: MoveInput.PlayerMove, s: State) {
    forall i :: 0 <= i < 64 && Candidate(md, s, i) ==> MovesDefined(s.board[i].piece, SquareAt(i), s)
  }

  /** The moves from `p` to the destinations in `ts` that equal `to`, in order. */
  function MatchTo(p: Point, ts: seq<Point>, to: Point): (ms: seq<Move>)
    decreases |ts|
  {
    if ts == [] then []
    else
      MatchTo(p, ts[..|ts| - 1], to) + (if ts[|ts| - 1] == to then [Move(p, to)] else [])
  }

  /** `MatchTo` yields the move to `to` exactly when `to` is among the destinations. */
  lemma {:induction false} MatchToExact(p: Point, ts: seq<Point>, to: Point, m: Move)
    ensures m in MatchTo(p, ts, to) <==> m == Move(p, to) && to in ts
    decreases |ts|
  {
    if ts != [] {
      var init := ts[..|ts| - 1];
      MatchToExact(p, init, to, m);
      assert ts == init + [ts[|ts| - 1]];
    }
  }

  /** The request's moves from square `i`: none unless its piece is a candidate. */
  function FromSquare(md: MoveInput.PlayerMove, s: State, i: nat): (ms: seq<Move>)
    requires i < 64 && RequestDefined(md, s)
  {
    if Candidate(md, s, i) then MatchTo(SquareAt(i), MovesOf(s.board[i].piece, SquareAt(i), s), md.to)
    else []
  }

  /** `get_possible_moves` after the loops have visited the first `n` squares. */
  function PossibleUpTo(md: MoveInput.PlayerMove, s: State, n: nat): (ms: seq<Move>)
    requires n <= 64 && RequestDefined(md, s)
  {
    if n == 0 then [] else PossibleUpTo(md, s, n - 1) + FromSquare(md, s, n - 1)
  }

  /** The candidates of a parsed move: `get_possible_moves` over the whole board. */
  function PossibleMoves(md: MoveInput.PlayerMove, s: State): (ms: seq<Move>)
    requires RequestDefined(md, s)
    ensures Moves.AllInBounds(ms)
  {
    PossibleUpToInBounds(md, s);
    PossibleUpTo(md, s, 64)
  }

  /** A candidate: a piece the request names, on a matching square, that can reach the target. */
  predicate IsCandidate(md: MoveInput.PlayerMove, s: State, m: Move)
    requires RequestDefined(md, s)
  {
    && InBounds(m.from)
    && Candidate(md, s, Idx(m.from))
    && m.to == md.to
    && (SquareAtIdx(m.from);
        md.to in MovesOf(s.board[Idx(m.from)].piece, m.from, s))
  }

  lemma {:induction false} PossibleUpToExact(md: MoveInput.PlayerMove, s: State, n: nat, m: Move)
    requires n <= 64 && RequestDefined(md, s)
    ensures m in PossibleUpTo(md, s, n) <==> IsCandidate(md, s, m) && Idx(m.from) < n
    decreases n
  {
    if n > 0 {
      PossibleUpToExact(md, s, n - 1, m);
      var p := SquareAt(n - 1);
      assert PossibleUpTo(md, s, n) == PossibleUpTo(md, s, n - 1) + FromSquare(md, s, n - 1);
      var here := IsCandidate(md, s, m) && Idx(m.from) == n - 1;
      if InBounds(m.from) && Idx(m.from) == n - 1 {
        SquareAtIdx(m.from);
        assert m.from == p;
      }
      if Candidate(md, s, n - 1) {
        var ts := MovesOf(s.board[n - 1].piece, p, s);
        MatchToExact(p, ts, md.to, m);
        assert m in FromSquare(md, s, n - 1) <==> here;
      } else {
        assert FromSquare(md, s, n - 1) == [];
        assert !here;
      }
    }
  }

  /** Every candidate `get_possible_moves` yields starts and ends on the board. */
  lemma PossibleUpToInBounds(md: MoveInput.PlayerMove, s: State)
    requires RequestDefined(md, s)
    ensures Moves.AllInBounds(PossibleUpTo(md, s, 64))
  {
    forall m | m in PossibleUpTo(md, s, 64)
      ensures InBounds(m.from) && InBounds(m.to)
    {
      PossibleUpToExact(md, s, 64, m);
      SquareAtIdx(m.from);
      var ts := MovesOf(s.board[Idx(m.from)].piece, m.from, s);
      assert m.to in ts;
    }
  }

  /** `get_possible_moves` yields exactly the candidates of the request. */
  lemma PossibleMovesExact(md: MoveInput.PlayerMove, s: State, m: Move)
    requires RequestDefined(md, s)
    ensures m in PossibleMoves(md, s) <==> IsCandidate(md, s, m)
  {
    PossibleUpToExact(md, s, 64, m);
  }

  /** `get_moves` never lists a destination twice. */
  lemma MovesOfNoDup(piece: Piece, p: Point, s: State)
    requires MovesDefined(piece, p, s)
    ensures Moves.NoDup(MovesOf(piece, p, s))
  {
    Moves.TablesNoDup();
    match piece.typ
    case Pawn => Moves.PawnMovesNoDup(piece.side, p.row, p.col, s.board, s.pawnDoubleMoved);
    case Knight => Moves.OffsetTargetsNoDup(piece.side, p.row, p.col, s.board, Moves.KnightMoves);
    case Bishop => Moves.DirTargetsNoDup(piece.side, p.row, p.col, s.board, Moves.BishopDirections);
    case Rook => Moves.DirTargetsNoDup(piece.side, p.row, p.col, s.board, Moves.RookDirections);
    case Queen =>
      Moves.AllDirectionsAppend(Moves.BishopDirections, Moves.RookDirections);
      Moves.DirTargetsNoDup(piece.side, p.row, p.col, s.board, Moves.BishopDirections + Moves.RookDirections);
    case King => Moves.OffsetTargetsNoDup(piece.side, p.row, p.col, s.board, Moves.KingMoves);
  }

  /** From a duplicate-free list of destinations at most one move matches. */
  lemma {:induction false} MatchToAtMostOne(p: Point, ts: seq<Point>, to: Point)
    requires Moves.NoDup(ts)
    ensures |MatchTo(p, ts, to)| <= 1
    decreases |ts|
  {
    if ts != [] {
      var init := ts[..|ts| - 1];
      MatchToAtMostOne(p, init, to);
      if ts[|ts| - 1] == to && MatchTo(p, init, to) != [] {
        MatchToExact(p, init, to, MatchTo(p, init, to)[0]);
      }
    }
  }

  /** The candidates gathered over the first `n` squares are pairwise distinct. */
  lemma {:induction false} PossibleUpToNoDup(md: MoveInput.PlayerMove, s: State, n: nat)
    requires n <= 64 && RequestDefined(md, s)
    ensures Moves.NoDup(PossibleUpTo(md, s, n))
    decreases n
  {
    if n > 0 {
      var front := PossibleUpTo(md, s, n - 1);
      var here := FromSquare(md, s, n - 1);
      PossibleUpToNoDup(md, s, n - 1);
      if Candidate(md, s, n - 1) {
        var p := SquareAt(n - 1);
        MovesOfNoDup(s.board[n - 1].piece, p, s);
        MatchToAtMostOne(p, MovesOf(s.board[n - 1].piece, p, s), md.to);
        forall m | m in front ensures m !in here {
          PossibleUpToExact(md, s, n - 1, m);
          MatchToExact(p, MovesOf(s.board[n - 1].piece, p, s), md.to, m);
        }
      }
      Moves.NoDupAppend(front, here);
    }
  }

  // ---------------------------------------------------------------------
  // The commit part of player_move, as a function of the state
  // ---------------------------------------------------------------------

  /**
   * The four writes of a castle, in source order: king and rook onto their
   * castled squares, then both origins emptied. When the four squares are
   * distinct, each lands where it should and nothing else moves.
   */
  function CastleBoard(g: Grid, kingPos: Point, rookPos: Point, kingMov: Point, rookMov: Point): Grid
    requires InBounds(kingPos) && InBounds(rookPos) && InBounds(kingMov) && InBounds(rookMov)
  {
    var b1 := g[Idx(kingMov) := g[Idx(kingPos)]];
    var b2 := b1[Idx(rookMov) := b1[Idx(rookPos)]];
    var b3 := b2[Idx(kingPos) := Empty];
    b3[Idx(rookPos) := Empty]
  }

  lemma CastleBoardEffect(g: Grid, kingPos: Point, rookPos: Point, kingMov: Point, rookMov: Point)
    requires InBounds(kingPos) && InBounds(rookPos) && InBounds(kingMov) && InBounds(rookMov)
    requires Distinct4(Idx(kingPos), Idx(rookPos), Idx(kingMov), Idx(rookMov))
    ensures var b := CastleBoard(g, kingPos, rookPos, kingMov, rookMov);
      && b[Idx(kingMov)] == g[Idx(kingPos)] && b[Idx(rookMov)] == g[Idx(rookPos)]
      && b[Idx(kingPos)] == Empty && b[Idx(rookPos)] == Empty
      && forall i :: 0 <= i < 64 && !Among4(i, Idx(kingPos), Idx(rookPos), Idx(kingMov), Idx(rookMov)) ==> b[i] == g[i]
  {
  }

  /** The castle branch: king and rook to their castled squares, the king cache, the rights and the turn. */
  function CastleCommit(s: State, dir: CastleDirection): (t: State)
    requires InBounds(GetPos(s.kings, s.turn))
    ensures t.turn == Opposite(s.turn)
    ensures t.kings == SetPos(s.kings, s.turn, CastledKing(s.turn, dir))
    ensures t.rights == RevokeAll(s.rights, s.turn)
    ensures t.lastActivePly == s.lastActivePly && t.pawnDoubleMoved == s.pawnDoubleMoved
  {
    CastleSquaresOnBoard(s.turn, dir);
    var kingMov := CastledKing(s.turn, dir);
    var board := CastleBoard(s.board, GetPos(s.kings, s.turn), RookHome(s.turn, dir), kingMov, CastledRook(s.turn, dir));
    State(Opposite(s.turn), board, SetPos(s.kings, s.turn, kingMov), RevokeAll(s.rights, s.turn),
          s.pawnDoubleMoved, s.lastActivePly)
  }

  /**
   * With the king on its home square, the castle commit puts the king and
   * the rook on their castled squares, empties both home squares and
   * leaves every other square alone.
   */
  lemma CastleCommitBoard(s: State, dir: CastleDirection)
    requires GetPos(s.kings, s.turn) == KingHome(s.turn)
    ensures var t := CastleCommit(s, dir);
      && InBounds(CastledKing(s.turn, dir)) && InBounds(CastledRook(s.turn, dir)) && InBounds(RookHome(s.turn, dir))
      && t.board[Idx(CastledKing(s.turn, dir))] == s.board[Idx(KingHome(s.turn))]
      && t.board[Idx(CastledRook(s.turn, dir))] == s.board[Idx(RookHome(s.turn, dir))]
      && t.board[Idx(KingHome(s.turn))] == Empty
      && t.board[Idx(RookHome(s.turn, dir))] == Empty
      && forall i :: 0 <= i < 64 && !Among4(i, Idx(CastledKing(s.turn, dir)), Idx(CastledRook(s.turn, dir)),
                                            Idx(KingHome(s.turn)), Idx(RookHome(s.turn, dir)))
           ==> t.board[i] == s.board[i]
  {
    CastleSquaresDistinct(s.turn, dir);
    CastleBoardEffect(s.board, KingHome(s.turn), RookHome(s.turn, dir), CastledKing(s.turn, dir), CastledRook(s.turn, dir));
  }

  /** The piece that lands on the target: the promoted piece, or the mover itself. */
  function Placed(s: State, md: MoveInput.PlayerMove, from: Point): (sq: Square)
    requires InBounds(from)
    ensures md.typ.Promotion? || md.typ.CapturePromotion? ==> sq == FullSquare(s.turn, md.typ.promote)
    ensures !(md.typ.Promotion? || md.typ.CapturePromotion?) ==> sq == s.board[Idx(from)]
  {
    match md.typ
    case Promotion(piece) => FullSquare(s.turn, piece)
    case CapturePromotion(piece) => FullSquare(s.turn, piece)
    case _ => s.board[Idx(from)]
  }

  /**
   * Castle rights after a non-castle move: a king move clears both of the
   * mover's rights, a rook move from one of its corners clears that one,
   * and the opponent's rights never change (capturing a rook does not
   * clear them).
   */
  function RightsAfter(rights: CastleRights, side: Side, piece: PieceType, from: Point): (r: CastleRights)
    ensures forall d :: HasRight(r, Opposite(side), d) == HasRight(rights, Opposite(side), d)
    ensures piece == King ==> forall d :: !HasRight(r, side, d)
    ensures piece == Rook ==> forall d :: HasRight(r, side, d) == (HasRight(rights, side, d) && from != RookHome(side, d))
    ensures piece != King && piece != Rook ==> r == rights
  {
    if piece == King then RevokeAll(rights, side)
    else if piece == Rook then
      if from == RookHome(side, A) then RevokeOne(rights, side, A)
      else if from == RookHome(side, H) then RevokeOne(rights, side, H)
      else rights
    else rights
  }

  /**
   * The half-move clock after a non-castle move: reset by a pawn move, a
   * capture or a promotion, otherwise one more.
   */
  function ClockAfter(ply: nat, md: MoveInput.PlayerMove): (c: nat)
    ensures c == 0 || c == ply + 1
    ensures c == 0 <==> !md.typ.Castle? && (md.piece == Pawn || !md.typ.Move?)
  {
    match md.typ
    case Move => if md.piece == Pawn then 0 else ply + 1
    case Capture => 0
    case Promotion(_) => 0
    case CapturePromotion(_) => 0
    case Castle(_) => ply + 1
  }

  /** The non-castle branch once the single legal move `mov` is known. */
  function MoveCommit(s: State, md: MoveInput.PlayerMove, mov: Move): State
    requires InBounds(mov.from) && InBounds(mov.to)
  {
    var board := s.board[Idx(mov.to) := Placed(s, md, mov.from)][Idx(mov.from) := Empty];
    State(
      Opposite(s.turn),
      board,
      if md.piece == King then SetPos(s.kings, s.turn, mov.to) else s.kings,
      RightsAfter(s.rights, s.turn, md.piece, mov.from),
      s.pawnDoubleMoved,
      ClockAfter(s.lastActivePly, md))
  }

  /**
   * Making a move empties its origin, puts the moved (or promoted) piece
   * on its target, leaves every other square alone, follows the king with
   * the king cache, updates the rights and the clock, and passes the turn.
   */
  lemma MoveCommitEffect(s: State, md: MoveInput.PlayerMove, mov: Move)
    requires InBounds(mov.from) && InBounds(mov.to)
    ensures var t := MoveCommit(s, md, mov);
      && t.turn == Opposite(s.turn)
      && t.board[Idx(mov.from)] == Empty
      && (mov.from != mov.to ==> t.board[Idx(mov.to)] == Placed(s, md, mov.from))
      && (forall i :: 0 <= i < 64 && i != Idx(mov.from) && i != Idx(mov.to) ==> t.board[i] == s.board[i])
      && (md.piece == King ==> GetPos(t.kings, s.turn) == mov.to)
      && GetPos(t.kings, Opposite(s.turn)) == GetPos(s.kings, Opposite(s.turn))
      && (md.piece != King ==> t.kings == s.kings)
      && t.rights == RightsAfter(s.rights, s.turn, md.piece, mov.from)
      && t.lastActivePly == ClockAfter(s.lastActivePly, md)
      && t.pawnDoubleMoved == s.pawnDoubleMoved
  {
    if mov.from != mov.to {
      assert Idx(mov.from) != Idx(mov.to);
    }
  }

  /** What the commit may read is on the board. */
  predicate CommitDefined(s: State, md: MoveInput.PlayerMove) {
    InBounds(GetPos(s.kings, s.turn)) && (!md.typ.Castle? ==> RequestDefined(md, s))
  }

  /** The commit part of `player_move` for a parsed and validated move. */
  function CommitSpec(s: State, md: MoveInput.PlayerMove): (r: Result<State, MoveError>)
    requires CommitDefined(s, md)
    ensures r.Ok? ==> r.value.turn == Opposite(s.turn)
    ensures md.typ.Castle? ==> r.Ok?
  {
    match md.typ
    case Castle(dir) => Ok(CastleCommit(s, dir))
    case _ =>
      var possible := PossibleMoves(md, s);
      if |possible| == 0 then Err(NotAMove)
      else
        var legal := Moves.LegalMoves(s.turn, possible, s.board, GetPos(s.kings, s.turn));
        Moves.LegalMovesSubset(s.turn, possible, s.board, GetPos(s.kings, s.turn));
        if |legal| == 0 then Err(LeavesKingInCheck)
        else if |legal| > 1 then Err(Ambiguous)
        else Ok(MoveCommit(s, md, legal[0]))
  }

  /** A candidate that keeps the mover's king safe. */
  predicate IsLegalCandidate(md: MoveInput.PlayerMove, s: State, m: Move)
    requires RequestDefined(md, s) && InBounds(GetPos(s.kings, s.turn))
  {
    IsCandidate(md, s, m) && InBounds(m.to) && Moves.KeepsKingSafe(s.turn, m, s.board, GetPos(s.kings, s.turn))
  }

  /** A non-castle commit fails with "not a move" exactly when the request has no candidate. */
  lemma CommitNotAMove(s: State, md: MoveInput.PlayerMove)
    requires CommitDefined(s, md) && !md.typ.Castle?
    ensures CommitSpec(s, md) == Err(NotAMove) <==> forall m :: !IsCandidate(md, s, m)
  {
    var possible := PossibleMoves(md, s);
    if |possible| == 0 {
      forall m ensures !IsCandidate(md, s, m) {
        PossibleMovesExact(md, s, m);
      }
    } else {
      PossibleMovesExact(md, s, possible[0]);
    }
  }

  /**
   * A non-castle commit fails with "leaves the king in check" exactly when
   * there are candidates and none of them keeps the king safe.
   */
  lemma CommitNoLegalMove(s: State, md: MoveInput.PlayerMove)
    requires CommitDefined(s, md) && !md.typ.Castle?
    ensures CommitSpec(s, md) == Err(LeavesKingInCheck) <==>
      (exists m :: IsCandidate(md, s, m)) && forall m :: !IsLegalCandidate(md, s, m)
  {
    var kingPos := GetPos(s.kings, s.turn);
    var possible := PossibleMoves(md, s);
    var legal := Moves.LegalMoves(s.turn, possible, s.board, kingPos);
    if possible != [] {
      PossibleMovesExact(md, s, possible[0]);
    }
    if exists m :: IsCandidate(md, s, m) {
      var m :| IsCandidate(md, s, m);
      PossibleMovesExact(md, s, m);
    }
    if legal != [] {
      LegalCandidates(md, s, legal[0]);
    }
    forall m | legal == [] ensures !IsLegalCandidate(md, s, m) {
      LegalCandidates(md, s, m);
    }
  }

  /** The legality filter over the candidates keeps exactly the legal candidates. */
  lemma LegalCandidates(md: MoveInput.PlayerMove, s: State, m: Move)
    requires CommitDefined(s, md) && !md.typ.Castle?
    ensures m in Moves.LegalMoves(s.turn, PossibleMoves(md, s), s.board, GetPos(s.kings, s.turn))
            <==> IsLegalCandidate(md, s, m)
  {
    PossibleMovesExact(md, s, m);
    Moves.LegalMovesExact(s.turn, PossibleMoves(md, s), s.board, GetPos(s.kings, s.turn), m);
  }

  /**
   * A non-castle commit succeeds only with a single candidate that keeps
   * the king safe, and that candidate is the move made.
   */
  lemma CommitUniqueMove(s: State, md: MoveInput.PlayerMove)
    requires CommitDefined(s, md) && !md.typ.Castle?
    requires CommitSpec(s, md).Ok?
    ensures exists mov ::
      && IsLegalCandidate(md, s, mov)
      && CommitSpec(s, md).value == MoveCommit(s, md, mov)
      && forall m :: IsLegalCandidate(md, s, m) ==> m == mov
  {
    var legal := Moves.LegalMoves(s.turn, PossibleMoves(md, s), s.board, GetPos(s.kings, s.turn));
    assert |legal| == 1;
    var mov := legal[0];
    assert legal == [mov];
    LegalCandidates(md, s, mov);
    forall m | IsLegalCandidate(md, s, m) ensures m == mov {
      LegalCandidates(md, s, m);
      assert m in [mov];
    }
  }

  /** The candidates that pass the filter are pairwise distinct. */
  lemma LegalCandidatesNoDup(md: MoveInput.PlayerMove, s: State)
    requires CommitDefined(s, md) && !md.typ.Castle?
    ensures Moves.NoDup(Moves.LegalMoves(s.turn, PossibleMoves(md, s), s.board, GetPos(s.kings, s.turn)))
  {
    PossibleUpToNoDup(md, s, 64);
    Moves.LegalMovesNoDup(s.turn, PossibleMoves(md, s), s.board, GetPos(s.kings, s.turn));
  }

  /** A non-castle commit is ambiguous exactly when two different candidates keep the king safe. */
  lemma CommitAmbiguous(s: State, md: MoveInput.PlayerMove)
    requires CommitDefined(s, md) && !md.typ.Castle?
    ensures CommitSpec(s, md) == Err(Ambiguous) <==>
      exists m1, m2 :: IsLegalCandidate(md, s, m1) && IsLegalCandidate(md, s, m2) && m1 != m2
  {
    var legal := Moves.LegalMoves(s.turn, PossibleMoves(md, s), s.board, GetPos(s.kings, s.turn));
    LegalCandidatesNoDup(md, s);
    if |legal| > 1 {
      LegalCandidates(md, s, legal[0]);
      LegalCandidates(md, s, legal[1]);
    }
    if exists m1, m2 :: IsLegalCandidate(md, s, m1) && IsLegalCandidate(md, s, m2) && m1 != m2 {
      var m1, m2 :| IsLegalCandidate(md, s, m1) && IsLegalCandidate(md, s, m2) && m1 != m2;
      LegalCandidates(md, s, m1);
      LegalCandidates(md, s, m2);
      assert |legal| > 1;
    }
  }

  /** A single candidate that keeps the king safe is the move the commit makes. */
  lemma CommitMakesUniqueMove(s: State, md: MoveInput.PlayerMove, mov: Move)
    requires CommitDefined(s, md) && !md.typ.Castle?
    requires IsLegalCandidate(md, s, mov)
    requires forall m :: IsLegalCandidate(md, s, m) ==> m == mov
    ensures CommitSpec(s, md) == Ok(MoveCommit(s, md, mov))
  {
    var legal := Moves.LegalMoves(s.turn, PossibleMoves(md, s), s.board, GetPos(s.kings, s.turn));
    LegalCandidatesNoDup(md, s);
    LegalCandidates(md, s, mov);
    forall k | 0 <= k < |legal| ensures legal[k] == mov {
      LegalCandidates(md, s, legal[k]);
    }
    Moves.NoDupSingle(legal, mov);
  }

  // ---------------------------------------------------------------------
  // get_game_result, as a function of the state
  // ---------------------------------------------------------------------

  // ---------------------------------------------------------------------
  // player_move once the input is parsed: validation, then the commit
  // ---------------------------------------------------------------------

  /** What validation and the commit may read is on the board. */
  predicate PlayDefined(s: State, md: MoveInput.PlayerMove) {
    CommitDefined(s, md) && MoveInput.ValidateReadsOnBoard(md, GetPos(s.kings, s.turn))
  }

  /** `player_move` for a parsed move: a move validation refuses is reported, any other is committed. */
  function PlayerMoveSpec(s: State, md: MoveInput.PlayerMove): (r: Result<State, MoveError>)
    requires PlayDefined(s, md)
  {
    match MoveInput.ValidateMove(md, s.turn, s.board, s.rights, GetPos(s.kings, s.turn))
    case Err(e) => Err(Rejected(e))
    case Ok(_) => CommitSpec(s, md)
  }

  /**
   * A castle is made exactly when the side still holds that right and
   * `can_castle` passes; it then takes away both of the side's rights and
   * passes the turn.
   */
  lemma PlayerMoveCastle(s: State, md: MoveInput.PlayerMove)
    requires PlayDefined(s, md) && md.typ.Castle?
    ensures PlayerMoveSpec(s, md).Ok? <==>
      HasRight(s.rights, s.turn, md.typ.dir) && Moves.CanCastle(s.turn, md.typ.dir, s.board, GetPos(s.kings, s.turn))
    ensures PlayerMoveSpec(s, md).Ok? ==>
      && PlayerMoveSpec(s, md).value == CastleCommit(s, md.typ.dir)
      && PlayerMoveSpec(s, md).value.turn == Opposite(s.turn)
      && forall d :: !HasRight(PlayerMoveSpec(s, md).value.rights, s.turn, d)
  {
  }

  /**
   * A move other than a castle is made only when validation passed and
   * exactly one candidate keeps the king safe: a plain move goes to an
   * empty square (a pawn never onto the first or last rank), a capture to
   * an occupied one, and the move made is that candidate.
   */
  lemma PlayerMoveMade(s: State, md: MoveInput.PlayerMove)
    requires PlayDefined(s, md) && !md.typ.Castle? && PlayerMoveSpec(s, md).Ok?
    ensures InBounds(md.to)
    ensures md.typ.Move? ==> At(s.board, md.to.row, md.to.col) == Empty && !(md.piece == Pawn && (md.to.row == 0 || md.to.row == 7))
    ensures md.typ.Capture? || md.typ.CapturePromotion? ==> At(s.board, md.to.row, md.to.col) != Empty
    ensures md.typ.Promotion? || md.typ.CapturePromotion? ==> (md.to.row == 7 <==> s.turn == White)
    ensures exists mov ::
      && IsLegalCandidate(md, s, mov) && mov.to == md.to
      && PlayerMoveSpec(s, md).value == MoveCommit(s, md, mov)
      && forall m :: IsLegalCandidate(md, s, m) ==> m == mov
  {
    CommitUniqueMove(s, md);
    var mov :| IsLegalCandidate(md, s, mov) && CommitSpec(s, md).value == MoveCommit(s, md, mov)
               && forall m :: IsLegalCandidate(md, s, m) ==> m == mov;
    assert InBounds(mov.to);
  }

  /** While a side holds a castle right, its king cache points at the king's home square. */
  predicate KingHomeWhileRights(s: State) {
    forall side, dir :: HasRight(s.rights, side, dir) ==> GetPos(s.kings, side) == KingHome(side)
  }

  /** A castle takes away both of the mover's rights and moves no other king. */
  lemma CastleCommitKeepsKingHome(s: State, dir: CastleDirection)
    requires InBounds(GetPos(s.kings, s.turn)) && KingHomeWhileRights(s)
    ensures KingHomeWhileRights(CastleCommit(s, dir))
  {
    var t := CastleCommit(s, dir);
    forall side, d | HasRight(t.rights, side, d) ensures GetPos(t.kings, side) == KingHome(side) {
      assert side == Opposite(s.turn);
    }
  }

  /** A king move takes away both of the mover's rights; any other move keeps the king cache. */
  lemma MoveCommitKeepsKingHome(s: State, md: MoveInput.PlayerMove, mov: Move)
    requires InBounds(mov.from) && InBounds(mov.to) && KingHomeWhileRights(s)
    ensures KingHomeWhileRights(MoveCommit(s, md, mov))
  {
    var t := MoveCommit(s, md, mov);
    forall side, d | HasRight(t.rights, side, d) ensures GetPos(t.kings, side) == KingHome(side) {
      assert HasRight(s.rights, side, d);
      if md.piece == King {
        assert side == Opposite(s.turn);
      }
    }
  }

  /** Every move `player_move` makes keeps the king at home while a right is held. */
  lemma PlayerMoveKeepsKingHome(s: State, md: MoveInput.PlayerMove)
    requires PlayDefined(s, md) && KingHomeWhileRights(s) && PlayerMoveSpec(s, md).Ok?
    ensures KingHomeWhileRights(PlayerMoveSpec(s, md).value)
  {
    var t := PlayerMoveSpec(s, md).value;
    if md.typ.Castle? {
      PlayerMoveCastle(s, md);
      CastleCommitKeepsKingHome(s, md.typ.dir);
    } else {
      PlayerMoveMade(s, md);
      var mov :| IsLegalCandidate(md, s, mov) && t == MoveCommit(s, md, mov);
      MoveCommitKeepsKingHome(s, md, mov);
    }
  }

  /**
   * A castle that passes validation starts from the king's home square, so
   * it puts king and rook on their castled squares, empties both home
   * squares and leaves every other square alone.
   */
  lemma PlayerMoveCastleBoard(s: State, md: MoveInput.PlayerMove)
    requires PlayDefined(s, md) && KingHomeWhileRights(s) && md.typ.Castle? && PlayerMoveSpec(s, md).Ok?
    ensures var t, dir := PlayerMoveSpec(s, md).value, md.typ.dir;
      && InBounds(CastledKing(s.turn, dir)) && InBounds(CastledRook(s.turn, dir)) && InBounds(RookHome(s.turn, dir))
      && t.board[Idx(CastledKing(s.turn, dir))] == s.board[Idx(KingHome(s.turn))]
      && t.board[Idx(CastledRook(s.turn, dir))] == s.board[Idx(RookHome(s.turn, dir))]
      && t.board[Idx(KingHome(s.turn))] == Empty
      && t.board[Idx(RookHome(s.turn, dir))] == Empty
      && forall i :: 0 <= i < 64 && !Among4(i, Idx(CastledKing(s.turn, dir)), Idx(CastledRook(s.turn, dir)),
                                            Idx(KingHome(s.turn)), Idx(RookHome(s.turn, dir)))
           ==> t.board[i] == s.board[i]
  {
    PlayerMoveCastle(s, md);
    CastleCommitBoard(s, md.typ.dir);
  }

  /**
   * As written, validation lets a pawn capture onto the last rank through
   * without a promotion; once made, the pawn sits where `get_pawn_moves`
   * reads off the board, so `get_game_result` can no longer be asked.
   */
  lemma PawnCaptureOntoLastRank(s: State, md: MoveInput.PlayerMove)
    requires PlayDefined(s, md) && md.piece == Pawn && md.typ.Capture?
    requires md.to.row == (if s.turn == White then 7 else 0)
    requires PlayerMoveSpec(s, md).Ok?
    ensures !ResultDefined(PlayerMoveSpec(s, md).value)
  {
    PlayerMoveMade(s, md);
    var t := PlayerMoveSpec(s, md).value;
    var mov :| IsLegalCandidate(md, s, mov) && mov.to == md.to && t == MoveCommit(s, md, mov);
    SquareAtIdx(mov.from);
    SquareAtIdx(mov.to);
    MoveCommitEffect(s, md, mov);
    assert t.board[Idx(mov.to)] == s.board[Idx(mov.from)];
    assert !MovesDefined(t.board[Idx(mov.to)].piece, SquareAt(Idx(mov.to)), t);
  }

  /** `player_move` with the intended validation. */
  function IntendedPlayerMoveSpec(s: State, md: MoveInput.PlayerMove): (r: Result<State, MoveError>)
    requires PlayDefined(s, md)
    ensures !MoveInput.LastRankPawnCapture(md) ==> r == PlayerMoveSpec(s, md)
    ensures MoveInput.LastRankPawnCapture(md) ==> r.Err?
    ensures r.Ok? ==> r == PlayerMoveSpec(s, md)
  {
    match MoveInput.ValidateMoveIntended(md, s.turn, s.board, s.rights, GetPos(s.kings, s.turn))
    case Err(e) => Err(Rejected(e))
    case Ok(_) => CommitSpec(s, md)
  }

  /** Facts that keep `get_game_result` answerable from one move to the next. */
  predicate Playable(s: State) {
    ResultDefined(s) && KingHomeWhileRights(s) && s.pawnDoubleMoved == None
  }

  /** Without a recorded double move a piece's generator reads the board only when it is a pawn off its far rank. */
  lemma MovesDefinedPlain(piece: Piece, p: Point, s: State)
    requires s.pawnDoubleMoved == None
    ensures MovesDefined(piece, p, s) <==>
      InBounds(p) && (piece.typ == Pawn ==> (piece.side == White ==> p.row <= 6) && (piece.side == Black ==> p.row >= 1))
  {
  }

  /** A castle keeps every moved piece on its rank. */
  lemma CastleKeepsPlayable(s: State, md: MoveInput.PlayerMove)
    requires PlayDefined(s, md) && Playable(s) && md.typ.Castle? && PlayerMoveSpec(s, md).Ok?
    ensures Playable(PlayerMoveSpec(s, md).value)
  {
    var t, dir := PlayerMoveSpec(s, md).value, md.typ.dir;
    PlayerMoveCastleBoard(s, md);
    PlayerMoveKeepsKingHome(s, md);
    var k, r, kh, rh := CastledKing(s.turn, dir), CastledRook(s.turn, dir), KingHome(s.turn), RookHome(s.turn, dir);
    SquareAtIdx(k);
    SquareAtIdx(r);
    SquareAtIdx(kh);
    SquareAtIdx(rh);
    forall i | 0 <= i < 64 && t.board[i].Full? ensures MovesDefined(t.board[i].piece, SquareAt(i), t) {
      MovesDefinedPlain(t.board[i].piece, SquareAt(i), t);
      if i == Idx(k) {
        MovesDefinedPlain(s.board[Idx(kh)].piece, kh, s);
      } else if i == Idx(r) {
        MovesDefinedPlain(s.board[Idx(rh)].piece, rh, s);
      } else {
        MovesDefinedPlain(s.board[i].piece, SquareAt(i), s);
      }
    }
  }

  /** A move keeps every generator on the board when the piece it places on the target may stand there. */
  lemma MoveCommitKeepsMovesDefined(s: State, md: MoveInput.PlayerMove, mov: Move)
    requires InBounds(mov.from) && InBounds(mov.to) && s.pawnDoubleMoved == None && AllMovesDefined(s)
    requires Placed(s, md, mov.from).Full? ==> MovesDefined(Placed(s, md, mov.from).piece, mov.to, s)
    ensures AllMovesDefined(MoveCommit(s, md, mov))
  {
    var t := MoveCommit(s, md, mov);
    MoveCommitEffect(s, md, mov);
    SquareAtIdx(mov.to);
    forall i | 0 <= i < 64 && t.board[i].Full? ensures MovesDefined(t.board[i].piece, SquareAt(i), t) {
      MovesDefinedPlain(t.board[i].piece, SquareAt(i), t);
      if i != Idx(mov.to) {
        MovesDefinedPlain(s.board[i].piece, SquareAt(i), s);
      } else {
        MovesDefinedPlain(Placed(s, md, mov.from).piece, mov.to, s);
      }
    }
  }

  /** An ordinary move keeps every pawn off its far rank once last-rank pawn captures must promote. */
  lemma IntendedMoveKeepsPlayable(s: State, md: MoveInput.PlayerMove)
    requires PlayDefined(s, md) && Playable(s) && !md.typ.Castle? && IntendedPlayerMoveSpec(s, md).Ok?
    requires md.typ.Promotion? || md.typ.CapturePromotion? ==> md.typ.promote in PromotionPieces
    ensures Playable(IntendedPlayerMoveSpec(s, md).value)
  {
    PlayerMoveMade(s, md);
    PlayerMoveKeepsKingHome(s, md);
    var t := PlayerMoveSpec(s, md).value;
    var mov :| IsLegalCandidate(md, s, mov) && mov.to == md.to && t == MoveCommit(s, md, mov);
    MoveCommitEffect(s, md, mov);
    if !(md.typ.Promotion? || md.typ.CapturePromotion?) {
      MovesDefinedPlain(s.board[Idx(mov.from)].piece, mov.to, s);
    }
    MoveCommitKeepsMovesDefined(s, md, mov);
  }

  /**
   * With the intended validation every move `player_move` makes keeps the
   * game answerable: kings cached on the board, every piece's generator
   * on the board, the king at home while a right is held.
   */
  lemma IntendedPlayerMoveKeepsPlayable(s: State, md: MoveInput.PlayerMove)
    requires PlayDefined(s, md) && Playable(s) && IntendedPlayerMoveSpec(s, md).Ok?
    requires md.typ.Promotion? || md.typ.CapturePromotion? ==> md.typ.promote in PromotionPieces
    ensures Playable(IntendedPlayerMoveSpec(s, md).value)
  {
    if md.typ.Castle? {
      CastleKeepsPlayable(s, md);
    } else {
      IntendedMoveKeepsPlayable(s, md);
    }
  }

  /** The candidates from `p`: one move per generated destination. */
  function FromOrigin(p: Point, ts: seq<Point>): (ms: seq<Move>)
    ensures |ms| == |ts| && forall k :: 0 <= k < |ts| ==> ms[k] == Move(p, ts[k])
  {
    seq(|ts|, k requires 0 <= k < |ts| => Move(p, ts[k]))
  }

  /** What `get_game_result` may read is on the board. */
  predicate ResultDefined(s: State) {
    KingsOnBoard(s) && AllMovesDefined(s)
  }

  /**
   * The moves of the piece on square `i` that survive the filter. The
   * filter always guards the king of the side to move, whoever owns the
   * piece.
   */
  function SquareCount(s: State, i: nat): nat
    requires i < 64 && ResultDefined(s)
  {
    match s.board[i]
    case Full(piece) =>
      |Moves.LegalMoves(s.turn, FromOrigin(SquareAt(i), MovesOf(piece, SquareAt(i), s)), s.board, GetPos(s.kings, s.turn))|
    case Empty => 0
  }

  /** The counter of `side` after the loops have visited the first `n` squares. */
  function CountUpTo(s: State, side: Side, n: nat): nat
    requires n <= 64 && ResultDefined(s)
  {
    if n == 0 then 0
    else CountUpTo(s, side, n - 1) + (if s.board[n - 1].Full? && s.board[n - 1].piece.side == side then SquareCount(s, n - 1) else 0)
  }

  /** `get_game_result`. */
  function ResultOf(s: State): (r: GameResult)
    requires ResultDefined(s)
    ensures r != Draw(Repetition) && r != Draw(Material)
    ensures s.lastActivePly == 100 ==> r == Draw(FiftyMove)
  {
    if s.lastActivePly == 100 then Draw(FiftyMove)
    else if CountUpTo(s, White, 64) == 0 then
      if Moves.InCheck(White, GetPos(s.kings, White), s.board) then Win(Black) else Draw(Stalemate)
    else if CountUpTo(s, Black, 64) == 0 then
      if Moves.InCheck(Black, GetPos(s.kings, Black), s.board) then Win(White) else Draw(Stalemate)
    else NoResult
  }

  /**
   * The piece on square `i` belongs to `side` and has a move the filter
   * keeps: a generated destination after which the side to move's king is
   * not attacked.
   */
  predicate SafeFrom(s: State, side: Side, i: nat)
    requires i < 64 && ResultDefined(s)
  {
    && s.board[i].Full? && s.board[i].piece.side == side
    && exists t :: t in MovesOf(s.board[i].piece, SquareAt(i), s)
         && Moves.KeepsKingSafe(s.turn, Move(SquareAt(i), t), s.board, GetPos(s.kings, s.turn))
  }

  /** Some piece of `side` has a move the filter keeps. */
  predicate HasSafeMove(s: State, side: Side)
    requires ResultDefined(s)
  {
    exists i :: 0 <= i < 64 && SafeFrom(s, side, i)
  }

  /** The filter keeps nothing from square `i` exactly when no generated destination keeps the king safe. */
  lemma SquareCountZero(s: State, side: Side, i: nat)
    requires i < 64 && ResultDefined(s) && s.board[i].Full? && s.board[i].piece.side == side
    ensures SquareCount(s, i) == 0 <==> !SafeFrom(s, side, i)
  {
    var p := SquareAt(i);
    var ts := MovesOf(s.board[i].piece, p, s);
    var kingPos := GetPos(s.kings, s.turn);
    var possible := FromOrigin(p, ts);
    var legal := Moves.LegalMoves(s.turn, possible, s.board, kingPos);
    if |legal| > 0 {
      Moves.LegalMovesExact(s.turn, possible, s.board, kingPos, legal[0]);
      var k :| 0 <= k < |possible| && possible[k] == legal[0];
      assert ts[k] in ts;
    } else {
      forall t | t in ts ensures !Moves.KeepsKingSafe(s.turn, Move(p, t), s.board, kingPos) {
        var k :| 0 <= k < |ts| && ts[k] == t;
        assert possible[k] == Move(p, t);
        Moves.LegalMovesExact(s.turn, possible, s.board, kingPos, Move(p, t));
      }
    }
  }

  /** One more square leaves the counter at zero exactly when that square has no kept move. */
  lemma CountUpToStep(s: State, side: Side, n: nat)
    requires 0 < n <= 64 && ResultDefined(s)
    ensures CountUpTo(s, side, n) == 0 <==> CountUpTo(s, side, n - 1) == 0 && !SafeFrom(s, side, n - 1)
  {
    if s.board[n - 1].Full? && s.board[n - 1].piece.side == side {
      SquareCountZero(s, side, n - 1);
    }
  }

  lemma {:induction false} CountUpToZero(s: State, side: Side, n: nat)
    requires n <= 64 && ResultDefined(s)
    ensures CountUpTo(s, side, n) == 0 <==> forall i :: 0 <= i < n ==> !SafeFrom(s, side, i)
    decreases n
  {
    if n > 0 {
      CountUpToZero(s, side, n - 1);
      CountUpToStep(s, side, n);
      if CountUpTo(s, side, n) == 0 {
        forall i | 0 <= i < n ensures !SafeFrom(s, side, i) {
          if i < n - 1 {
            assert !SafeFrom(s, side, i);
          }
        }
      }
    }
  }

  /** A side's counter is zero exactly when none of its pieces has a move the filter keeps. */
  lemma CountZeroIff(s: State, side: Side)
    requires ResultDefined(s)
    ensures CountUpTo(s, side, 64) == 0 <==> !HasSafeMove(s, side)
  {
    CountUpToZero(s, side, 64);
  }

  /**
   * The verdicts of `get_game_result` in terms of the position: the
   * fifty-move draw first; then White without a kept move loses if in
   * check and is stalemated otherwise; then the same for Black.
   */
  lemma ResultCharacterized(s: State)
    requires ResultDefined(s)
    ensures ResultOf(s) == Draw(FiftyMove) <==> s.lastActivePly == 100
    ensures ResultOf(s) == Win(Black) <==>
      s.lastActivePly != 100 && !HasSafeMove(s, White) && Moves.InCheck(White, s.kings.white, s.board)
    ensures ResultOf(s) == Win(White) <==>
      s.lastActivePly != 100 && HasSafeMove(s, White) && !HasSafeMove(s, Black)
      && Moves.InCheck(Black, s.kings.black, s.board)
    ensures ResultOf(s) == Draw(Stalemate) <==>
      s.lastActivePly != 100
      && ((!HasSafeMove(s, White) && !Moves.InCheck(White, s.kings.white, s.board))
          || (HasSafeMove(s, White) && !HasSafeMove(s, Black) && !Moves.InCheck(Black, s.kings.black, s.board)))
    ensures ResultOf(s) == NoResult <==> s.lastActivePly != 100 && HasSafeMove(s, White) && HasSafeMove(s, Black)
  {
    CountZeroIff(s, White);
    CountZeroIff(s, Black);
  }

  // ---------------------------------------------------------------------
  // The starting position
  // ---------------------------------------------------------------------

  function AllRights(): CastleRights {
    CastleRights((true, true), (true, true))
  }

  /** The state `Game::new` builds. */
  function InitialState(): State {
    State(White, InitialBoard(), KingPositions(InitialPositions.whiteKing, InitialPositions.blackKing),
          AllRights(), None, 0)
  }

  /**
   * The starting state: White to move, every castle right held, no double
   * pawn move, a zero clock, and a king cache that points at the two kings.
   */
  lemma InitialStateFacts()
    ensures var s := InitialState();
      && s.turn == White && s.pawnDoubleMoved == None && s.lastActivePly == 0
      && (forall side, dir :: HasRight(s.rights, side, dir))
      && s.kings.white == Point(0, 4) && s.kings.black == Point(7, 4)
      && At(s.board, 0, 4) == FullSquare(White, King) && At(s.board, 7, 4) == FullSquare(Black, King)
      && KingHomeWhileRights(s)
  {
    InitialBoardAt(0, 4);
    InitialBoardAt(7, 4);
  }

  /**
   * A new game can always be asked for its result: the kings are cached on
   * the board, no pawn stands on its far rank, and each king is at home.
   */
  lemma InitialPlayable()
    ensures Playable(InitialState())
  {
    var s := InitialState();
    InitialStateFacts();
    forall i | 0 <= i < 64 && s.board[i].Full? ensures MovesDefined(s.board[i].piece, SquareAt(i), s) {
      var p := SquareAt(i);
      MovesDefinedPlain(s.board[i].piece, p, s);
      if s.board[i].piece.typ == Pawn {
        InitialPawnRows(p.row, p.col);
      }
    }
  }

  /** The four board writes of a castle, in place. */
  method CastleWrites(board: array<Square>, kingPos: Point, rookPos: Point, kingMov: Point, rookMov: Point)
    requires board.Length == 64
    requires InBounds(kingPos) && InBounds(rookPos) && InBounds(kingMov) && InBounds(rookMov)
    modifies board
    ensures board[..] == CastleBoard(old(board[..]), kingPos, rookPos, kingMov, rookMov)
  {
    board[Idx(kingMov)] := board[Idx(kingPos)];
    board[Idx(rookMov)] := board[Idx(rookPos)];
    board[Idx(kingPos)] := Empty;
    board[Idx(rookPos)] := Empty;
  }

  /** The two board writes of an ordinary move, in place. */
  method MoveWrites(board: array<Square>, mov: Move, placed: Square)
    requires board.Length == 64 && InBounds(mov.from) && InBounds(mov.to)
    modifies board
    ensures board[..] == old(board[..])[Idx(mov.to) := placed][Idx(mov.from) := Empty]
  {
    board[Idx(mov.to)] := placed;
    board[Idx(mov.from)] := Empty;
  }

  /** The inner loop of `get_possible_moves`: push a move from `p` for each generated destination equal to `to`. */
  method PushMatching(possible: seq<Move>, p: Point, ms: seq<Point>, to: Point) returns (r: seq<Move>)
    ensures r == possible + MatchTo(p, ms, to)
  {
    r := possible;
    for k := 0 to |ms|
      invariant r == possible + MatchTo(p, ms[..k], to)
    {
      if ms[k] == to {
        r := r + [Move(p, ms[k])];
      }
      assert ms[..k + 1][..k] == ms[..k];
    }
    assert ms[..|ms|] == ms;
  }

  // ---------------------------------------------------------------------
  // The game object
  // ---------------------------------------------------------------------

  class Game {
    var turn: Side
    const board: array<Square>
    var kingPositions: KingPositions
    var castleRights: CastleRights
    var pawnDoubleMoved: Option<Point>
    var lastActivePly: nat
    var zobristTable: Zobrist.ZobristTable

    ghost predicate Valid()
      reads this
    {
      board.Length == 64
    }

    /** The fields as a value. */
    ghost function Snapshot(): State
      reads this, board
      requires Valid()
    {
      State(turn, board[..], kingPositions, castleRights, pawnDoubleMoved, lastActivePly)
    }

    /** `Game::new`; the random values of the key come in as `z`. */
    constructor (z: Zobrist.Params)
      requires Zobrist.WellFormed(z)
      ensures Valid() && fresh(board)
      ensures Snapshot() == InitialState()
      ensures zobristTable == Zobrist.ZobristTable(z, Zobrist.Key(z, White, InitialBoard(), AllRights(), None))
    {
      var b := new Square[64](i requires 0 <= i < 64 => InitialBoard()[i]);
      assert b[..] == InitialBoard();
      var castleRights := AllRights();
      var table := Zobrist.NewTable(z, White, b, castleRights, None);
      turn := White;
      board := b;
      kingPositions := KingPositions(InitialPositions.whiteKing, InitialPositions.blackKing);
      this.castleRights := castleRights;
      pawnDoubleMoved := None;
      lastActivePly := 0;
      zobristTable := table;
    }

    /** `get_moves`. */
    method GetMoves(piece: Piece, row: nat, col: nat) returns (moves: seq<Point>)
      requires Valid() && MovesDefined(piece, Point(row, col), Snapshot())
      ensures moves == MovesOf(piece, Point(row, col), Snapshot())
    {
      match piece.typ
      case Pawn => moves := Moves.PawnMoves(piece.side, row, col, board[..], pawnDoubleMoved);
      case Knight => moves := Moves.GetKnightMoves(piece.side, row, col, board);
      case Bishop => moves := Moves.GetBishopMoves(piece.side, row, col, board);
      case Rook => moves := Moves.GetRookMoves(piece.side, row, col, board);
      case Queen => moves := Moves.GetQueenMoves(piece.side, row, col, board);
      case King => moves := Moves.GetKingMoves(piece.side, row, col, board);
    }

    /** `get_possible_moves`. */
    method GetPossibleMoves(md: MoveInput.PlayerMove) returns (possible: seq<Move>)
      requires Valid() && RequestDefined(md, Snapshot())
      ensures possible == PossibleMoves(md, Snapshot())
    {
      possible := [];
      for r := 0 to Size
        invariant possible == PossibleUpTo(md, Snapshot(), r * 8)
      {
        possible := RowCandidates(md, r, possible);
      }
    }

    /** One pass of the outer loop of `get_possible_moves`: the columns of row `row`. */
    method RowCandidates(md: MoveInput.PlayerMove, row: nat, before: seq<Move>) returns (possible: seq<Move>)
      requires Valid() && RequestDefined(md, Snapshot()) && row < 8
      requires before == PossibleUpTo(md, Snapshot(), row * 8)
      ensures possible == PossibleUpTo(md, Snapshot(), row * 8 + 8)
    {
      ghost var s := Snapshot();
      possible := before;
      for c := 0 to Size
        invariant possible == PossibleUpTo(md, s, row * 8 + c)
      {
        ghost var i := row * 8 + c;
        assert PossibleUpTo(md, s, i + 1) == PossibleUpTo(md, s, i) + FromSquare(md, s, i);
        var found := SquareCandidates(md, row, c);
        possible := possible + found;
      }
    }

    /** One square of `get_possible_moves`: the request's moves from (row, col), if its piece qualifies. */
    method SquareCandidates(md: MoveInput.PlayerMove, row: nat, col: nat) returns (found: seq<Move>)
      requires Valid() && RequestDefined(md, Snapshot()) && row < 8 && col < 8
      ensures found == FromSquare(md, Snapshot(), row * 8 + col)
    {
      SquareAtIdx(Point(row, col));
      found := [];
      var fileMatches := match md.from
        case Row(r) => r == row
        case Column(c) => c == col
        case Any => true;
      if fileMatches {
        var square := board[row * 8 + col];
        if square.Full? && square.piece.side == turn && square.piece.typ == md.piece {
          var ms := GetMoves(square.piece, row, col);
          found := PushMatching(found, Point(row, col), ms, md.to);
        }
      }
    }

    /** The castle branch of `player_move`. */
    method MakeCastle(dir: CastleDirection)
      requires Valid() && InBounds(GetPos(kingPositions, turn))
      modifies this, board
      ensures Valid() && zobristTable == old(zobristTable)
      ensures Snapshot() == CastleCommit(old(Snapshot()), dir)
    {
      CastleSquaresOnBoard(turn, dir);
      var kingPos := GetPos(kingPositions, turn);
      var kingMov := CastledKing(turn, dir);

      // Move pieces
      CastleWrites(board, kingPos, RookHome(turn, dir), kingMov, CastledRook(turn, dir));

      // Update king position and castle rights
      kingPositions := SetPos(kingPositions, turn, kingMov);
      castleRights := RevokeAll(castleRights, turn);

      // Switch active turn
      turn := Opposite(turn);
    }

    /** The end of `player_move` once the single legal move `mov` is known. */
    method MakeMove(md: MoveInput.PlayerMove, mov: Move)
      requires Valid() && InBounds(mov.from) && InBounds(mov.to) && !md.typ.Castle?
      modifies this, board
      ensures Valid() && zobristTable == old(zobristTable)
      ensures Snapshot() == MoveCommit(old(Snapshot()), md, mov)
    {
      ghost var s := Snapshot();
      var placed := if md.typ.Promotion? || md.typ.CapturePromotion? then FullSquare(turn, md.typ.promote)
                    else board[Idx(mov.from)];
      assert placed == Placed(s, md, mov.from);
      MoveWrites(board, mov, placed);

      // Update king position and castle rights
      var kings, rights := kingPositions, castleRights;
      if md.piece == King {
        kings := SetPos(kings, turn, mov.to);
        rights := RevokeAll(rights, turn);
      } else if md.piece == Rook {
        if mov.from == RookHome(turn, A) {
          rights := RevokeOne(rights, turn, A);
        } else if mov.from == RookHome(turn, H) {
          rights := RevokeOne(rights, turn, H);
        }
      }
      assert rights == RightsAfter(s.rights, s.turn, md.piece, mov.from);

      // Update last active ply counter
      var clock := lastActivePly;
      if md.typ.Move? {
        if md.piece == Pawn {
          clock := 0;
        } else {
          clock := clock + 1;
        }
      } else {
        // Capture, Promotion or CapturePromotion
        clock := 0;
      }
      assert clock == ClockAfter(s.lastActivePly, md);

      // Switch active turn
      kingPositions, castleRights, lastActivePly := kings, rights, clock;
      turn := Opposite(turn);
    }

    /**
     * The commit part of `player_move` for a parsed and validated move:
     * castles are made outright; otherwise the single legal candidate is
     * made, or the state is left as it was and the reason returned.
     */
    method Commit(md: MoveInput.PlayerMove) returns (result: Result<(), MoveError>)
      requires Valid() && CommitDefined(Snapshot(), md)
      modifies this, board
      ensures Valid() && zobristTable == old(zobristTable)
      ensures result.Ok? <==> CommitSpec(old(Snapshot()), md).Ok?
      ensures result.Ok? ==> Snapshot() == CommitSpec(old(Snapshot()), md).value
      ensures result.Err? ==> result.error == CommitSpec(old(Snapshot()), md).error && Snapshot() == old(Snapshot())
    {
      // Handle castle moves
      if md.typ.Castle? {
        MakeCastle(md.typ.dir);
        return Ok(());
      }

      // Check if king is in check after possible moves
      var possible := GetPossibleMoves(md);
      if |possible| == 0 {
        return Err(NotAMove);
      }
      var kingPos := GetPos(kingPositions, turn);
      ghost var g := board[..];
      var legal := Moves.FilterLegalMoves(turn, possible, board, kingPos);
      Moves.LegalMovesSubset(turn, possible, g, kingPos);
      if |legal| == 0 {
        return Err(LeavesKingInCheck);
      } else if |legal| > 1 {
        return Err(Ambiguous);
      }

      // Make single legal move
      MakeMove(md, legal[0]);
      result := Ok(());
    }

    /**
     * `player_move` once the input is read and parsed: validation, then the
     * commit; a refused move leaves the game as it was.
     */
    method PlayerMove(md: MoveInput.PlayerMove) returns (result: Result<(), MoveError>)
      requires Valid() && PlayDefined(Snapshot(), md)
      modifies this, board
      ensures Valid() && zobristTable == old(zobristTable)
      ensures result.Ok? <==> PlayerMoveSpec(old(Snapshot()), md).Ok?
      ensures result.Ok? ==> Snapshot() == PlayerMoveSpec(old(Snapshot()), md).value
      ensures result.Err? ==> result.error == PlayerMoveSpec(old(Snapshot()), md).error && Snapshot() == old(Snapshot())
    {
      var valid := MoveInput.Validate(md, turn, board, castleRights, GetPos(kingPositions, turn));
      if valid.Err? {
        return Err(Rejected(valid.error));
      }
      result := Commit(md);
    }

    /** How many of the moves of the piece at (row, col) the filter keeps; the board comes back unchanged. */
    method LegalCount(piece: Piece, row: nat, col: nat) returns (count: nat)
      requires Valid() && ResultDefined(Snapshot()) && row < 8 && col < 8
      requires board[row * 8 + col] == Full(piece)
      modifies board
      ensures board[..] == old(board[..])
      ensures count == SquareCount(old(Snapshot()), row * 8 + col)
    {
      SquareAtIdx(Point(row, col));
      var ms := GetMoves(piece, row, col);
      var possible := FromOrigin(Point(row, col), ms);
      var legal := Moves.FilterLegalMoves(turn, possible, board, GetPos(kingPositions, turn));
      count := |legal|;
    }

    /**
     * `get_game_result`: probes every piece's moves on the shared board,
     * which comes back unchanged, and reports the verdict for the state it
     * started from.
     */
    method GetGameResult() returns (result: GameResult)
      requires Valid() && ResultDefined(Snapshot())
      modifies board
      ensures board[..] == old(board[..])
      ensures result == ResultOf(old(Snapshot()))
    {
      // Check for 50 move rule (100 plies)
      if lastActivePly == 100 {
        return Draw(FiftyMove);
      }

      // Count legal moves for each side excluding castling
      ghost var s := Snapshot();
      var whiteMoves, blackMoves := 0, 0;
      for r := 0 to Size
        invariant board[..] == s.board
        invariant whiteMoves == CountUpTo(s, White, r * 8) && blackMoves == CountUpTo(s, Black, r * 8)
      {
        for c := 0 to Size
          invariant board[..] == s.board
          invariant whiteMoves == CountUpTo(s, White, r * 8 + c) && blackMoves == CountUpTo(s, Black, r * 8 + c)
        {
          var square := board[r * 8 + c];
          if square.Full? {
            var piece := square.piece;
            // Check for legal moves
            var count := LegalCount(piece, r, c);
            match piece.side {
              case White => whiteMoves := whiteMoves + count;
              case Black => blackMoves := blackMoves + count;
            }
          }
        }
      }

      // Checkmate or stalemate with no moves left
      if whiteMoves == 0 {
        var check := Moves.InCheckScan(White, GetPos(kingPositions, White), board);
        if check {
          return Win(Black);
        }
        return Draw(Stalemate);
      } else if blackMoves == 0 {
        var check := Moves.InCheckScan(Black, GetPos(kingPositions, Black), board);
        if check {
          return Win(White);
        }
        return Draw(Stalemate);
      }

      // No result yet
      result := NoResult;
    }
  }
}
