# bad-chess rules core in Dafny

This project models the rules engine of **bad-chess**, a two-player chess game
for the terminal. Players type moves in a short algebraic notation. The model
covers:

- the board, pieces, king squares and castling rights (`src/board.rs`);
- move generation for every piece, the attack test (`in_check`), the
  legal-move filter and the castling test (`src/moves.rs`);
- parsing and validation of a typed move (`src/move_input.rs`);
- committing a move: searching for the moving piece, updating the board,
  castling rights, clock and turn, and deciding the game result
  (`src/game.rs`);
- the Zobrist position key (`src/zobrist.rs`).

Layout:

| module | file | contents |
|---|---|---|
| `Wrappers` | `wrappers.dfy` | `Option` and `Result` |
| `Bits` | `bits.dfy` | 64-bit XOR on naturals below 2^64, and its algebra |
| `Board` | `board.dfy` | sides, pieces, squares, points, castling rights, the constant tables, the initial board |
| `Moves` | `moves.dfy` | the generators, the attack scan, the legal-move filter, castling |
| `MoveInput` | `move_input.dfy` | the notation parser, a renderer used as its inverse, the validator |
| `Zobrist` | `zobrist.dfy` | piece indices, the key fold, the table constructor |
| `Game` | `game.dfy` | the `Game` class, the value `State` that specifies it, commit and result |

The Rust board is an 8x8 array of squares. Here it is a row-major
`array<Square>` of length 64: square (r, c) is at index 8r + c. Every
operation with a loop is a `method`. Each method is proved equal to a
recursive specification function on `board[..]`. The lemmas about the game
are stated on those functions, or on the value `Game.State` that
`Game.Game.Snapshot()` returns.

Some quirks of the source are modelled exactly as written, and lemmas
expose them:

- `pawn_double_moved` is never set, so the en-passant branch never fires.
- The ray scans in `in_check` stop at column 0 (`> 0`).
- `in_check` has no test for an enemy king.
- The pawn-attack test for White on row 7 falls through to the Black test.
- The queen-side castle range is columns 2..5.
- Castling returns before the clock update.
- Capturing a rook on its home square does not revoke the opponent's right.
- `get_game_result` tests the moves of both sides against the king of the side to move.

## Model

| member | source | states |
|---|---|---|
| Board.Opposite | src/board.rs:58-63 | the opposite side is never the side itself |
| Board.OppositeInvolutive | src/board.rs:58-63 | taking the opposite side twice gives back the side |
| Board.FullSquare | src/board.rs:82-88 | a full square holds exactly the given side and piece type |
| Board.GetType | src/board.rs:141-151 | the letters N, B, R, Q, K and P, and only those, map to the matching piece type |
| Board.GetPos | src/board.rs:187-192 | returns the stored king square of the side asked for |
| Board.SetPos | src/game.rs:95-99 | after the update, that side's king square is the new point and the other side's is unchanged |
| Board.HasRight | src/board.rs:214-225 | reads the one castling flag for that side and direction |
| Board.RevokeAll | src/game.rs:93-102 | clears both of the side's castling rights and leaves the other side's rights unchanged |
| Board.RevokeOne | src/game.rs:142-170 | clears exactly one right and leaves the other three unchanged |
| Board.CastleRange | src/board.rs:42 | each castle path is a non-empty range of columns on the board |
| Board.CastleConstantsConsistent | src/board.rs:30-42 | kings start on column 4 and rooks on columns 0 and 7 of the home row; the castled squares are on the home row; the castled king column lies in the castle range; column 4 is in both ranges; the A range does not reach column 1 |
| Board.CastleSquaresOnBoard | src/board.rs:36-41 | every castled king and rook square is on the board |
| Board.CastleSquaresDistinct | src/board.rs:36-41 | the four squares a castle touches are pairwise distinct |
| Board.InitialBoardAt | src/board.rs:245-290 | gives the piece the starting board has on each square |
| Board.InitialPawnRows | src/board.rs:244-308 | on the starting board a White pawn stands only on row 1 and a Black pawn only on row 6 |
| Board.InitialBoardLayout | src/board.rs:256-279 | rows 1 and 6 are pawns of each side, rows 2-5 are empty, and the kings stand exactly on (0,4) and (7,4) |
| Moves.OffsetTargetsExact | src/moves.rs:113-125 | a target is produced iff one of the offsets leads to it on the board and it does not hold a friendly piece |
| Moves.OffsetMoves | src/moves.rs:113-125 | the loop returns exactly the offset targets, in offset order |
| Moves.GetKnightMoves | src/moves.rs:104-128 | the knight's targets are the eight knight jumps that stay on the board and do not land on a friendly piece |
| Moves.GetKingMoves | src/moves.rs:222-246 | the king's targets are the eight neighbours that stay on the board and do not land on a friendly piece |
| Moves.RayFromNotFriendly | src/moves.rs:141-155 | a ray never contains a square holding a friendly piece |
| Moves.RayFromSteps | src/moves.rs:141-155 | the k-th square of a ray is k steps of the direction from its first square and on the board, and every square before the last is empty |
| Moves.RayFromStops | src/moves.rs:141-155 | a ray stops only where it must: when its last square is empty, the next square along the direction is off the board or holds a friendly piece |
| Moves.DirTargetsNotFriendly | src/moves.rs:132-158 | no slider target holds a friendly piece |
| Moves.ScanRay | src/moves.rs:141-155 | the loop over one direction returns exactly the ray |
| Moves.RayMoves | src/moves.rs:141-155 | the loop over all directions returns the rays of each direction, concatenated in order |
| Moves.GetBishopMoves | src/moves.rs:132-158 | the bishop's targets are the four diagonal rays |
| Moves.GetRookMoves | src/moves.rs:162-188 | the rook's targets are the four straight rays |
| Moves.GetQueenMoves | src/moves.rs:192-218 | the queen's targets are the bishop's targets followed by the rook's |
| Moves.PawnPushesExact | src/moves.rs:30-44 | a push target is the empty square ahead, or the empty square two ahead from the start row with the square between also empty |
| Moves.PawnCapturesExact | src/moves.rs:48-77 | a capture target is a diagonal square ahead that holds an enemy piece |
| Moves.PawnEnPassant | src/moves.rs:81-97 | with no double-moved pawn recorded, en passant adds no move |
| Moves.PawnMovesExact | src/moves.rs:20-100 | with no en-passant pawn recorded, the pawn's targets are exactly its push and capture targets |
| Moves.ScanAttack | src/moves.rs:284-312 | the scan along one direction equals the specification: it reports whether the first piece met before the board edge or column 0 is an enemy slider of the given kind |
| Moves.ScanSliders | src/moves.rs:284-312 | the loop over directions reports whether any direction's ray is attacked |
| Moves.ScanKnights | src/moves.rs:316-326 | the loop reports whether an enemy knight stands one knight jump away |
| Moves.InCheckScan | src/moves.rs:280-365 | the attack test equals the specification combining slider, knight and pawn attacks |
| Moves.RayAttackedNeedsSlider | src/moves.rs:284-312 | with no enemy slider of the given kind on columns 1-7, no ray is reported as attacked |
| Moves.RayAttackedReaches | src/moves.rs:284-312 | when the first k squares along a direction are empty and the next holds an enemy slider of the given kind, all on columns 1-7, the ray is attacked |
| Moves.RayAttackedFinds | src/moves.rs:284-312 | when a ray is attacked, some k gives empty squares before and an enemy slider of the given kind at step k, all on columns 1-7 |
| Moves.RayAttackedExact | src/moves.rs:284-312 | a ray is attacked iff such a k exists |
| Moves.InCheckBlindSpots | src/moves.rs:280-365 | with no enemy knight or pawn, no enemy slider outside column 0, and no White pawn behind a White square on row 7, the square is not attacked: enemy kings and sliders on column 0 are never seen |
| Moves.OwnPawnAttacksWhiteBackRank | src/moves.rs:330-360 | for White on row 7, a pawn diagonally behind still counts as an attacker because of the fall-through |
| Moves.LegalMovesSubset | src/moves.rs:250-276 | every kept move is one of the candidates and stays on the board |
| Moves.LegalMovesExact | src/moves.rs:250-276 | a move is kept iff it is a candidate and the king is not attacked once the move is made |
| Moves.LegalMovesNoDup | src/moves.rs:250-276 | a candidate list without repeats stays without repeats after the filter |
| Moves.OffsetTargetsNoDup | src/moves.rs:104-130 | distinct offsets give distinct targets |
| Moves.DirTargetsNoDup | src/moves.rs:132-220 | distinct directions give rays that share no square, so no target repeats |
| Moves.PawnMovesNoDup | src/moves.rs:20-101 | the pawn's pushes, captures and en-passant targets never repeat |
| Moves.LegalMovesAllSafe | src/moves.rs:250-276 | when every candidate keeps the king safe, the filter keeps all of them in order |
| Moves.ProbeMove | src/moves.rs:259-272 | the board is restored afterwards, and the verdict is whether the move keeps the king safe |
| Moves.FilterLegalMoves | src/moves.rs:250-276 | the board is restored afterwards, and the result is exactly the legal moves |
| Moves.CastlePathFrom | src/moves.rs:382-391 | the path is clear iff every column in range is empty or the king itself and no square in range is attacked |
| Moves.CanCastleScan | src/moves.rs:369-393 | the loop equals the castling test over the castle range |
| MoveInput.PromotionLetter | src/move_input.rs:122-141 | a letter names a promotion piece iff it is N, B, R or Q, and the result is that piece |
| MoveInput.FromChar | src/move_input.rs:180-211 | a character names an origin constraint iff it is a rank or a file character |
| MoveInput.ParseMoveShortAndCastles | src/move_input.rs:65-85 | input shorter than two characters is rejected; O-O and O-O-O are the only castles |
| MoveInput.ParsePawnForms | src/move_input.rs:95-163 | a file and a rank is a pawn push along that file; promotions name one of the four promotion pieces and plain ones are written on rank 8 or 1; other lengths are rejected |
| MoveInput.ParsePieceForms | src/move_input.rs:167-238 | piece moves are three, four or five characters long, and their origin constraint and kind follow from the length and the second character |
| MoveInput.ParseRender | src/move_input.rs:61-239 | parsing the rendering of any renderable move gives back that move |
| MoveInput.ParseRenderable | src/move_input.rs:61-239 | every parsed move is renderable, and rendering it parses back to the same move |
| MoveInput.ParsedTargetInBounds | src/move_input.rs:61-239 | every parsed target square is on the board |
| MoveInput.ValidateMove | src/move_input.rs:243-283 | per move kind: a move needs an empty target and a pawn may not reach the last rank; a capture needs an occupied target; a promotion needs the mover's last rank; a capture promotion needs both; a castle needs the right and a clear path |
| MoveInput.Validate | src/move_input.rs:243-283 | the method returns the validation verdict |
| MoveInput.PawnCaptureOntoLastRankPasses | src/move_input.rs:253-255 | a plain pawn capture onto the last rank is accepted |
| MoveInput.ValidateMoveIntended | src/move_input.rs:243-260 | accepts exactly what validation accepts except a pawn capture onto the first or last rank, which must promote |
| Zobrist.PieceIndex | src/zobrist.rs:62-76 | the index is below 12, and it is 6 or more iff the piece is Black |
| Zobrist.PieceIndexInjective | src/zobrist.rs:62-76 | different pieces get different indices |
| Zobrist.EnPassantFile | src/zobrist.rs:119-143 | a file is reported iff a pawn is recorded and a pawn of either side stands beside it with the square behind the recorded pawn, seen from that neighbour's side, empty; the file is the recorded pawn's column |
| Zobrist.KeySideToggle | src/zobrist.rs:101-104 | the key with Black to move is the key with White to move XOR the side key |
| Zobrist.KeyRightToggle | src/zobrist.rs:147-158 | flipping one castling right XORs the key with that right's key |
| Zobrist.KeyWithoutEnPassant | src/zobrist.rs:119-143 | with no en-passant file the key has no en-passant term |
| Zobrist.PiecesFromPlace | src/zobrist.rs:109-115 | placing a piece on an empty square XORs the key with that piece's key for the square |
| Zobrist.PiecesFromRemove | src/zobrist.rs:109-115 | removing a piece XORs its key out again |
| Zobrist.PieceKeys | src/zobrist.rs:109-115 | the loop folds exactly the piece keys of the occupied squares |
| Zobrist.EnPassantColumn | src/zobrist.rs:119-143 | the method returns the en-passant file |
| Zobrist.NewKey | src/zobrist.rs:91-158 | the key built step by step equals the specified key |
| Zobrist.NewTable | src/zobrist.rs:91-167 | the table holds the parameters and the specified key |
| Game.MovesOf | src/game.rs:341-349 | every generated target is on the board |
| Game.MatchToExact | src/game.rs:306-337 | a move is kept iff it goes from the origin to the requested square and that square is among the generated targets |
| Game.MovesOfNoDup | src/game.rs:341-349 | no generator lists a target twice |
| Game.MatchToAtMostOne | src/game.rs:323-330 | one origin contributes at most one candidate for a given target |
| Game.PossibleUpToNoDup | src/game.rs:306-337 | the candidate list holds no move twice |
| Game.LegalCandidatesNoDup | src/game.rs:117-122 | the filtered candidates hold no move twice |
| Game.PossibleMovesExact | src/game.rs:306-337 | a move is possible iff its origin holds a piece of the side to move and the requested type, matches the origin constraint, and generates the requested target |
| Game.CastleCommit | src/game.rs:51-108 | the turn flips, the mover's recorded king square becomes the castled square, both of the mover's rights are revoked, and the counter and en-passant slot are unchanged |
| Game.CastleCommitBoard | src/game.rs:86-89 | exactly the four castle squares change |
| Game.RightsAfter | src/game.rs:142-170 | a king move revokes both of the mover's rights, a rook move from a home corner revokes that one, and nothing else changes |
| Game.ClockAfter | src/game.rs:174-184 | a quiet pawn move, a capture or a promotion resets the counter to 0; any other move adds one |
| Game.MoveCommitEffect | src/game.rs:131-138 | the origin becomes empty, the target holds the moved or promoted piece, and nothing else changes |
| Game.CommitSpec | src/game.rs:112-188 | an accepted move flips the turn, and a castle that reaches the commit is always accepted |
| Game.CommitNotAMove | src/game.rs:112-115 | the result is the not-a-move error iff no piece can make the requested move |
| Game.CommitNoLegalMove | src/game.rs:112-122 | the result is the king-in-check error iff a candidate exists and none of them keeps the king safe |
| Game.CommitAmbiguous | src/game.rs:117-124 | the result is the ambiguous-move error iff two different candidates keep the king safe |
| Game.CommitMakesUniqueMove | src/game.rs:117-138 | when exactly one candidate keeps the king safe, the commit makes that move |
| Game.LegalCandidates | src/game.rs:117-122 | a move survives the legal-move filter iff it is a candidate that keeps the king safe |
| Game.CommitUniqueMove | src/game.rs:123-138 | a committed non-castle move is the one legal candidate with the requested target |
| Game.PlayerMoveCastle | src/game.rs:47-108 | a castle is accepted iff the right is held and the path is clear, and it then revokes both rights and flips the turn |
| Game.PlayerMoveMade | src/game.rs:47-188 | an accepted non-castle move targets a square on the board; a quiet move reaches an empty square and a pawn does not reach the last rank; a capture hits an occupied square; a promotion reaches row 7 iff White moves; the move made is the unique legal candidate |
| Game.PlayerMoveKeepsKingHome | src/game.rs:93-170 | while a side holds a castling right, its recorded king square stays its home square |
| Game.PlayerMoveCastleBoard | src/game.rs:86-89 | an accepted castle changes exactly the four castle squares |
| Game.PawnCaptureOntoLastRank | src/game.rs:37-50 | a pawn capture onto the last rank that the game accepts leaves a pawn that `get_game_result` cannot ask for its moves |
| Game.IntendedPlayerMoveSpec | src/game.rs:37-50 | agrees with the game except that a last-rank pawn capture is refused |
| Game.MovesDefinedPlain | src/moves.rs:20-45 | with no recorded double move, the pawn generator stays on the board iff the pawn is off its far rank |
| Game.MoveCommitKeepsMovesDefined | src/game.rs:131-138 | a move keeps every piece's generator on the board when the placed piece may stand on its target |
| Game.CastleKeepsPlayable | src/game.rs:51-108 | a castle keeps the kings recorded on the board, every generator on the board and the king at home while a right is held |
| Game.IntendedMoveKeepsPlayable | src/game.rs:112-188 | with last-rank pawn captures refused, an ordinary move keeps the same facts |
| Game.InitialPlayable | src/board.rs:244-308 | the starting state is answerable by `get_game_result`: kings cached on the board, no pawn on its far rank, kings at home, no recorded double move |
| Game.IntendedPlayerMoveKeepsPlayable | src/game.rs:37-190 | with last-rank pawn captures refused, every accepted move keeps the game answerable by `get_game_result` |
| Game.ResultOf | src/game.rs:194-247 | the result is never a repetition or material draw, and a counter of 100 gives the fifty-move draw |
| Game.ResultCharacterized | src/game.rs:194-247 | fifty-move iff the counter is 100; otherwise White is tested first: White loses iff it has no safe move and is in check, stalemate iff the side tested without a safe move is not in check, White wins iff White can move and Black has no safe move and is in check, no result iff both sides can move |
| Game.CountZeroIff | src/game.rs:206-228 | the legal-move count of a side is zero iff none of its pieces has a move that the filter keeps, where the filter checks the king of the side to move |
| Game.InitialStateFacts | src/board.rs:244-308 | the starting state has White to move, all four rights, the kings recorded on (0,4) and (7,4) and standing there, a zero counter and no en-passant pawn |
| Game.Game.constructor | src/board.rs:244-308 | the new game is the initial state and its Zobrist table is built from it |
| Game.Game.GetMoves | src/game.rs:341-349 | returns the generator's targets for the piece on the square |
| Game.Game.GetPossibleMoves | src/game.rs:306-337 | returns exactly the possible moves |
| Game.Game.MakeCastle | src/game.rs:51-108 | the new state is the castle commit of the old one |
| Game.Game.MakeMove | src/game.rs:131-188 | the new state is the move commit of the old one |
| Game.Game.Commit | src/game.rs:51-188 | the result and the new state follow the commit specification, and an error leaves the state unchanged |
| Game.Game.PlayerMove | src/game.rs:37-190 | validation then commit: the result and the new state follow the specification, and an error leaves the state unchanged |
| Game.Game.LegalCount | src/game.rs:206-228 | returns the number of safe moves of the piece on the square and restores the board |
| Game.Game.GetGameResult | src/game.rs:194-247 | returns the specified result and restores the board |

## Findings

| source | as written | input that shows it | evidently intended | confidence | as-written member | corrected member |
|---|---|---|---|---|---|---|
| src/move_input.rs:253-255 | only a plain move (`MoveType::Move`) of a pawn onto the first or last rank is refused; a plain pawn capture there is accepted and made without promoting | White pawn on e7, Black piece on d8, White to move, input `exd8`: the pawn lands on row 7, and `get_game_result` then reads row 8 in `get_pawn_moves` (src/moves.rs:31) | a pawn capture onto the last rank must be a capture promotion, like a plain pawn move there | not executed | Game.PawnCaptureOntoLastRank | Game.IntendedPlayerMoveKeepsPlayable |

## Left out

- Terminal I/O in `src/main.rs` and `src/util.rs`, `Game::display`, the piece names and glyphs (`get_char`, `get_name`), and the stdin read in `get_player_move` are not part of this model. `Game.Game.PlayerMove` takes the already-parsed move as its argument.
- The ChaCha8 generator in `Zobrist::new` is not modelled. The 781 random values are the parameter `Zobrist.Params`.
- The position-count `HashMap` and the engine module are not part of this model, and neither are the error message strings. Errors are the datatypes `MoveInput.InputError` and `Game.MoveError`.
- Game.ResultOf: never produces the repetition or material draws, because the source never produces them either.
- The Zobrist key is built once by the constructor and never updated by a move, as in the source. The toggle lemmas state how a move would change it.
- `u64` values are naturals below 2^64, combined by `Bits.Xor64`. The `u32` counter `last_active_ply` and `usize` indices are unbounded naturals, so overflow is not modelled.
- Indexing panics (a pawn on the first or last row, a castle target off the board, the en-passant neighbour reads in `ZobristTable::new`) become `requires` clauses: `Moves.PawnReadsOnBoard`, `MoveInput.ValidateReadsOnBoard` and `Zobrist.EnPassantReadable`, gathered per operation by `Game.MovesDefined`, `Game.RequestDefined`, `Game.CommitDefined`, `Game.PlayDefined` and `Game.ResultDefined`.
- Moves.PawnEnPassant: states only the case with no recorded pawn. The flag is never set, so the en-passant branch is unreachable.
- Moves.OffsetTargets: its own contract is only a length bound. The membership property is `Moves.OffsetTargetsExact`.
- `get_pawn_moves` has no loop, so it is the function `Moves.PawnMoves` rather than a method.
- Game.CommitSpec: its own contract states only the turn flip and that a castle is accepted. The three outcomes of a non-castle commit are stated by `Game.CommitNotAMove`, `Game.CommitNoLegalMove`, `Game.CommitAmbiguous` and `Game.CommitMakesUniqueMove`.
- `Game.Game.PlayerMove` follows the validation as written. The corrected validation of the finding below is the specification `Game.IntendedPlayerMoveSpec`.
