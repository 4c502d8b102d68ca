# Chess rules engine, modelled in Dafny

This project models the rules engine of a small Python chess program, `ChessEngine.py`.

The engine's `GameState` holds:
- the 8×8 board;
- the side to move;
- a cache of both kings' squares;
- the checkmate and stalemate flags;
- three parallel history stacks: the move log, the en-passant target log and the castling-rights log.

The engine's operations:
- `makeMove` edits the grid in place. It handles promotion to a queen, en-passant captures and the castle rook. It recomputes the en-passant target, clears castling rights and pushes snapshots onto the logs.
- `undoMove` reverses `makeMove`.
- `getAllPossibleMoves` collects pseudo-legal moves square by square, with one rule per piece.
- `squareUnderAttack` generates the opponent's moves and looks for one ending on a square.
- `getCastleMoves` adds castle moves.
- `getValidMoves` tries every candidate with make / test / undo. It keeps the candidates that leave the mover's king safe and sets the mate flags.

`Move` is a value type: two squares plus data read off the board, with equality through `moveID` and algebraic notation. `CastleRights` holds four flags.

Modules, in dependency order:

- `Wrappers`: `Option`.
- `ChessBoard`: pieces, squares, the board as an 8×8 sequence of sequences, and the initial position. It also defines the invariant "no pawn stands on its own last rank" (`NoPawnOnLastRank`), which every reachable board keeps.
- `Moves`: the `Move` record, its constructor (`NewMove`), identifier equality, and the rank/file tables with the notation built from them.
- `Castling`: the `CastleRights` record and `UpdatedRights`, the rights after a move.
- `MoveGen`: pure reference definitions of every generator.
  - The pawn rule, rays, single steps and the castle moves.
  - The row-major scan of `getAllPossibleMoves`.
  - "Square under attack" and "in check".
- `MoveGenProps`: the generators are sound; rays are stepwise, run through empty squares and stop at the first piece; knight and king steps.
- `MoveGenDistinct`: no two generated moves share both squares, so no two are equal by `moveID`.
- `Rules`: the board after a move and after its undo, and the make/undo round trip. Also the next en-passant target, the position record, king safety (`Safe`), and the order-preserving filter that the backwards `remove` loop computes.
- `Legal`: well-formed positions (`Sound`): the king cache matches the board, rights are held only by kings on their home squares, and the en-passant target is sound. Also the candidates of `getValidMoves` and `ValidMoves`, the exact set of moves it returns.
- `PlayInvariant`: game positions (`InPlay`): well formed, and the side that has just moved is not in check. The starting position is one, and playing a move `getValidMoves` returned leads from one to another. Along the way: the scan misses no square, what each cell holds after a move, and how the king caches follow it.
- `Engine`: the `GameState` class. It has the source's fields and a method per source function, each proved against the functions above.

The castling-rights object's identity is part of its behaviour:
- `undoMove` makes `currentCastlingRight` the very object on top of `castleRightsLog`.
- The next `UpdateCastleRights` then writes into that log entry too.
- The model keeps rights as values and records that sharing in a field, `rightsAlias`: the index of the log entry that is the current object, if any.
- `UpdateCastleRights` writes through it (`Engine.WriteThrough`).
- The constructor and `getValidMoves` clear it, because both install a fresh object.

The docstring of `undoMove` (ChessEngine.py:80) says it takes back the last move made, so a make/undo pair should give back the castling rights too. As written, the shared rights object breaks this after `getValidMoves`; see "## Findings". The model follows the code.

## Model

| member | source | states |
|---|---|---|
| ChessBoard.InitialBoard | ChessEngine.py:12-21 | The starting grid has the black king on (0,4) and the white king on (7,4), and no pawn on its last rank |
| Moves.NewMove | ChessEngine.py:375-391 | A built move has the given squares. The moved piece is the start cell. The captured piece is the end cell, or, for en passant, a pawn of the other colour. Promotion holds exactly for a white pawn reaching row 0 or a black pawn reaching row 7. The flags are the arguments |
| Moves.MovesEqual | ChessEngine.py:391-399 | For on-board moves, equality by `moveID` holds exactly when both squares coincide |
| Moves.RankTablesInverse | ChessEngine.py:362-363 | `ranksToRows` and `rowsToRanks` are mutually inverse, and `rowsToRanks` covers exactly rows 0..7 |
| Moves.FileTablesInverse | ChessEngine.py:364-365 | `filesToCols` and `colsToFiles` are mutually inverse, and `colsToFiles` covers exactly columns 0..7 |
| Moves.GetRankFile | ChessEngine.py:410-411 | The file-rank name of an on-board square parses back to that square |
| Moves.GetChessNotation | ChessEngine.py:404-405 | The notation is four characters; the first two parse back to the start square and the last two to the end square |
| Castling.UpdatedRights | ChessEngine.py:118-136 | No flag is gained. A king move clears both flags of its colour. A rook leaving its corner clears that side's flag. Nothing else clears a flag, a captured rook included |
| Castling.RightsNeverRegained | ChessEngine.py:118-136 | Over any sequence of moves, a cleared flag stays cleared |
| Rules.NextEnpassant | ChessEngine.py:61-64 | A target exists exactly after a pawn's two-row move. It lies in the start column, on the row between start and end |
| Rules.BoardAfterKeepsPawnRule | ChessEngine.py:42-73 | `makeMove`'s board edits keep "no pawn on its last rank" |
| Rules.BoardUndoneKeepsPawnRule | ChessEngine.py:83-113 | `undoMove`'s board edits keep "no pawn on its last rank" |
| Rules.BoardRoundTrip | ChessEngine.py:83-113 | For a move consistent with the board, `undoMove`'s board edits after `makeMove`'s give back the board exactly, promotion, en passant and castling included |
| Rules.SafeIgnoresRights | ChessEngine.py:150-156 | Whether a move leaves the mover's king attacked does not depend on the castling rights held when it is tried |
| Rules.SieveExact | ChessEngine.py:150-156 | The sieve keeps a candidate exactly when it keeps the mover's king safe |
| Rules.FilterExact | ChessEngine.py:150-156 | The filter keeps exactly the entries marked kept |
| Rules.RemoveFirst | ChessEngine.py:154 | `list.remove` of a present value (by `moveID`) shortens the list by one |
| Rules.RemoveFirstAt | ChessEngine.py:154 | When no earlier entry equals entry i, removing its value removes exactly index i |
| Rules.FilterStep | ChessEngine.py:150-156 | One round of the backwards loop (test entry i, remove it if unsafe) extends the filtered suffix by entry i |
| Legal.InitialPosition | ChessEngine.py:11-36 | The starting position is well formed |
| Legal.PlayRoundTrip | ChessEngine.py:42-113 | Undoing a move after making it brings back the position. This covers the board, side to move, king cache, and the logged en-passant target and rights |
| Legal.CastleMovesReversible | ChessEngine.py:312-334 | A castle move starts on the king's cached square and goes two columns along its row; it can be undone exactly |
| Legal.PossibleMoveReversible | ChessEngine.py:192-234 | A pseudo-legal move in a well-formed position can be undone exactly and moves a king only from its cached square |
| Legal.CandidatesReversible | ChessEngine.py:145-149 | Every candidate of `getValidMoves` can be made and undone exactly |
| Legal.KingStepsShort | ChessEngine.py:295-307 | A king's own moves go at most one column |
| Legal.PossibleApartFromCastles | ChessEngine.py:145-149 | No pseudo-legal move has the squares of a castle move |
| Legal.CandidatesDistinct | ChessEngine.py:145-154 | No two candidates share both squares, so no two are equal under `moveID` |
| Legal.CandidatesTestable | ChessEngine.py:145-156 | The candidates meet what the make / test / undo loop needs |
| Legal.ValidMovesExact | ChessEngine.py:141-167 | A move is returned exactly when it is a candidate (pseudo-legal or castle) that leaves the mover's king unattacked |
| MoveGenProps.PawnCaptureSound | ChessEngine.py:210-219 | A pawn's diagonal move from its square is pseudo-legal. An ordinary capture takes an enemy piece; an en-passant capture lands on the target square, one row forward, and takes an enemy pawn |
| MoveGenProps.PawnPushesSound | ChessEngine.py:206-224 | Each push of a pawn is a pseudo-legal move from its square |
| MoveGenProps.PawnMovesSound | ChessEngine.py:204-234 | Every pawn move is pseudo-legal |
| MoveGenProps.StepMovesSound | ChessEngine.py:277-307 | Knight and king steps are pseudo-legal |
| MoveGenProps.RayMovesSound | ChessEngine.py:244-254 | A ray's moves are pseudo-legal and lie strictly further along the ray |
| MoveGenProps.RaysMovesSound | ChessEngine.py:241-272 | Rook, bishop and queen moves are pseudo-legal |
| MoveGenProps.SquareMovesSound | ChessEngine.py:196-198 | The moves of any own piece are pseudo-legal |
| MoveGenProps.RowMovesSound | ChessEngine.py:195-198 | The moves scanned along a row so far are pseudo-legal |
| MoveGenProps.RowsBeforeSound | ChessEngine.py:194-198 | The moves scanned over the rows so far are pseudo-legal |
| MoveGenProps.AllPossibleMovesSound | ChessEngine.py:192-199 | Every move starts on a piece of the side to move. Its captured piece is empty or an enemy; an en-passant move records an enemy pawn as the captured piece. It is never a castle move, and its promotion flag is exact |
| MoveGenProps.RaySteps | ChessEngine.py:246-247 | A ray's moves advance one square at a time in its direction |
| MoveGenProps.RayOccupancy | ChessEngine.py:246-254 | Every ray square before the last is empty, and the last is empty or enemy |
| MoveGenProps.RayMaximal | ChessEngine.py:246-254 | A ray stops only at the board's edge, at an own piece, or right after an enemy piece |
| MoveGenProps.StepMovesFrom | ChessEngine.py:277-307 | Each knight or king move goes from the piece's square by exactly one offset of its table |
| MoveGenProps.StepMovesComplete | ChessEngine.py:277-307 | Every offset that lands on the board on an empty or enemy square yields a move |
| MoveGenProps.CastleMovesExact | ChessEngine.py:312-334 | Only the king's two castles can be generated, each only with its right. The kingside one is present exactly when the side is not in check and the two squares toward the rook are empty and unattacked. The queenside one is present exactly when the three squares toward the rook are empty and the two next to the king unattacked |
| MoveGenDistinct.PawnMovesDistinct | ChessEngine.py:204-234 | A pawn's moves end on different squares |
| MoveGenDistinct.StepMovesDistinct | ChessEngine.py:277-307 | Knight and king moves end on different squares |
| MoveGenDistinct.RayMovesDistinct | ChessEngine.py:244-254 | A ray's moves end on different squares |
| MoveGenDistinct.RaysMovesDistinct | ChessEngine.py:241-272 | The moves of all rays of a piece end on different squares |
| MoveGenDistinct.QueenMovesDistinct | ChessEngine.py:340-342 | A queen's bishop and rook moves all end on different squares |
| MoveGenDistinct.TablesDistinct | ChessEngine.py:242-296 | The direction and offset tables hold no repeated entry, and no rook direction is a bishop direction |
| MoveGenDistinct.SquareMovesDistinct | ChessEngine.py:196-198 | A piece's moves end on different squares |
| MoveGenDistinct.AllPossibleMovesDistinct | ChessEngine.py:192-199 | No two pseudo-legal moves share both squares |
| PlayInvariant.ScanComplete | ChessEngine.py:192-199 | Every move of every square's piece is among the pseudo-legal moves |
| PlayInvariant.KingAttacks | ChessEngine.py:295-307 | A king attacks every neighbouring square that is empty or holds an enemy piece |
| PlayInvariant.PawnPushesRows | ChessEngine.py:206-224 | A push stays in its column and goes one row forward, or two from the starting row over an empty square |
| PlayInvariant.PawnMovesRows | ChessEngine.py:204-234 | A pawn move goes one row forward, or is the double push from the starting row over an empty square |
| PlayInvariant.DoubleStepShape | ChessEngine.py:204-234 | A pseudo-legal two-row pawn move is an own pawn's double push: same column, from row 6 (White) or 1 (Black), over an empty square, and neither en passant, castle nor promotion |
| PlayInvariant.CellsAfter | ChessEngine.py:42-73 | After `makeMove`: the start square is empty, the end square holds the moved piece (a queen on promotion), the pawn taken en passant is gone, the castle rook is copied beside the king and its corner emptied, and no other cell changes |
| PlayInvariant.KingStaysCached | ChessEngine.py:42-73 | A king that is neither moved, taken nor copied by a move stays the only king of its colour, on its cached square |
| PlayInvariant.KingMovedCached | ChessEngine.py:48-51 | After a king's move, it is the only king of its colour, on the end square, as the cache update records |
| PlayInvariant.CachesAfter | ChessEngine.py:42-73 | A move that takes no king and copies none keeps both king caches right |
| PlayInvariant.PossibleKeepsKings | ChessEngine.py:192-199 | In a game position, no pseudo-legal move takes a king, and en passant takes an enemy pawn |
| PlayInvariant.CastleConditions | ChessEngine.py:312-334 | A castle candidate is a king move from the cached square onto an empty square; kingside, that square is not attacked |
| PlayInvariant.CastleKeepsKings | ChessEngine.py:67-73 | A castle that leaves the king safe copies no enemy king along with the rook |
| PlayInvariant.PlayKeepsEnpassant | ChessEngine.py:61-64 | After a move that sets a target only by a pseudo-legal double push, the target is sound: on row 5 (White moved) or 2 (Black moved), empty, with the pawn that just moved on the next row beyond it |
| PlayInvariant.PlayKeepsCaches | ChessEngine.py:48-51 | A move keeping the kings leaves both king caches matching the board |
| PlayInvariant.PlayKeepsInPlay | ChessEngine.py:42-78 | A move `getValidMoves` returns, played in a game position, can be made and undone and leads to a game position |
| PlayInvariant.PlayedInPlay | ChessEngine.py:42-78 | As `PlayKeepsInPlay`, for a position already named as the result |
| PlayInvariant.DecayedRightsKeepInPlay | ChessEngine.py:100-105 | A game position stays one when its castling rights only lose flags, as the rights `undoMove` reads back from a cleared log entry do |
| PlayInvariant.RaysBlocked | ChessEngine.py:244-254 | A piece whose neighbours are all its own has no ray move |
| PlayInvariant.HomeSquareMoves | ChessEngine.py:192-199 | With White's pieces on rows 6 and 7, every White move ends on a row numbered 4 or more |
| PlayInvariant.InitialInPlay | ChessEngine.py:11-36 | The starting position is a game position: well formed, and Black is not in check |
| Engine.WriteThroughDecays | ChessEngine.py:150-156 | A write through the shared object changes the log only at the current or the initially shared entry, and only by clearing flags |
| Engine.AliasedKingStepClearsLoggedRights | ChessEngine.py:104-105 | Once log entry 1 is the current object, trying the castle e1-g1 leaves that entry without any White right |
| Engine.GameState.constructor | ChessEngine.py:11-36 | The standard start: an empty move log, both logs holding one entry with all rights and no en-passant target, no mate flag, and no shared rights object |
| Engine.GameState.UpdateCastleRights | ChessEngine.py:118-136 | The current rights become `UpdatedRights`, written through to the log entry that is the same object |
| Engine.GameState.MakeMove | ChessEngine.py:42-78 | The state becomes the position after the move. Each log gains one entry: the move, the new target, and a copy of the new rights. The logs stay in step. A move `getValidMoves` returned, played in a game position, leads to a game position |
| Engine.GameState.MovePieces | ChessEngine.py:43-73 | The board becomes the board after the move, promotion, en passant and the castle rook included. The move is logged, the side flips, the king cache follows, and the target is `NextEnpassant` |
| Engine.GameState.FollowKing | ChessEngine.py:48-51 | The king cache follows a king move and nothing else |
| Engine.GameState.PromoteAndTakePassed | ChessEngine.py:54-59 | Promotion to a queen, and removal of the pawn taken en passant |
| Engine.GameState.UpdateEnpassantPossible | ChessEngine.py:61-64 | The target is set as `NextEnpassant` states |
| Engine.GameState.MoveCastleRook | ChessEngine.py:67-73 | The castle rook jumps beside the king |
| Engine.GameState.UndoMove | ChessEngine.py:83-113 | An empty log changes nothing. Otherwise the last move is undone with the previous logged target and rights, each log loses its last entry, and the current rights become the log's top entry itself |
| Engine.GameState.PopLogs | ChessEngine.py:100-105 | Each log loses its top. The current target and rights come from the new top, and the rights are that very entry |
| Engine.GameState.ReturnPieces | ChessEngine.py:85-93 | The moved and captured pieces go back, the side flips back, and the king cache returns |
| Engine.GameState.ReturnKing | ChessEngine.py:90-93 | The king cache returns to the start square of a king move |
| Engine.GameState.RestorePassed | ChessEngine.py:96-98 | The pawn taken en passant goes back beside the start square |
| Engine.GameState.ReturnCastleRook | ChessEngine.py:107-113 | The castle rook goes back to its corner |
| Engine.GameState.GetPawnMoves | ChessEngine.py:204-234 | Appends exactly the pawn moves of the reference rule |
| Engine.GameState.GetPawnPushes | ChessEngine.py:206-224 | Appends exactly the one- and two-row pushes |
| Engine.GameState.GetPawnCapture | ChessEngine.py:210-214 | Appends the capture or en-passant capture onto one diagonal |
| Engine.GameState.GetRay | ChessEngine.py:245-254 | The `while` loop appends exactly the ray's moves |
| Engine.GameState.GetRayMoves | ChessEngine.py:244-254 | Appends the rays of every direction, in table order |
| Engine.GameState.GetRookMoves | ChessEngine.py:241-254 | Appends exactly the rook's four rays |
| Engine.GameState.GetBishopMoves | ChessEngine.py:259-272 | Appends exactly the bishop's four rays |
| Engine.GameState.GetQueenMoves | ChessEngine.py:340-342 | Appends the bishop's moves, then the rook's |
| Engine.GameState.GetStepMoves | ChessEngine.py:280-288 | The offset loop appends exactly the single steps of the table |
| Engine.GameState.GetKnightMoves | ChessEngine.py:277-288 | Appends exactly the knight's steps |
| Engine.GameState.GetKingMoves | ChessEngine.py:295-307 | Appends exactly the king's one-square steps |
| Engine.GameState.GetSquareMoves | ChessEngine.py:196-198 | Dispatches on the piece of the side to move, appending its moves |
| Engine.GameState.GetAllPossibleMoves | ChessEngine.py:192-199 | The nested scan returns exactly the pseudo-legal moves, in row-major order |
| Engine.GameState.SquareUnderAttack | ChessEngine.py:180-187 | True exactly when some opponent move ends on the square. The state is left unchanged, turn flag included |
| Engine.GameState.InCheck | ChessEngine.py:172-175 | Whether the mover's cached king square is attacked, with no state change |
| Engine.GameState.GetKingsideCastleMoves | ChessEngine.py:323-326 | Appends the castle exactly when both squares toward the rook are empty and unattacked |
| Engine.GameState.GetQueensideCastleMoves | ChessEngine.py:331-334 | Appends the castle exactly when the three squares toward the rook are empty and the two next to the king unattacked |
| Engine.GameState.GetCastleMoves | ChessEngine.py:312-318 | Appends nothing when in check. Otherwise appends the castles whose right the side still holds |
| Engine.GameState.TryCandidate | ChessEngine.py:151-156 | Make, flip, test, flip, undo: the verdict is whether the candidate keeps the king safe. The position comes back, except that the rights are the log's top entry. That entry has taken the rights update through the shared object |
| Engine.GameState.TwoRounds | ChessEngine.py:150-156 | Two rounds of the loop from a state with no shared rights object: the second round's rights update lands in the log's top entry, and a White king move there clears both White flags of that entry |
| Engine.GameState.SieveStep | ChessEngine.py:151-156 | One round of the backwards loop extends the filtered suffix and keeps the rights log decayed |
| Engine.GameState.FilterCandidates | ChessEngine.py:150-156 | The loop returns the safe candidates in order. The move and target logs are unchanged, and the rights log loses flags at most at two entries |
| Engine.GameState.GetCandidates | ChessEngine.py:145-149 | Returns the pseudo-legal moves followed by the castle moves from the own king's cached square |
| Engine.GameState.GenerateAndFilter | ChessEngine.py:145-156 | The candidates are generated and sieved by the loop into exactly the valid moves. The position comes back except for the current rights object. The move and target logs are unchanged, and the rights log has only lost flags |
| Engine.GameState.SieveCandidates | ChessEngine.py:145-156 | As `GenerateAndFilter`, and the mate flags are left alone |
| Engine.GameState.SetMateFlags | ChessEngine.py:157-164 | With no move left: checkmate if in check, else stalemate. Otherwise both flags are cleared |
| Engine.GameState.Conclude | ChessEngine.py:157-166 | Sets the mate flags, then restores the saved target and a fresh copy of the saved rights |
| Engine.GameState.ValidMovesAt | ChessEngine.py:141-167 | As `GetValidMoves`, from a named position |
| Engine.GameState.GetValidMoves | ChessEngine.py:141-167 | Returns exactly `ValidMoves` and restores the position. The move and target logs are unchanged and no rights object is left shared. The mate flags follow the result, and the rights log has only lost flags |
| Engine.GameState.UndoMoveFixed | ChessEngine.py:83-113 | `undoMove` with the rights taken as a fresh copy of the log's top. It is otherwise as `UndoMove`, and leaves no rights object shared |
| Engine.GameState.PopLogsFixed | ChessEngine.py:100-105 | Each log loses its top, and the current rights become a copy of the new top |
| Engine.GameState.TryCandidateFixed | ChessEngine.py:151-156 | With the corrected undo, one round leaves all three logs exactly as they were |
| Engine.GameState.SieveStepFixed | ChessEngine.py:151-156 | One corrected round extends the filtered suffix and keeps the rights log unchanged |
| Engine.GameState.FilterCandidatesFixed | ChessEngine.py:150-156 | The corrected loop returns the safe candidates in order with all logs unchanged |
| Engine.GameState.GenerateAndFilterFixed | ChessEngine.py:145-156 | The corrected generation and sieve yield exactly the valid moves with all logs unchanged |
| Engine.GameState.SieveCandidatesFixed | ChessEngine.py:145-156 | As `GenerateAndFilterFixed`, and the mate flags are left alone |
| Engine.GameState.ValidMovesAtFixed | ChessEngine.py:141-167 | As `GetValidMovesFixed`, from a named position |
| Engine.GameState.GetValidMovesFixed | ChessEngine.py:141-167 | As `GetValidMoves`, and the castling-rights log is left exactly as it was |

## Left out

- `ChessMain.py` is not part of this model: the window, event loop, drawing and mouse input. Matching a clicked move against the valid moves is caller context.
- The dispatch table `moveFunctions` is a `match` on the piece kind in `MoveGen.PieceMoves` and `Engine.GameState.GetSquareMoves`.
- Pieces are a datatype, not two-character strings. Promotion writes a queen of the mover's colour.
- The Python `isinstance` test in `__eq__` is not modelled: Dafny compares only moves with moves.
- Python's negative-index wrap-around in the pawn rule is not modelled. Instead the generators require that no pawn stands on its own last rank, an invariant of every board the engine produces.
- Engine.GameState.GetPawnMoves: requires a white pawn to be off row 0 and a black pawn off row 7. This is the invariant above; the source would wrap around or fail there.
- Engine.GameState.GetCastleMoves: requires the king's squares toward an available rook to be on the board. A king holding a right is on its home square, where this holds.
- Engine.GameState.MakeMove: requires the move to be self-consistent. It must be on the board, its promotion flag exact, and its castle flag on a two-column king move. Moves from the constructor on generated squares meet this; hand-built inconsistent moves are not covered.
- Engine.GameState.GetValidMoves: requires a well-formed position (`Legal.Sound`): king caches that match the board, rights only for kings at home, a sound en-passant target.
  - Game positions (`PlayInvariant.InPlay`) are well formed. The starting position is one (`PlayInvariant.InitialInPlay`), and `makeMove` of a move `getValidMoves` returned leads to another (`PlayInvariant.PlayKeepsInPlay`, `Engine.GameState.MakeMove`).
  - The constructor's contract states the starting position; that it is a game position is the separate lemma `PlayInvariant.InitialInPlay`.
  - `undoMove` brings back the position the move was made from, but with the logged rights, which `getValidMoves` may have cleared (see "## Findings"). `Legal.PlayRoundTrip` states the round trip when the logged rights are those the move was made with, and `PlayInvariant.DecayedRightsKeepInPlay` states that rights which have only lost flags keep a game position one, so `getValidMoves` may be asked again after the undo.
  - `Legal.ValidMoves` is defined as empty outside well-formed positions only to make it total.
- Engine.GameState.GetValidMoves: the castling-rights log is stated only up to `RightsDecayed`, not entry by entry. Entries other than the current one and the initially shared one are unchanged, and no entry gains a flag.
- The constructor's first rights log entry is built with its arguments in a different order from `CastleRights`' parameters. This is harmless, since all four are true, and is modelled as all true.
- No scripted games, move counting over game trees, or named mate or stalemate positions are proved; the properties are stated for single operations.
- Python integers are unbounded, and the model's are too. No value can overflow: square coordinates and the bounds tests on them stay within -2..9, and move identifiers within 0..7777.

## Findings

| source | as written | input that shows it | evidently intended | confidence | as-written member | corrected member |
|---|---|---|---|---|---|---|
| ChessEngine.py:105 | `undoMove` makes the current castling rights the log's top object. Each later round of `getValidMoves`' make/test/undo loop clears flags of that log entry through `UpdateCastleRights`. `getValidMoves` then installs a fresh copy as the current rights but leaves the log entry cleared | White king e1, rook h1, black king e8, White to move with every right. Both castles are generated, the queenside one e1-c1 last. The loop runs from the end of the list, so it tries e1-c1 first, and its undo makes log entry n the current object. The next round, the castle e1-g1, moves the king and so clears White's flags in entry n. After `getValidMoves`, any `makeMove` followed by `undoMove` restores entry n: White may no longer castle | `undoMove` takes a copy of the logged rights, so make then undo restores the rights and `getValidMoves` leaves the log unchanged | high; not executed | Engine.AliasedKingStepClearsLoggedRights | Engine.GameState.GetValidMovesFixed |

The corrected path consists of `UndoMoveFixed`, `PopLogsFixed`, `TryCandidateFixed`, `SieveStepFixed`, `FilterCandidatesFixed`, `GenerateAndFilterFixed`, `SieveCandidatesFixed`, `ValidMovesAtFixed` and `GetValidMovesFixed`. Its methods require and keep "no rights object shared". `GetValidMovesFixed` proves that the rights log comes back exactly. The as-written path (`UndoMove` through `GetValidMoves`) is kept beside it, and `TryCandidate`'s contract states the write-through that the lemma instantiates. `TwoRounds` runs two rounds of the loop from a state with no shared object, as in the input above, and states that a White king move in the second round clears both of White's flags in the log's top entry.
