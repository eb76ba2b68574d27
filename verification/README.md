# Chess rules and game reducer of the Chess- Android app

This project models the game core of the Chess- app, a two-player chess
board for Android written in Kotlin. The model is a Dafny program, and it
proves properties of that core. The core has five parts:

- **Piece geometry** (`geometry.dfy`, module `Geometry`): the free move
  generators of `ChessPiece.kt`. For each of the six kinds of piece they
  give the pseudo-legal quiet moves (the target is empty) and the
  pseudo-legal kills (the target holds a piece of another colour). The
  lists keep the source's direction order.
- **King safety** (`king_safety.dfy`, module `KingSafety`):
  - `simulateMove` and `findKingPosition`;
  - `King.isInCheck`;
  - the `filterSafeMoves` legality filter behind every `evaluateNextMove` /
    `evaluateNextKill`;
  - `King.isCheckMate`.
- **Starting position** (`chess_board.dfy`, module `ChessBoard`):
  `initializeChessBoard`, cell by cell, in the source's order. It also
  counts each side's army.
- **Game state** (`chess_state.dfy`, module `ChessState`): `ChessState` and
  the per-cell view `CellState`.
- **Reducer** (`view_model.dfy`, module `ChessViewModel`): `ChessViewModel`,
  written as a pure function `OnEvent(state, event)` over the three events
  `Play`, `Activate` and `Restart`.

`invariants.dfy` (module `GameInvariants`) proves what holds in every state
reachable from a fresh game. `scenarios.dfy` (module `Scenarios`) states a
few facts about concrete plays. On the starting position it covers refused
plays, the selection of the e-pawn, and the opening play e2 to e4. It also
covers a lone king's step. `squares.dfy` and `wrappers.dfy` hold the shared
vocabulary.

**Board representation.** The board is a sequence of 64 optional pieces.
Square (file, rank) sits at position `file * 8 + rank - 1`, which is the
order in which `initializeChessBoard` inserts the keys "a1".."a8",
"b1"..,"h8" into its `LinkedHashMap`. That order is observable, because
the king scan of `handlePlay` keeps the last match. A cell's text is the
glyph of its piece, and its `empty` flag says the cell holds no piece.
The four display flags (highlighted, danger, moved-from, moved-to) are
kept as four sets of squares beside the board.

**Quirks of the source, reproduced as written:**

- A kill test compares the target's colour with the colour on the
  *source* cell, so an empty source treats any piece as an enemy.
- The pawn double step checks only its destination square, not the square
  it passes over.
- A black pawn on rank 7 lists its double step first.
- `isInCheck` computes an opponent pawn's kills in the *defending king's*
  direction.
- `isCheckMate` does not require check, so a stalemate counts too. A side
  with no pieces is mated.
- Kill lists may contain an enemy king; nothing treats a king specially as a target.

**Turn and selection bookkeeping in the reducer:**

- `handlePlay` never checks `turn`. After a successful play the side to
  move is the opponent of the piece that moved (`ChessViewModel.kt:90`,
  `getNextTurn`). So a legal play by the side that is not to move is
  accepted and leaves `turn` unchanged (`ChessViewModel.PlayTurn`).
- A failed activation clears only the cell flags. `isActivated` and
  `clickedPiece` keep their values (`ChessViewModel.kt:32-39`).
- A refused play sets `isActivated` to false and clears the cell flags,
  but keeps `clickedPiece` (`ChessViewModel.kt:95-103`).

## Model

Source paths are relative to the repository root. Functions that only
compute (`MoveText`, `Collect`, the sliding generators, the kind
dispatch) have no row of their own: the lemma whose row cites their
lines states their property.

| member | source | states |
|---|---|---|
| Squares.Opponent | app/src/main/java/com/dibe/chess/Presentation/ChessPiece.kt:19 | The opponent colour is never the colour itself. |
| Squares.IndexRoundTrips | app/src/main/java/com/dibe/chess/Presentation/ChessBoard.kt:9-13 | The insertion order of the 64 keys is a bijection between squares and positions 0..63. |
| Squares.AllSquares | app/src/main/java/com/dibe/chess/Presentation/ChessPiece.kt:40-41 | The scan behind Kotlin's `board.all` holds exactly when the predicate holds on every square. |
| Squares.AnySquare | app/src/main/java/com/dibe/chess/Presentation/ChessPiece.kt:20 | The scan behind Kotlin's `board.any` holds exactly when some square satisfies the predicate. |
| Squares.GlyphRoundTrip | app/src/main/java/com/dibe/chess/Presentation/ChessPiece.kt:21-32 | Every glyph `isInCheck` dispatches on reads back as the piece it was drawn for. |
| Squares.GlyphInjective | app/src/main/java/com/dibe/chess/Presentation/ChessBoard.kt:17-45 | Two pieces share a glyph only when they are the same kind and colour. |
| Squares.NameRoundTrip | app/src/main/java/com/dibe/chess/Presentation/ChessPiece.kt:130 | Parsing a square's key with `cell[0]` and `cell[1].toString().toInt()` gives back the square. |
| Squares.ParseRoundTrip | app/src/main/java/com/dibe/chess/Presentation/ChessPiece.kt:130 | A key that parses is the name of the square it parses to. |
| Squares.KeyTestIsBoundsCheck | app/src/main/java/com/dibe/chess/Presentation/ChessPiece.kt:132-133 | The text built for a shifted coordinate is a key of the board exactly when the coordinate is on the board. |
| Geometry.KingTargetsAreAdjacent | app/src/main/java/com/dibe/chess/Presentation/ChessPiece.kt:127-129 | The king's eight direction offsets name exactly the squares adjacent to it. |
| Geometry.KnightTargetsAreJumps | app/src/main/java/com/dibe/chess/Presentation/ChessPiece.kt:239-242 | The knight's eight direction offsets name exactly the squares one knight jump away. |
| Geometry.StepMoves | app/src/main/java/com/dibe/chess/Presentation/ChessPiece.kt:131-134 | Walking a fixed target list keeps, in order, exactly the targets that are on the board and empty. |
| Geometry.StepKills | app/src/main/java/com/dibe/chess/Presentation/ChessPiece.kt:144-149 | Walking a fixed target list keeps, in order, exactly the targets holding a piece of another colour than the source cell. |
| Geometry.KingMoves | app/src/main/java/com/dibe/chess/Presentation/ChessPiece.kt:125-136 | A king's quiet moves, in direction order, are exactly the adjacent empty squares. |
| Geometry.KingKills | app/src/main/java/com/dibe/chess/Presentation/ChessPiece.kt:138-151 | A king's kills are exactly the adjacent squares holding another colour. |
| Geometry.KnightMoves | app/src/main/java/com/dibe/chess/Presentation/ChessPiece.kt:237-249 | A knight's quiet moves are exactly the empty squares one knight jump away. |
| Geometry.KnightKills | app/src/main/java/com/dibe/chess/Presentation/ChessPiece.kt:251-265 | A knight's kills are exactly the squares one jump away holding another colour. |
| Geometry.PawnMoves | app/src/main/java/com/dibe/chess/Presentation/ChessPiece.kt:267-282 | A pawn's quiet moves are exactly the empty square ahead and, from its home rank, the empty square two ahead, within its direction list. |
| Geometry.PawnKills | app/src/main/java/com/dibe/chess/Presentation/ChessPiece.kt:284-297 | A pawn's kills are exactly the two forward diagonals, for the given colour, that hold another colour. |
| Geometry.RayMoves | app/src/main/java/com/dibe/chess/Presentation/ChessPiece.kt:167-174 | One ray yields empty squares at consecutive steps and stops at the edge, at an occupied square, or after seven steps. |
| Geometry.RayKills | app/src/main/java/com/dibe/chess/Presentation/ChessPiece.kt:184-195 | One ray yields at most one kill: the square just past the empty run when it holds another colour. From an empty source, only the first step can be a kill. |
| Geometry.SlideMoves | app/src/main/java/com/dibe/chess/Presentation/ChessPiece.kt:161-176 | A sliding piece's quiet moves are the union of its rays' quiet moves. |
| Geometry.SlideKills | app/src/main/java/com/dibe/chess/Presentation/ChessPiece.kt:178-197 | A sliding piece's kills are the union of its rays' kills, at most one per direction. |
| Geometry.RayRunIsLongestClearPath | app/src/main/java/com/dibe/chess/Presentation/ChessPiece.kt:199-214 | A ray's quiet moves are its longest clear prefix of at most seven steps. |
| Geometry.RayMovesAreClearPaths | app/src/main/java/com/dibe/chess/Presentation/ChessPiece.kt:205-212 | A square is a quiet move along a ray exactly when every step up to it is on the board and empty. |
| Geometry.RayKillsEndClearPaths | app/src/main/java/com/dibe/chess/Presentation/ChessPiece.kt:222-233 | For an occupied source, a square is a kill along a ray exactly when every step before it is empty and it holds another colour. |
| Geometry.RayKillsReach | app/src/main/java/com/dibe/chess/Presentation/ChessPiece.kt:216-235 | A square is a kill along a ray exactly when it holds another colour and every step before it is empty; from an empty source cell only the first step can be a kill. |
| Geometry.SlideMovesReach | app/src/main/java/com/dibe/chess/Presentation/ChessPiece.kt:161-176 | The quiet moves over a list of directions are exactly the ends of clear walks along one of them. |
| Geometry.SlideKillsReach | app/src/main/java/com/dibe/chess/Presentation/ChessPiece.kt:178-197 | The kills over a list of directions are exactly the enemy pieces that end a clear walk along one of them. |
| Geometry.RookRays | app/src/main/java/com/dibe/chess/Presentation/ChessPiece.kt:161-197 | The rook moves to the ends of clear walks along the four file and rank directions, and kills the first enemy piece after such a walk. |
| Geometry.BishopRays | app/src/main/java/com/dibe/chess/Presentation/ChessPiece.kt:199-235 | The bishop does the same along the four diagonals. |
| Geometry.QueenRays | app/src/main/java/com/dibe/chess/Presentation/ChessPiece.kt:153-159 | The queen does the same along all eight directions. |
| Geometry.PseudoMovesByKind | app/src/main/java/com/dibe/chess/Presentation/ChessPiece.kt:125-282 | For each kind of piece, its quiet moves in geometric terms: king to an adjacent empty square, knight to an empty square a knight's jump away, pawn one step forward or two from its home rank onto an empty square, sliders to the ends of clear walks. |
| Geometry.PseudoKillsByKind | app/src/main/java/com/dibe/chess/Presentation/ChessPiece.kt:138-297 | For each kind of piece, its kills in geometric terms: the same shapes, ending on a piece of another colour; a pawn kills on its two forward diagonals. |
| Geometry.SlideMovesConcat | app/src/main/java/com/dibe/chess/Presentation/ChessPiece.kt:153-155 | Sliding quietly over two direction lists is sliding over each in turn. |
| Geometry.SlideKillsConcat | app/src/main/java/com/dibe/chess/Presentation/ChessPiece.kt:157-159 | Killing over two direction lists is killing over each in turn. |
| Geometry.QueenWalksEightRays | app/src/main/java/com/dibe/chess/Presentation/ChessPiece.kt:153-159 | The queen's lists are the walks along the rook's rays followed by the bishop's. |
| Geometry.SlideMoveTargets | app/src/main/java/com/dibe/chess/Presentation/ChessPiece.kt:171 | Every sliding quiet move lands on an empty square. |
| Geometry.SlideKillTargets | app/src/main/java/com/dibe/chess/Presentation/ChessPiece.kt:188-191 | Every sliding kill lands on a piece of another colour than the source. |
| Geometry.PseudoTargets | app/src/main/java/com/dibe/chess/Presentation/ChessPiece.kt:125-297 | For every kind, quiet moves land on empty squares and kills on another colour. |
| Geometry.MovesAndKillsDisjoint | app/src/main/java/com/dibe/chess/Presentation/ChessPiece.kt:125-297 | No square is both a quiet move and a kill, and an occupied square never targets itself. |
| Geometry.PawnDoubleStepIgnoresMiddle | app/src/main/java/com/dibe/chess/Presentation/ChessPiece.kt:271-278 | From its home rank, a pawn's double step is listed even when the square it passes over is occupied. |
| KingSafety.SimulateMove | app/src/main/java/com/dibe/chess/Presentation/ChessPiece.kt:111-116 | The source cell is emptied, the destination gets the moved piece, and every other cell is unchanged. |
| KingSafety.FindKingPosition | app/src/main/java/com/dibe/chess/Presentation/ChessPiece.kt:119-121 | Returns the first square in board order holding the king of the colour, or nothing exactly when there is no such king. |
| KingSafety.FindLastKing | app/src/main/java/com/dibe/chess/Presentation/ChessViewModel.kt:71-77 | The overwriting scan keeps the last square in board order holding the king, or nothing exactly when there is no such king. |
| KingSafety.FirstAndLastKingAgree | app/src/main/java/com/dibe/chess/Presentation/ChessViewModel.kt:71-77 | With at most one king of a colour, both scans find the same square. |
| KingSafety.IsInCheck | app/src/main/java/com/dibe/chess/Presentation/ChessPiece.kt:18-37 | A king is in check exactly when it exists and some opponent piece's pseudo-legal kill list contains its square. A missing king is never in check. |
| KingSafety.FilterSafeMoves | app/src/main/java/com/dibe/chess/Presentation/ChessPiece.kt:103-108 | The filter keeps, in order, exactly the candidates after which the mover's king is not in check, each as often as it occurs among the candidates. |
| KingSafety.EvaluateNextMove | app/src/main/java/com/dibe/chess/Presentation/ChessPiece.kt:10-95 | A piece's legal quiet moves are exactly its pseudo-legal moves that leave its king safe, in order. An empty cell has none. |
| KingSafety.EvaluateNextKill | app/src/main/java/com/dibe/chess/Presentation/ChessPiece.kt:10-95 | A piece's legal kills are exactly its pseudo-legal kills that leave its king safe, in order. An empty cell has none. |
| KingSafety.KingActionsBounded | app/src/main/java/com/dibe/chess/Presentation/ChessPiece.kt:125-151 | A king has at most eight legal moves and at most eight legal kills. |
| KingSafety.IsCheckMate | app/src/main/java/com/dibe/chess/Presentation/ChessPiece.kt:39-46 | A colour is mated exactly when none of its pieces has a legal move or kill. |
| KingSafety.LegalActionsKeepKingSafe | app/src/main/java/com/dibe/chess/Presentation/ChessPiece.kt:103-108 | After any legal move or kill is played, the mover's king is not in check. |
| KingSafety.LegalTargets | app/src/main/java/com/dibe/chess/Presentation/ChessViewModel.kt:43-47 | A legal quiet move lands on an empty cell and a legal kill on another colour. Neither is the piece's own cell, so the early return at line 47 never fires. |
| KingSafety.PawnAttacksInDefendersDirection | app/src/main/java/com/dibe/chess/Presentation/ChessPiece.kt:31-32 | An opponent pawn attacks a king exactly when the king is diagonally ahead of the pawn in the king's own direction. |
| KingSafety.NoPiecesIsCheckMate | app/src/main/java/com/dibe/chess/Presentation/ChessPiece.kt:39-46 | A colour with no piece on the board is reported as mated. |
| ChessBoard.FileSlice | app/src/main/java/com/dibe/chess/Presentation/ChessBoard.kt:9-13 | The eight cells of a file are consecutive in board order. |
| ChessBoard.EmptyCells | app/src/main/java/com/dibe/chess/Presentation/ChessBoard.kt:8-13 | Inserting the 64 keys file by file and rank by rank gives a board with every cell empty. |
| ChessBoard.PlacePawns | app/src/main/java/com/dibe/chess/Presentation/ChessBoard.kt:15-19 | After the pawn loop, ranks 2 and 7 hold their pawns and every other cell is still empty. |
| ChessBoard.PlaceRooks | app/src/main/java/com/dibe/chess/Presentation/ChessBoard.kt:21-25 | Placing the rooks completes the back ranks of files a and h and changes nothing else. |
| ChessBoard.PlaceKnights | app/src/main/java/com/dibe/chess/Presentation/ChessBoard.kt:27-31 | Placing the knights completes the back ranks of files b and g and changes nothing else. |
| ChessBoard.PlaceBishops | app/src/main/java/com/dibe/chess/Presentation/ChessBoard.kt:33-37 | Placing the bishops completes the back ranks of files c and f and changes nothing else. |
| ChessBoard.PlaceRoyals | app/src/main/java/com/dibe/chess/Presentation/ChessBoard.kt:39-45 | Placing the queens and then the kings completes the back ranks of files d and e and changes nothing else. |
| ChessBoard.SetUpComplete | app/src/main/java/com/dibe/chess/Presentation/ChessBoard.kt:21-46 | Once all eight files are placed, the board is the standard layout. |
| ChessBoard.InitializeChessBoard | app/src/main/java/com/dibe/chess/Presentation/ChessBoard.kt:3-47 | The board built cell by cell is the standard layout on every square. |
| ChessBoard.FilesFromCount | app/src/main/java/com/dibe/chess/Presentation/ChessBoard.kt:16-45 | From any file onwards, each file contributes one pawn of each colour plus its back-rank pieces. |
| ChessBoard.StandardLayoutCounts | app/src/main/java/com/dibe/chess/Presentation/ChessBoard.kt:15-45 | Each side starts with one king, one queen, two rooks, two knights, two bishops and eight pawns. |
| ChessBoard.StartingArmies | app/src/main/java/com/dibe/chess/Presentation/ChessBoard.kt:15-45 | Each side starts with sixteen pieces and exactly one king, on e1 for white and e8 for black. |
| ChessState.InitialState | app/src/main/java/com/dibe/chess/Presentation/ChessState.kt:3-15 | A fresh game has empty lists, no flags set, no selection, no recorded king, the starting board, no marks, and white to move. |
| ChessState.CellAt | app/src/main/java/com/dibe/chess/Presentation/CellState.kt:3-12 | A cell is empty exactly when it holds no piece. It has text exactly when it is not empty, and that text reads back as its piece. |
| ChessState.InitialCells | app/src/main/java/com/dibe/chess/Presentation/ChessBoard.kt:11-45 | In a fresh game, ranks 3 to 6 are empty with no text. Every other cell shows its starting piece's glyph, and no flag is set anywhere. |
| ChessViewModel.ActivationMarks | app/src/main/java/com/dibe/chess/Presentation/ChessViewModel.kt:119-129 | Highlighted squares are exactly the legal quiet moves, and danger squares exactly the legal kills. The two never overlap. |
| ChessViewModel.HandleActivation | app/src/main/java/com/dibe/chess/Presentation/ChessViewModel.kt:20-40 | Clicking a piece of the side to move selects it and marks its legal destinations. Any other click only clears the marks, keeping the selection. Board, turn and records never change. |
| ChessViewModel.MarkedSquaresArePlayable | app/src/main/java/com/dibe/chess/Presentation/ChessViewModel.kt:20-45 | After a successful activation, a square is highlighted or in danger exactly when playing the selected piece there would be accepted. |
| ChessViewModel.MoveTextRoundTrip | app/src/main/java/com/dibe/chess/Presentation/ChessViewModel.kt:80-81 | An archive entry such as "e2 to e4" parses back to the two squares of the play it records. |
| ChessViewModel.NextTurn | app/src/main/java/com/dibe/chess/Presentation/ChessViewModel.kt:148-150 | The next side to move is the opponent of the piece on the clicked cell, and white when that cell is empty. |
| ChessViewModel.PlayCollectsCapturedPiece | app/src/main/java/com/dibe/chess/Presentation/ChessViewModel.kt:51-60 | A legal kill appends the victim's glyph to its own colour's list. A quiet move leaves both lists unchanged. |
| ChessViewModel.PlayRecordsOpponentKing | app/src/main/java/com/dibe/chess/Presentation/ChessViewModel.kt:67-89 | After a play, `kingInCheck` is the square of the opponent's king on the new board and `check` says whether an opponent piece attacks it. `checkMate` says whether every square is stuck for the opponent. |
| ChessViewModel.CheckFields | app/src/main/java/com/dibe/chess/Presentation/ChessViewModel.kt:67-78 | With no king of the opponent on the board, the king mark is NotFound and check and mate are false. Otherwise the mark names the last such king in board order, check says whether some opponent piece attacks it, and mate says whether every square is stuck for the side to move next. |
| ChessViewModel.HandlePlay | app/src/main/java/com/dibe/chess/Presentation/ChessViewModel.kt:42-104 | A legal play moves the piece, empties its source, leaves every other cell alone, and marks the two squares. It passes the turn to the mover's opponent, appends the archive entry and clears `isActivated`. A refused play only clears `isActivated` and the marks. Both keep `clickedPiece`. |
| ChessViewModel.PlayTurn | app/src/main/java/com/dibe/chess/Presentation/ChessViewModel.kt:83-93 | The turn flips when the side to move plays. A legal play by the other side leaves the turn unchanged. |
| ChessViewModel.OnEvent | app/src/main/java/com/dibe/chess/Presentation/ChessViewModel.kt:12-18 | Restart gives a fresh game. Activate never changes board or turn. Play changes the board by the simulated move exactly when it is legal. |
| GameInvariants.InitialStateValid | app/src/main/java/com/dibe/chess/Presentation/ChessState.kt:3-15 | A fresh game satisfies every invariant. |
| GameInvariants.SimulateMoveCount | app/src/main/java/com/dibe/chess/Presentation/ChessViewModel.kt:131-146 | Moving a piece removes one occurrence of the piece it lands on and keeps every other piece. |
| GameInvariants.PlayConservesKind | app/src/main/java/com/dibe/chess/Presentation/ChessViewModel.kt:51-65 | For each kind and colour, pieces on the board plus captured glyphs are unchanged by a legal play. |
| GameInvariants.PlayConservesPieces | app/src/main/java/com/dibe/chess/Presentation/ChessViewModel.kt:51-65 | A legal play preserves conservation of every starting piece. |
| GameInvariants.PlayKeepsCapturedColours | app/src/main/java/com/dibe/chess/Presentation/ChessViewModel.kt:54-60 | Each captured list keeps holding only glyphs of its own colour. |
| GameInvariants.PlayKeepsValid | app/src/main/java/com/dibe/chess/Presentation/ChessViewModel.kt:42-104 | A legal play keeps every invariant. |
| GameInvariants.ClicksKeepValid | app/src/main/java/com/dibe/chess/Presentation/ChessViewModel.kt:20-40 | An activation or a refused play keeps every invariant. |
| GameInvariants.OnEventKeepsValid | app/src/main/java/com/dibe/chess/Presentation/ChessViewModel.kt:12-18 | Every event keeps every invariant. |
| GameInvariants.RunKeepsValid | app/src/main/java/com/dibe/chess/Presentation/ChessViewModel.kt:12-18 | Any sequence of events from a valid state ends in a valid state. |
| GameInvariants.KingsUnique | app/src/main/java/com/dibe/chess/Presentation/ChessViewModel.kt:71-77 | In a valid state each colour has at most one king, so `findKingPosition` and the scan of `handlePlay` agree. |
| GameInvariants.ReachableKingsUnique | app/src/main/java/com/dibe/chess/Presentation/ChessViewModel.kt:71-77 | In every game reached from a fresh one, each colour has at most one king and both king scans agree. |
| Scenarios.PawnReach | app/src/main/java/com/dibe/chess/Presentation/ChessPiece.kt:267-297 | A pawn plays only one rank forward, or two straight ahead from its home rank. |
| Scenarios.PawnCannotLeap | app/src/main/java/com/dibe/chess/Presentation/ChessPiece.kt:267-282 | A white pawn on e2 cannot play to e5, whatever else stands on the board. |
| Scenarios.IllegalLeapRefused | app/src/main/java/com/dibe/chess/Presentation/ChessViewModel.kt:95-103 | Asking a fresh game to play e2 to e5 leaves it exactly as it was. |
| Scenarios.ActivateOutOfTurnIgnored | app/src/main/java/com/dibe/chess/Presentation/ChessViewModel.kt:20-39 | In a fresh game, clicking a black piece while white is to move changes nothing. |
| Scenarios.NoBlackNoCheck | app/src/main/java/com/dibe/chess/Presentation/ChessPiece.kt:18-37 | On a board without black pieces the white king is never in check. |
| Scenarios.KingStepWithoutEnemies | app/src/main/java/com/dibe/chess/Presentation/ChessPiece.kt:10-12 | With no black piece on the board, a white king may play to any adjacent empty square. |
| Scenarios.LoneKingMayStep | app/src/main/java/com/dibe/chess/Presentation/ChessPiece.kt:10-12 | A lone white king on a1 may play to a2. |
| Scenarios.SomePlaySucceeds | app/src/main/java/com/dibe/chess/Presentation/ChessViewModel.kt:42-45 | The play condition of `handlePlay` can hold: some play is accepted. |
| Scenarios.KingStepPlayed | app/src/main/java/com/dibe/chess/Presentation/ChessViewModel.kt:42-93 | Such a king step is carried out: the king arrives, its square empties, the play is archived, black is to move, and with no black king the check fields report nothing. |
| Scenarios.LoneKingStep | app/src/main/java/com/dibe/chess/Presentation/ChessViewModel.kt:42-93 | White plays its lone king from a1 to a2, and the archive records "a1 to a2". |
| Scenarios.LegalActionsArePseudo | app/src/main/java/com/dibe/chess/Presentation/ChessPiece.kt:10-95 | Every legal move or kill of a piece is among its pseudo-legal ones for its kind and colour. |
| Scenarios.PawnKillIsDiagonal | app/src/main/java/com/dibe/chess/Presentation/ChessPiece.kt:284-297 | A pawn's legal kill lands on an occupied square one of its two forward diagonals away. |
| Scenarios.E1Unattacked | app/src/main/java/com/dibe/chess/Presentation/ChessPiece.kt:18-37 | With black on its starting squares of ranks 7 and 8 and nothing black below, no black piece attacks e1. |
| Scenarios.OpeningPawnStepLegal | app/src/main/java/com/dibe/chess/Presentation/ChessPiece.kt:89-92 | From the starting layout white's e-pawn may legally move to e3 and to e4. |
| Scenarios.OpeningPawnMoves | app/src/main/java/com/dibe/chess/Presentation/ChessPiece.kt:267-282 | From the starting layout the e-pawn's legal moves are e3 and e4 and no other square. |
| Scenarios.OpeningPawnKills | app/src/main/java/com/dibe/chess/Presentation/ChessPiece.kt:284-297 | From the starting layout the e-pawn has no legal kill. |
| Scenarios.SelectKingsPawn | app/src/main/java/com/dibe/chess/Presentation/ChessViewModel.kt:20-31 | Clicking e2 on the starting layout with white to move selects e2, highlights exactly e3 and e4, and marks no danger. |
| Scenarios.FirstClickOnE2 | app/src/main/java/com/dibe/chess/Presentation/ChessViewModel.kt:20-31 | In a fresh game, clicking e2 activates it and highlights exactly e3 and e4. |
| Scenarios.OpeningE4 | app/src/main/java/com/dibe/chess/Presentation/ChessViewModel.kt:42-93 | Playing e2 to e4 from the starting layout moves the pawn, keeps every other square, archives the play, gives black the turn and records black's king on e8. |
| Scenarios.FirstMoveE4 | app/src/main/java/com/dibe/chess/Presentation/ChessViewModel.kt:42-93 | In a fresh game e2 to e4 leaves black to move, the archive reading "e2 to e4", black's king recorded on e8, and a state that satisfies the game invariant. |

## Left out

- The Compose screens, navigation, `MainActivity`, `StateFlow` and the
  logging calls are user interface and I/O, outside the game core.
- `evaluateEnPassant` / `getEnPassantKills` are never called by the
  reducer, so they are not modelled. The app has no castling and no
  promotion, so neither does the model.
- `ChessState.possibleMoves` and `CellState.isCheckMate` are never
  written, so they are not modelled.
- The unused list built at `ChessPiece.kt:270` is not modelled. The same
  goes for the intermediate write of `kingInCheck` at
  `ChessViewModel.kt:75`, which line 88 always overwrites.
- Event strings are parsed squares here. A key that names no cell is not
  modelled. The empty `cellFrom` that the screen sends with no selection
  acts like an empty source cell: the play is refused. The model covers it
  by playing from any empty square.
- The source copies a `CellState` map shallowly, so the scan at
  `ChessViewModel.kt:71` already sees the updated cells. The model
  reproduces this by using the post-move board for that scan, and does not
  model object identity otherwise.
- `simulateMove` keeps the text of the vacated cell while nulling its
  piece. `isInCheck` reads a cell's text but then also requires a piece of
  the opponent's colour, so that stale text never counts. The model derives
  text from the piece.
- A piece's `text` field ("king", "queen", ...) is modelled as its `Kind`.
- ChessViewModel.ApplyPlay has no contract of its own. Its effect is
  stated through ChessViewModel.HandlePlay and the lemmas that follow it.
- Scenarios.OpeningE4 and Scenarios.FirstMoveE4 do not state the `check`
  and `checkMate` flags after e2 to e4, only that they were computed for
  black's king on e8. Stating them would need every white piece's reach
  towards e8, and the legality of every black reply, on the new board.
