# Chessing rules in Dafny

This project models the rules engines of the chessing repository, a
chess game with two front ends, and proves properties of them.

- **`chess.py`, class `ChessBoard`** (the desktop game). It keeps an 8×8 grid of
  optional pieces, the side to move, a move history, the last move (for en
  passant) and two cached king squares, and updates them in place.
  `ChessEngine.ChessBoard` is a Dafny class with the same fields. Each of its
  methods is proved to compute a function of `ChessRules`, a pure statement
  of the rules over a snapshot `Game` of the fields:
  - the per-piece move generators;
  - attack and check detection;
  - the simulate-and-undo legality filter;
  - checkmate and stalemate;
  - the `make_move` transition.

  The `checking_check` flag of `get_piece_moves` becomes two functions.
  `PseudoMoves` is the flag set: no castling, no filter. `LegalMoves` is the
  default: castling added, then the filter. So the recursion through
  `is_square_attacked` ends by construction.

  `MoveShapes` characterises each generator without reference to list order:
  - a slider reaches every square up to the first occupied one, and that one
    only if an enemy holds it;
  - a knight jumps (1, 2) or (2, 1);
  - a king steps to a neighbour;
  - a pawn pushes, double-pushes, captures diagonally or takes en passant.

  `ChessRuleFacts` proves:
  - the legality filter's meaning;
  - that checkmate and stalemate exclude each other;
  - every effect of a successful move;
  - that a move keeps the state well formed.
- **`chessLogic.js`** (the browser front end). `ChessLogic` models
  `initializeBoard`, `isValidMove` and its two path-walking loops, and the
  copy-on-write `makeMove`. `RuleAgreement` proves that `isValidMove` accepts
  exactly the pseudo-legal moves `chess.py` lists for the same piece when no
  last move is recorded. Both programs start from the same layout, and
  `makeMove` agrees with `make_move` on ordinary moves.
- **`stockfishService.js`**. `StockfishService.BoardToFen` writes the
  piece-placement field of Forsyth–Edwards Notation. It is specified by
  `Fen.Placement`, which has a decoder and a round-trip proof: eight fields
  between seven `/`, each eight squares wide, with no two adjacent digits.
  `ParseMove` reads a UCI move such as `e2e4`. It is proved to invert the UCI
  name of any two squares.
- **`ChessGUI.get_fen_position`** (`chess.py`) is `ChessGui.GetFenPosition`.
  It writes the same placement field, followed by ` w ` or ` b `.

Quirks of `chess.py` that the model keeps:
- Attacks are read off the pseudo-legal move lists, so the empty square in
  front of an enemy pawn counts as attacked (`ChessRuleFacts.PawnPushAttacks`).
- The en passant generator checks neither the destination nor the colour of
  the passed pawn.
- The simulation in `_move_causes_check` moves only the mover. It removes no
  en passant victim and moves no castling rook.
- Castling does not check the rook's colour.
- Promotion always makes an unmoved Queen, which is then marked as moved.
- The move history stores the two strings as given.

Two quirks of the browser code are kept as well:
- `boardToFen` always reports White to move.
- `parseMove` drops the fifth character of a promotion move such as `e7e8q`.

## Model

| member | source | states |
|---|---|---|
| Pieces.Opponent | chess.py:371 | the side to move after a move is never the side that moved |
| Pieces.KindOfLetter | chess.py:10-16 | a letter that decodes to a piece type is that type's enum value |
| Pieces.KindLetterRoundTrip | chess.py:10-16 | each piece type is recovered from its letter |
| ChessEngine.ChessBoard.constructor | chess.py:32-38 | a new game has the standard layout, White to move, empty history, no last move, kings cached on (7, 4) and (0, 4), and is well formed |
| ChessEngine.ChessBoard.InitializeBoard | chess.py:40-58 | the two loops produce black back rank on row 0, black pawns on row 1, rows 2-5 empty, white pawns on row 6, white back rank on row 7, all unmoved |
| ChessEngine.ChessBoard.PushesFrom | chess.py:105-113 | one square forward onto an empty square, and two from the starting row when both are empty |
| ChessEngine.ChessBoard.CaptureTo | chess.py:115-119 | one pass of the capture loop lists the diagonal square towards the given column exactly when it is on the board and holds an enemy piece |
| ChessEngine.ChessBoard.EnPassantFrom | chess.py:122-128 | lists the square behind a pawn that has just advanced two rows and stands beside this one, on the same row |
| ChessEngine.ChessBoard.GetPawnMoves | chess.py:100-130 | returns exactly the pawn's pushes, captures and en passant step, in the source's order |
| ChessEngine.ChessBoard.SlideMoves | chess.py:137-149 | the while loops produce the rays of a slider in the given directions, in order |
| ChessEngine.ChessBoard.GetRookMoves | chess.py:132-151 | returns the four rook rays |
| ChessEngine.ChessBoard.GetBishopMoves | chess.py:170-189 | returns the four bishop rays |
| ChessEngine.ChessBoard.GetKnightMoves | chess.py:153-168 | returns the landable knight jumps in offset order |
| ChessEngine.ChessBoard.StepTo | chess.py:161-166 | one offset of the knight and king loops lists its target exactly when it is on the board and not held by the mover's side |
| ChessEngine.ChessBoard.GetKingSteps | chess.py:195-204 | the nested loops skipping (0, 0) return the landable neighbours in loop order |
| ChessEngine.ChessBoard.GetPseudoMoves | chess.py:75-93 | get_piece_moves with checking_check set: the piece's generator, the queen's being rook then bishop, nothing for an empty square |
| ChessEngine.ChessBoard.IsSquareAttacked | chess.py:265-275 | true exactly when some opposing piece lists the square among its pseudo-legal moves |
| ChessEngine.ChessBoard.AttacksFrom | chess.py:269-274 | one cell of the scan: an opposing piece whose pseudo-legal moves contain the square |
| ChessEngine.ChessBoard.AttackedFromRow | chess.py:268-274 | the column loop for one row finds an attacker in that row, or reports that none of its eight cells attacks the square |
| ChessEngine.ChessBoard.IsInCheck | chess.py:261-263 | the cached king square of the colour is attacked |
| ChessEngine.ChessBoard.GetCastlingMoves | chess.py:206-224 | an unmoved king gets (row, 6) when an unmoved rook is on column 7, columns 5-6 are empty, it is not in check and 5-6 are not attacked; (row, 2) likewise with column 0, columns 1-3 empty, 2-3 not attacked |
| ChessEngine.ChessBoard.MoveCausesCheck | chess.py:228-259 | the answer is whether the mover's king is attacked after moving only the mover; every field, both cells and both king caches included, is restored exactly |
| ChessEngine.ChessBoard.KeepSafe | chess.py:96-97 | keeps exactly the candidates whose simulation leaves the mover's king unattacked, in order, and leaves the state unchanged |
| ChessEngine.ChessBoard.GetLegalMoves | chess.py:75-98 | returns the legal moves (candidates that pass the filter, in order) and leaves the state unchanged |
| ChessEngine.ChessBoard.FindLegalMove | chess.py:282-289 | the scan shared by checkmate and stalemate answers whether some piece of the side has a legal move, and leaves the state unchanged |
| ChessEngine.ChessBoard.FindLegalMoveInRow | chess.py:283-288 | the column loop for one row finds a piece of the side with a legal move, or reports that no cell of the row has one; state unchanged |
| ChessEngine.ChessBoard.IsCheckmate | chess.py:277-289 | true exactly when the side is in check and no piece of it has a legal move; state unchanged |
| ChessEngine.ChessBoard.IsStalemate | chess.py:291-303 | true exactly when the side is not in check and no piece of it has a legal move; state unchanged |
| ChessEngine.ChessBoard.ApplyValidatedMove | chess.py:326-371 | performs the en passant removal, promotion, castling rook, relocation, king cache, last move, history and turn updates of the transition |
| ChessEngine.ChessBoard.PawnSpecials | chess.py:326-335 | the en passant capture clears the passed pawn's square, and a pawn reaching row 0 or 7 becomes a queen |
| ChessEngine.ChessBoard.CastleRook | chess.py:337-352 | a king moving two columns takes the rook from the corner on that side to the square it crossed, marked as moved |
| ChessEngine.ChessBoard.MakeMove | chess.py:305-375 | succeeds exactly when the transition accepts the move; on success the state is the transition's result, on failure nothing changes; the state stays well formed |
| ChessRuleFacts.StartingLayoutFacts | chess.py:32-58 | the initial layout has no pawn on rows 0 or 7 and its kings stand where the caches say |
| ChessRuleFacts.ApplyMoveWellFormed | chess.py:326-371 | a move keeps every pawn off rows 0 and 7 and the last move on the board |
| ChessRuleFacts.PawnPushAttacks | chess.py:265-275 | the empty square in front of an enemy pawn counts as attacked |
| ChessRuleFacts.FilterSafeMembership | chess.py:96-97 | the comprehension keeps exactly the candidates whose simulation leaves the mover's king unattacked |
| ChessRuleFacts.LegalMovesIff | chess.py:75-98 | a square is a legal move exactly when the square holds a piece and the target is a candidate whose simulation leaves the king unattacked |
| ChessRuleFacts.SimulateMovesOnlyTheMover | chess.py:229-243 | the simulation moves only the mover, keeps every other cell, the history, the last move and the turn, and changes only the mover's own king cache |
| ChessRuleFacts.UndoRestoresBoard | chess.py:229-250 | putting the mover and the captured piece back after the simulated move restores the grid exactly |
| ChessRuleFacts.MateOutcomesExclusive | chess.py:277-303 | checkmate and stalemate never both hold; a side has a legal move exactly when it is neither mated nor stalemated |
| ChessRuleFacts.NoMoveWhenMated | chess.py:282-288 | under checkmate or stalemate no piece of the side has a legal move |
| ChessRuleFacts.ApplyMoveEffects | chess.py:354-371 | the start is emptied, the destination holds the (promoted) mover marked as moved, the king cache follows a king only, the last move and history record the move, and the turn passes |
| ChessRuleFacts.ApplyMoveFrame | chess.py:326-356 | no cell changes besides start, destination, the en passant victim square and the castling rook squares |
| ChessRuleFacts.EnPassantRemovesPassedPawn | chess.py:327-331 | a diagonal pawn move onto an empty square clears (start row, end column) |
| ChessRuleFacts.PromotionToQueen | chess.py:333-335 | a pawn reaching row 0 or 7 becomes a moved Queen of its colour |
| ChessRuleFacts.CastlingMovesRook | chess.py:337-352 | a king moving from column 4 to 6 (2) moves the column 7 (0) piece to column 5 (3), marked as moved |
| ChessRuleFacts.LegalMoveLeavesStart | chess.py:75-98 | no legal move has the piece's own square as destination |
| ChessRuleFacts.ParseSquareName | chess.py:307-311 | parsing inverts the algebraic square name in either letter case, and any string that parses to a board square starts with its name |
| ChessRuleFacts.TryMoveOutcome | chess.py:305-372 | an accepted move was a legal move of a piece of the side to move named by the strings; afterwards the state is well formed, the start is empty, the move is recorded and the turn passes |
| ChessRuleFacts.TryMoveRejects | chess.py:305-324 | a string shorter than two characters or with a non-digit second character is refused, and otherwise a move is accepted exactly when both squares are on the board, the start holds a piece of the side to move and the target is legal |
| MoveShapes.RayMembership | chess.py:137-149 | a ray contains exactly the squares reached over empty squares, the last one not held by the mover's side |
| MoveShapes.RaysMembership | chess.py:137-151 | the rays in several directions contain exactly the squares reached along one of them |
| MoveShapes.RookMovesIff | chess.py:132-151 | the rook's list is exactly the squares it reaches along a row or column |
| MoveShapes.BishopMovesIff | chess.py:170-189 | the bishop's list is exactly the squares it reaches along a diagonal |
| MoveShapes.StepsMembership | chess.py:161-166 | the fixed-offset list is exactly the landable squares at one of the offsets |
| MoveShapes.KnightMovesIff | chess.py:153-168 | the knight's list is exactly the landable squares a (1, 2) or (2, 1) jump away |
| MoveShapes.KingStepsIff | chess.py:195-204 | the king's ordinary moves are exactly the landable neighbours |
| MoveShapes.PawnPushesIff | chess.py:105-112 | the pushes are exactly the single push onto an empty square and the double push from the starting row over two empty squares |
| MoveShapes.PawnCapturesIff | chess.py:114-119 | the two capture passes list exactly the diagonal steps forward onto an enemy piece |
| MoveShapes.EnPassantIff | chess.py:121-128 | the en passant list holds exactly the step behind a pawn that has just advanced two rows beside this one |
| MoveShapes.PawnMovesIff | chess.py:100-130 | a pawn target is a single push onto an empty square, a double push from the start row over two empty squares, a diagonal step onto an enemy, or the en passant step, and each of these is listed |
| MoveShapes.PseudoMovesShape | chess.py:75-93 | an empty square has no moves, a queen's moves are the rook's then the bishop's, and no non-pawn target is off the board or held by its own side |
| ChessLogic.InitializeBoard | chess-app/src/utils/chessLogic.js:15-44 | returns pawns on rows 1 and 6, back ranks R N B Q K B N R on rows 0 and 7, rows 2-5 null |
| ChessLogic.IsValidRookMove | chess-app/src/utils/chessLogic.js:132-148 | true exactly when the squares share a row or column and every square strictly between is empty |
| ChessLogic.IsValidBishopMove | chess-app/src/utils/chessLogic.js:150-166 | true exactly when the squares share a diagonal and every square strictly between is empty |
| ChessLogic.ValidMove | chess-app/src/utils/chessLogic.js:59-130 | a valid move has both squares, starts on a piece of the player, is not a null move and does not land on the player's piece |
| ChessLogic.IsValidMove | chess-app/src/utils/chessLogic.js:59-130 | computes the rule, with rook and bishop paths checked by the loops |
| ChessLogic.ValidMoveOfPiece | chess-app/src/utils/chessLogic.js:59-130 | for a piece of the player, a move is valid exactly when it goes to another square the player does not hold and the piece type's rule accepts it |
| ChessLogic.KingMoveIff | chess-app/src/utils/chessLogic.js:122-125 | a king moves to any other square at most one row and one column away that the player does not hold |
| ChessLogic.MovedBoard | chess-app/src/utils/chessLogic.js:168-177 | the start becomes null, the destination holds the start's piece, every other cell is unchanged |
| ChessLogic.MakeMove | chess-app/src/utils/chessLogic.js:168-177 | the copy-then-write body returns that board, and the input board is a value left as it was |
| RuleAgreement.StartingLayoutsAgree | chess-app/src/utils/chessLogic.js:15-44 | the browser's initial board shows chess.py's initial grid |
| RuleAgreement.SlideGivesPath | chess-app/src/utils/chessLogic.js:132-166 | a chess.py slide ends on a square the browser accepts as a clear line move |
| RuleAgreement.PathGivesSlide | chess-app/src/utils/chessLogic.js:132-166 | a clear line move in the browser is a chess.py slide |
| RuleAgreement.RookAgreement | chess-app/src/utils/chessLogic.js:132-148 | the browser's rook rule accepts exactly chess.py's rook list |
| RuleAgreement.BishopAgreement | chess-app/src/utils/chessLogic.js:150-166 | the browser's bishop rule accepts exactly chess.py's bishop list |
| RuleAgreement.PawnAgreement | chess-app/src/utils/chessLogic.js:72-102 | the browser's pawn rule accepts exactly chess.py's pawn list when no last move is recorded |
| RuleAgreement.KnightAgreement | chess-app/src/utils/chessLogic.js:107-112 | the browser's knight rule accepts exactly chess.py's knight list |
| RuleAgreement.KingAgreement | chess-app/src/utils/chessLogic.js:122-125 | the browser's king rule accepts exactly chess.py's ordinary king steps |
| RuleAgreement.ValidMoveIsPseudoMove | chess-app/src/utils/chessLogic.js:59-130 | isValidMove accepts exactly chess.py's pseudo-legal moves of the same piece with no last move recorded |
| RuleAgreement.MakeMoveAgreement | chess-app/src/utils/chessLogic.js:168-177 | on a move without en passant, castling or promotion, makeMove gives the board make_move gives, up to moved flags |
| Fen.PieceLetter | chess-app/src/utils/stockfishService.js:42-43 | White pieces are written as the upper-case type letter, Black pieces as the type letter |
| Fen.PieceLetterRoundTrip | chess-app/src/utils/stockfishService.js:42-43 | each piece is recovered from its letter |
| Fen.DecodeEncodeCells | chess-app/src/utils/stockfishService.js:36-51 | expanding the digits of a row's text gives back the pending empty squares and the row |
| Fen.RankFieldRoundTrip | chess-app/src/utils/stockfishService.js:34-51 | each row's field decodes to the row |
| Fen.EncodeCellsDigitsApart | chess-app/src/utils/stockfishService.js:36-51 | a run of empty squares is written as one digit, so no two digits are adjacent |
| Fen.EncodeCellsWidth | chess-app/src/utils/stockfishService.js:36-51 | digit values plus letters add up to the row's length |
| Fen.RankFieldShape | chess-app/src/utils/stockfishService.js:34-51 | each row field is eight squares wide, has no adjacent digits and holds no '/' or space |
| Fen.PlacementRoundTrip | chess-app/src/utils/stockfishService.js:30-58 | the placement splits into the eight row fields and, followed by a space and anything, decodes to the board |
| Fen.PlacementSlashes | chess-app/src/utils/stockfishService.js:52 | the placement holds exactly seven '/' |
| StockfishService.BoardToFen | chess-app/src/utils/stockfishService.js:30-58 | the nested loops write the placement field followed by " w KQkq - 0 1" |
| StockfishService.BoardToFenRoundTrip | chess-app/src/utils/stockfishService.js:30-58 | the whole string decodes to the board, and its eight fields are eight wide without adjacent digits |
| StockfishService.BoardToFenSlashes | chess-app/src/utils/stockfishService.js:52-56 | the whole string holds exactly seven '/' |
| StockfishService.FileIndex | chess-app/src/utils/stockfishService.js:61-64 | the column is the character's index in "abcdefgh", or -1 when it is absent or not a file |
| StockfishService.RankRow | chess-app/src/utils/stockfishService.js:63-65 | the row is 8 minus the digit, NaN for a non-digit or missing character |
| StockfishService.ParseUciMove | chess-app/src/utils/stockfishService.js:60-71 | any UCI move, whatever follows its four characters, is read back as its two squares |
| StockfishService.ParseMoveOnBoard | chess-app/src/utils/stockfishService.js:60-71 | the result is two board squares exactly when the string starts with file, rank, file, rank, and then it starts with their UCI name |
| ChessGui.GetFenPosition | chess.py:478-503 | the appended parts join to the placement field of the game's board followed by " w " or " b " for the side to move |
| ChessGui.FenPositionRoundTrip | chess.py:478-503 | the string decodes to the game's board, and its placement equals the one boardToFen writes for the same position |

## Left out

- `display_board` (chess.py:60-73), `Piece.__str__` and `getPieceSymbol` are not modelled. They only format output.
- The rest of `ChessGUI` (chess.py:377-692) is not modelled: the tkinter window, click handling, the Stockfish subprocess, the self-play thread and the evaluation bar. Neither are the React components, `App.js`, the Express server and `copyStockfish.js`. All of them are I/O, concurrency or floating-point display code.
- `initializeStockfish`, `getMoveFromStockfish` and `getEvaluation` are not modelled. They are Web Worker messaging with promises.
- Pieces are values. `has_moved` updates are modelled as writing the updated piece back into its cell. This is exact because no piece object ever sits in two cells, but object identity is not modelled.
- ChessEngine.ChessBoard.MakeMove: requires a well-formed state. That means no pawn on rows 0 or 7 and a last move on the board. Every reachable state is well formed (`StartingLayoutFacts`, `ApplyMoveWellFormed`). Outside such states the source's en passant step could index off the board; the model does not cover that.
- ChessRules.ParseSquare: models `int()` on the ASCII digits and `str.lower()` on the ASCII letters only. Other Unicode digits and letters are not modelled, and neither is a non-string argument.
- The king caches are not tied to the king cells by any invariant. The source does not maintain one either, because its simulation ignores the en passant victim.
- ChessLogic.IsValidMove: requires both squares, when given, to lie on the board. The browser only passes board squares. For other squares, JavaScript reads `undefined` or throws.
- ChessLogic.ValidMove: covers the six piece types only. The `default` branch for an unknown type string cannot be reached with this piece datatype.
- ChessLogic.MakeMove: requires both squares on the board, for the same reason.
- StockfishService.ParseMove: models strings as sequences of characters. JavaScript's UTF-16 code units are not modelled.
