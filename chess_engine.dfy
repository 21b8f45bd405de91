/** The ChessBoard class of chess.py: the grid, the side to move, the move
    history, the last-move record and the two cached king squares, updated
    in place. Each query is proved to return exactly what ChessRules
    defines, and make_move to perform ChessRules.TryMove. */
module ChessEngine {
  import opened Pieces
  import opened ChessRules
  import ChessRuleFacts

  class ChessBoard {
    var board: Grid
    var currentPlayer: Color
    var moveHistory: seq<(string, string)>
    var lastMove: Option<MoveRecord>
    var whiteKingPos: Square
    var blackKingPos: Square

    /** All fields, as one value. */
    function State(): Game
      reads this
    {
      Game(board, currentPlayer, moveHistory, lastMove, whiteKingPos, blackKingPos)
    }

    predicate Valid()
      reads this
    {
      WellFormed(State())
    }

    /** A new game: the standard layout, White to move, nothing recorded,
        the kings cached on e1 and e8. */
    constructor ()
      ensures Valid()
      ensures IsStartingLayout(board)
      ensures currentPlayer == White && moveHistory == [] && lastMove == None
      ensures whiteKingPos == (7, 4) && blackKingPos == (0, 4)
    {
      var b := InitializeBoard();
      board := b;
      currentPlayer := White;
      moveHistory := [];
      lastMove := None;
      whiteKingPos := (7, 4);
      blackKingPos := (0, 4);
      ChessRuleFacts.StartingLayoutFacts(b);
    }

    /** initialize_board: an empty 8x8 grid, then the pawns, then the back
        ranks. */
    static method InitializeBoard() returns (g: Grid)
      ensures IsGrid(g) && IsStartingLayout(g)
    {
      g := seq(8, _ => seq(8, _ => None));
      for col := 0 to 8
        invariant IsGrid(g)
        invariant forall c :: 0 <= c < col ==>
          g[1][c] == Some(Piece(Black, Pawn, false)) && g[6][c] == Some(Piece(White, Pawn, false))
        invariant forall r, c :: 0 <= r < 8 && 0 <= c < 8 && r != 1 && r != 6 ==> g[r][c] == None
      {
        g := Put(g, 1, col, Some(Piece(Black, Pawn, false)));
        g := Put(g, 6, col, Some(Piece(White, Pawn, false)));
      }
      var pieceOrder := BackRank;
      for col := 0 to 8
        invariant IsGrid(g)
        invariant forall c :: 0 <= c < 8 ==>
          g[1][c] == Some(Piece(Black, Pawn, false)) && g[6][c] == Some(Piece(White, Pawn, false))
        invariant forall r, c :: 2 <= r < 6 && 0 <= c < 8 ==> g[r][c] == None
        invariant forall c :: 0 <= c < col ==>
          g[0][c] == Some(Piece(Black, pieceOrder[c], false)) && g[7][c] == Some(Piece(White, pieceOrder[c], false))
      {
        g := Put(g, 0, col, Some(Piece(Black, pieceOrder[col], false)));
        g := Put(g, 7, col, Some(Piece(White, pieceOrder[col], false)));
      }
    }

    /** _get_pawn_moves: the pushes, the two diagonal captures in the order
        of its loop, then en passant. */
    method GetPawnMoves(row: int, col: int) returns (moves: seq<Square>)
      requires IsGrid(board) && LastMoveOk(lastMove) && OnBoard(row, col) && board[row][col].Some?
      ensures moves == PawnMoves(board, lastMove, board[row][col].value.color, row, col)
    {
      var piece := board[row][col].value;
      moves := PushesFrom(row, col, piece.color);

      // Captures
      var dcols := [-1, 1];
      for i := 0 to 2
        invariant moves == PawnPushes(board, piece.color, row, col) +
          (if i >= 1 then PawnCapture(board, piece.color, row, col, -1) else []) +
          (if i >= 2 then PawnCapture(board, piece.color, row, col, 1) else [])
      {
        var capture := CaptureTo(row, col, dcols[i], piece.color);
        moves := moves + capture;
      }

      var passant := EnPassantFrom(row, col, piece.color);
      moves := moves + passant;
    }

    /** The forward part of _get_pawn_moves: one square if it is empty,
        and two from the starting row if both are. */
    method PushesFrom(row: int, col: int, color: Color) returns (moves: seq<Square>)
      requires IsGrid(board) && OnBoard(row, col)
      ensures moves == PawnPushes(board, color, row, col)
    {
      moves := [];
      var direction := if color == Black then 1 else -1;
      if 0 <= row + direction < 8 && board[row + direction][col].None? {
        moves := moves + [(row + direction, col)];
        if (color == White && row == 6) || (color == Black && row == 1) {
          if board[row + 2 * direction][col].None? {
            moves := moves + [(row + 2 * direction, col)];
          }
        }
      }
    }

    /** The en passant part of _get_pawn_moves: the step behind a pawn that
        has just advanced two rows and now stands beside this one. */
    method EnPassantFrom(row: int, col: int, color: Color) returns (moves: seq<Square>)
      requires IsGrid(board) && LastMoveOk(lastMove)
      ensures moves == EnPassant(board, lastMove, color, row, col)
    {
      moves := [];
      var direction := if color == Black then 1 else -1;
      if lastMove.Some? {
        var m := lastMove.value;
        var lastPiece := board[m.endRow][m.endCol];
        if lastPiece.Some? && lastPiece.value.kind == Pawn && Abs(m.startRow - m.endRow) == 2
           && row == m.endRow && Abs(col - m.endCol) == 1
        {
          moves := [(row + direction, m.endCol)];
        }
      }
    }

    /** One pass of the pawn's capture loop: the diagonal square towards
        column col + dcol, if an enemy piece stands there. */
    method CaptureTo(row: int, col: int, dcol: int, color: Color) returns (capture: seq<Square>)
      requires IsGrid(board)
      ensures capture == PawnCapture(board, color, row, col, dcol)
    {
      capture := [];
      var direction := if color == Black then 1 else -1;
      if 0 <= col + dcol < 8 && 0 <= row + direction < 8 {
        var target := board[row + direction][col + dcol];
        if target.Some? && target.value.color != color {
          capture := [(row + direction, col + dcol)];
        }
      }
    }

    /** The loop shared by _get_rook_moves and _get_bishop_moves: one ray per
        direction, each walked with a while loop. */
    method SlideMoves(row: int, col: int, directions: seq<(int, int)>) returns (moves: seq<Square>)
      requires IsGrid(board) && OnBoard(row, col) && board[row][col].Some?
      requires forall i :: 0 <= i < |directions| ==> IsDirection(directions[i])
      ensures moves == Rays(board, board[row][col].value.color, row, col, directions)
    {
      moves := [];
      var piece := board[row][col].value;
      for i := 0 to |directions|
        invariant moves == Rays(board, piece.color, row, col, directions[..i])
      {
        var drow, dcol := directions[i].0, directions[i].1;
        var currentRow, currentCol := row + drow, col + dcol;
        ghost var before := moves;
        while 0 <= currentRow < 8 && 0 <= currentCol < 8
          invariant moves + Ray(board, piece.color, currentRow - drow, currentCol - dcol, drow, dcol)
                    == before + Ray(board, piece.color, row, col, drow, dcol)
          decreases RayMeasure(currentRow, currentCol, drow, dcol)
        {
          var target := board[currentRow][currentCol];
          if target.None? {
            moves := moves + [(currentRow, currentCol)];
          } else if target.value.color != piece.color {
            moves := moves + [(currentRow, currentCol)];
            break;
          } else {
            break;
          }
          currentRow, currentCol := currentRow + drow, currentCol + dcol;
        }
        assert directions[..i + 1][..i] == directions[..i];
      }
      assert directions[..|directions|] == directions;
    }

    /** _get_rook_moves. */
    method GetRookMoves(row: int, col: int) returns (moves: seq<Square>)
      requires IsGrid(board) && OnBoard(row, col) && board[row][col].Some?
      ensures moves == RookMoves(board, board[row][col].value.color, row, col)
    {
      moves := SlideMoves(row, col, RookDirections);
    }

    /** _get_bishop_moves. */
    method GetBishopMoves(row: int, col: int) returns (moves: seq<Square>)
      requires IsGrid(board) && OnBoard(row, col) && board[row][col].Some?
      ensures moves == BishopMoves(board, board[row][col].value.color, row, col)
    {
      moves := SlideMoves(row, col, BishopDirections);
    }

    /** One offset of the knight and king loops: the target, if it is on
        the board and empty or held by the other side. */
    method StepTo(row: int, col: int, drow: int, dcol: int, color: Color) returns (step: seq<Square>)
      requires IsGrid(board)
      ensures step == StepAt(board, color, row, col, drow, dcol)
    {
      step := [];
      var newRow, newCol := row + drow, col + dcol;
      if 0 <= newRow < 8 && 0 <= newCol < 8 {
        var target := board[newRow][newCol];
        if target.None? || target.value.color != color {
          step := [(newRow, newCol)];
        }
      }
    }

    /** _get_knight_moves. */
    method GetKnightMoves(row: int, col: int) returns (moves: seq<Square>)
      requires IsGrid(board) && OnBoard(row, col) && board[row][col].Some?
      ensures moves == Steps(board, board[row][col].value.color, row, col, KnightOffsets)
    {
      moves := [];
      var piece := board[row][col].value;
      var knightMoves := KnightOffsets;
      for i := 0 to |knightMoves|
        invariant moves == Steps(board, piece.color, row, col, knightMoves[..i])
      {
        var (drow, dcol) := knightMoves[i];
        StepsExtend(board, piece.color, row, col, knightMoves, i);
        var step := StepTo(row, col, drow, dcol, piece.color);
        moves := moves + step;
      }
      assert knightMoves[..|knightMoves|] == knightMoves;
    }

    /** The normal moves of _get_king_moves: the nested drow/dcol loops. */
    method GetKingSteps(row: int, col: int) returns (moves: seq<Square>)
      requires IsGrid(board) && OnBoard(row, col) && board[row][col].Some?
      ensures moves == KingSteps(board, board[row][col].value.color, row, col)
    {
      moves := [];
      var piece := board[row][col].value;
      for drow := -1 to 2
        invariant moves == KingUpTo(board, piece.color, row, col, drow, -1)
      {
        for dcol := -1 to 2
          invariant moves == KingUpTo(board, piece.color, row, col, drow, dcol)
        {
          if drow == 0 && dcol == 0 {
            assert KingStepAt(board, piece.color, row, col, drow, dcol) == [];
            continue;
          }
          var step := StepTo(row, col, drow, dcol, piece.color);
          assert step == KingStepAt(board, piece.color, row, col, drow, dcol);
          moves := moves + step;
        }
        assert KingUpTo(board, piece.color, row, col, drow + 1, -1) == KingUpTo(board, piece.color, row, col, drow, 2);
      }
      assert KingUpTo(board, piece.color, row, col, 2, -1) == KingUpTo(board, piece.color, row, col, 1, 2);
    }

    /** get_piece_moves(row, col, checking_check=True): dispatch on the
        piece kind, no castling and no legality filter. */
    method GetPseudoMoves(row: int, col: int) returns (moves: seq<Square>)
      requires IsGrid(board) && LastMoveOk(lastMove) && OnBoard(row, col)
      ensures moves == PseudoMoves(board, lastMove, row, col)
    {
      var piece := board[row][col];
      if piece.None? {
        return [];
      }
      match piece.value.kind
      case Pawn =>
        moves := GetPawnMoves(row, col);
      case Rook =>
        moves := GetRookMoves(row, col);
      case Knight =>
        moves := GetKnightMoves(row, col);
      case Bishop =>
        moves := GetBishopMoves(row, col);
      case Queen =>
        var straight := GetRookMoves(row, col);
        var diagonal := GetBishopMoves(row, col);
        moves := straight + diagonal;
      case King =>
        moves := GetKingSteps(row, col);
    }

    /** is_square_attacked: scan every opposing piece's pseudo-legal moves. */
    method IsSquareAttacked(row: int, col: int, color: Color) returns (attacked: bool)
      requires IsGrid(board) && LastMoveOk(lastMove)
      ensures attacked == ChessRules.IsSquareAttacked(board, lastMove, row, col, color)
    {
      for r := 0 to 8
        invariant forall r', c' :: 0 <= r' < r && 0 <= c' < 8 ==> !Attacks(board, lastMove, r', c', row, col, color)
      {
        var hit, at := AttackedFromRow(r, row, col, color);
        if hit {
          assert Attacks(board, lastMove, r, at, row, col, color);
          return true;
        }
        forall r', c' | 0 <= r' <= r && 0 <= c' < 8
          ensures !Attacks(board, lastMove, r', c', row, col, color)
        {
          if r' == r {
            assert !Attacks(board, lastMove, r, c', row, col, color);
          }
        }
      }
      return false;
    }

    /** The column loop of is_square_attacked for one row r. */
    method AttackedFromRow(r: int, row: int, col: int, color: Color) returns (hit: bool, at: int)
      requires IsGrid(board) && LastMoveOk(lastMove) && 0 <= r < 8
      ensures hit ==> 0 <= at < 8 && Attacks(board, lastMove, r, at, row, col, color)
      ensures !hit ==> forall c' :: 0 <= c' < 8 ==> !Attacks(board, lastMove, r, c', row, col, color)
    {
      for c := 0 to 8
        invariant forall c' :: 0 <= c' < c ==> !Attacks(board, lastMove, r, c', row, col, color)
      {
        hit := AttacksFrom(r, c, row, col, color);
        if hit {
          return hit, c;
        }
        forall c' | 0 <= c' <= c
          ensures !Attacks(board, lastMove, r, c', row, col, color)
        {
          if c' == c {
            assert !Attacks(board, lastMove, r, c, row, col, color);
          }
        }
      }
      return false, 0;
    }

    /** One step of the is_square_attacked scan: does the piece on (r, c),
        if it is an opponent's, have (row, col) among its pseudo-legal moves? */
    method AttacksFrom(r: int, c: int, row: int, col: int, color: Color) returns (hit: bool)
      requires IsGrid(board) && LastMoveOk(lastMove) && OnBoard(r, c)
      ensures hit == Attacks(board, lastMove, r, c, row, col, color)
    {
      var piece := board[r][c];
      hit := false;
      if piece.Some? && piece.value.color != color {
        var moves := GetPseudoMoves(r, c);
        hit := (row, col) in moves;
      }
    }

    /** is_in_check: is the cached king square of `color` attacked? */
    method IsInCheck(color: Color) returns (inCheck: bool)
      requires IsGrid(board) && LastMoveOk(lastMove)
      ensures inCheck == ChessRules.IsInCheck(State(), color)
    {
      var kingPos := if color == White then whiteKingPos else blackKingPos;
      inCheck := IsSquareAttacked(kingPos.0, kingPos.1, color);
    }

    /** The castling part of _get_king_moves (checking_check False). */
    method GetCastlingMoves(row: int, col: int) returns (moves: seq<Square>)
      requires IsGrid(board) && LastMoveOk(lastMove) && OnBoard(row, col) && board[row][col].Some?
      ensures moves == CastlingMoves(State(), row, col)
    {
      moves := [];
      var piece := board[row][col].value;
      if !piece.hasMoved {
        // Kingside castling
        var ok := IsUnmovedRook(board[row][7]) && board[row][5].None? && board[row][6].None?;
        if ok {
          var check := IsInCheck(piece.color);
          ok := !check;
        }
        if ok {
          var attacked := IsSquareAttacked(row, 5, piece.color);
          ok := !attacked;
        }
        if ok {
          var attacked := IsSquareAttacked(row, 6, piece.color);
          ok := !attacked;
        }
        if ok {
          moves := moves + [(row, 6)];
        }
        assert ok == KingsideCastleOk(State(), row, piece.color);

        // Queenside castling
        ok := IsUnmovedRook(board[row][0]) && board[row][1].None? && board[row][2].None? && board[row][3].None?;
        if ok {
          var check := IsInCheck(piece.color);
          ok := !check;
        }
        if ok {
          var attacked := IsSquareAttacked(row, 2, piece.color);
          ok := !attacked;
        }
        if ok {
          var attacked := IsSquareAttacked(row, 3, piece.color);
          ok := !attacked;
        }
        if ok {
          moves := moves + [(row, 2)];
        }
      }
    }

    /** _move_causes_check: make the move on the live grid, ask whether the
        mover's king is in check, then put back both cells and the king
        cache. */
    method MoveCausesCheck(startRow: int, startCol: int, endRow: int, endCol: int) returns (inCheck: bool)
      requires IsGrid(board) && LastMoveOk(lastMove)
      requires OnBoard(startRow, startCol) && OnBoard(endRow, endCol) && board[startRow][startCol].Some?
      modifies this
      ensures State() == old(State())
      ensures inCheck == CausesCheck(old(State()), startRow, startCol, endRow, endCol)
    {
      ghost var before := State();
      ChessRuleFacts.UndoRestoresBoard(board, startRow, startCol, endRow, endCol);
      // Make temporary move
      var piece := board[startRow][startCol].value;
      var capturedPiece := board[endRow][endCol];
      board := Put(board, endRow, endCol, Some(piece));
      board := Put(board, startRow, startCol, None);

      // Store original king position
      var originalKingPos: Option<Square> := None;
      if piece.kind == King {
        if piece.color == White {
          originalKingPos := Some(whiteKingPos);
          whiteKingPos := (endRow, endCol);
        } else {
          originalKingPos := Some(blackKingPos);
          blackKingPos := (endRow, endCol);
        }
      }
      assert State() == Simulate(before, startRow, startCol, endRow, endCol);

      inCheck := IsInCheck(piece.color);

      // Undo move
      board := Put(board, startRow, startCol, Some(piece));
      board := Put(board, endRow, endCol, capturedPiece);
      if originalKingPos.Some? {
        if piece.color == White {
          whiteKingPos := originalKingPos.value;
        } else {
          blackKingPos := originalKingPos.value;
        }
      }
    }

    /** get_piece_moves(row, col): the candidates (castling included for a
        king) that survive the simulate-and-undo test, in order. The state is
        the same afterwards. */
    method GetLegalMoves(row: int, col: int) returns (moves: seq<Square>)
      requires Valid() && OnBoard(row, col)
      modifies this
      ensures State() == old(State())
      ensures moves == LegalMoves(old(State()), row, col)
    {
      var piece := board[row][col];
      if piece.None? {
        return [];
      }
      var candidates := GetPseudoMoves(row, col);
      if piece.value.kind == King {
        var castling := GetCastlingMoves(row, col);
        candidates := candidates + castling;
      }
      assert candidates == Candidates(State(), row, col);
      CandidatesOnBoard(State(), row, col);

      moves := KeepSafe(row, col, candidates);
    }

    /** The comprehension of get_piece_moves: the candidates whose
        simulation leaves the mover's king unattacked, in order. */
    method KeepSafe(row: int, col: int, candidates: seq<Square>) returns (moves: seq<Square>)
      requires IsGrid(board) && LastMoveOk(lastMove) && OnBoard(row, col) && board[row][col].Some?
      requires AllOnBoard(candidates)
      modifies this
      ensures State() == old(State())
      ensures moves == FilterSafe(old(State()), row, col, candidates)
    {
      ghost var s0 := State();
      moves := [];
      for i := 0 to |candidates|
        invariant State() == s0
        invariant moves == FilterSafe(s0, row, col, candidates[..i])
      {
        var (endRow, endCol) := candidates[i];
        var causesCheck := MoveCausesCheck(row, col, endRow, endCol);
        assert candidates[..i + 1][..i] == candidates[..i];
        if !causesCheck {
          moves := moves + [candidates[i]];
        }
      }
      assert candidates[..|candidates|] == candidates;
    }

    /** is_checkmate: in check, and no piece of `color` has a legal move. */
    method IsCheckmate(color: Color) returns (mate: bool)
      requires Valid()
      modifies this
      ensures State() == old(State())
      ensures mate == ChessRules.IsCheckmate(old(State()), color)
    {
      var check := IsInCheck(color);
      if !check {
        return false;
      }
      var found := FindLegalMove(color);
      return !found;
    }

    /** is_stalemate: not in check, and no piece of `color` has a legal move. */
    method IsStalemate(color: Color) returns (stalemate: bool)
      requires Valid()
      modifies this
      ensures State() == old(State())
      ensures stalemate == ChessRules.IsStalemate(old(State()), color)
    {
      var check := IsInCheck(color);
      if check {
        return false;
      }
      var found := FindLegalMove(color);
      return !found;
    }

    /** The scan shared by is_checkmate and is_stalemate: row by row, stop
        at the first piece of `color` with a legal move. */
    method FindLegalMove(color: Color) returns (found: bool)
      requires Valid()
      modifies this
      ensures State() == old(State())
      ensures found == HasLegalMove(old(State()), color)
    {
      ghost var s0 := State();
      for row := 0 to 8
        invariant State() == s0
        invariant forall r, c :: 0 <= r < row && 0 <= c < 8 ==> !CanMoveFrom(s0, r, c, color)
      {
        var hit, at := FindLegalMoveInRow(row, color);
        if hit {
          assert CanMoveFrom(s0, row, at, color);
          return true;
        }
        forall r, c | 0 <= r <= row && 0 <= c < 8
          ensures !CanMoveFrom(s0, r, c, color)
        {
          if r == row {
            assert !CanMoveFrom(s0, row, c, color);
          }
        }
      }
      return false;
    }

    /** The column loop of that scan for one row. */
    method FindLegalMoveInRow(row: int, color: Color) returns (found: bool, at: int)
      requires Valid() && 0 <= row < 8
      modifies this
      ensures State() == old(State())
      ensures found ==> 0 <= at < 8 && CanMoveFrom(old(State()), row, at, color)
      ensures !found ==> forall c :: 0 <= c < 8 ==> !CanMoveFrom(old(State()), row, c, color)
    {
      ghost var s0 := State();
      for col := 0 to 8
        invariant State() == s0
        invariant forall c :: 0 <= c < col ==> !CanMoveFrom(s0, row, c, color)
      {
        var piece := board[row][col];
        if piece.Some? && piece.value.color == color {
          var moves := GetLegalMoves(row, col);
          if |moves| > 0 {
            assert CanMoveFrom(s0, row, col, color);
            return true, col;
          }
        }
        assert !CanMoveFrom(s0, row, col, color);
        forall c | 0 <= c <= col
          ensures !CanMoveFrom(s0, row, c, color)
        {
          if c == col {
            assert !CanMoveFrom(s0, row, col, color);
          }
        }
      }
      return false, 0;
    }

    /** The part of make_move after validation: special effects, relocation,
        king cache, last-move record, history and turn. */
    method ApplyValidatedMove(startRow: int, startCol: int, endRow: int, endCol: int, start: string, end: string)
      requires IsGrid(board) && OnBoard(startRow, startCol) && OnBoard(endRow, endCol)
      requires board[startRow][startCol].Some?
      modifies this
      ensures State() == ApplyMove(old(State()), startRow, startCol, endRow, endCol, start, end)
    {
      ghost var before := State();
      var original := board[startRow][startCol].value;
      var b, piece := PawnSpecials(board, original, startRow, startCol, endRow, endCol);
      b := CastleRook(b, piece, startRow, startCol, endCol);
      ghost var afterCastling := b;

      // Make the move (the piece is a value here, so has_moved is set
      // before it is placed rather than after)
      piece := piece.(hasMoved := true);
      b := b[endRow := b[endRow][endCol := Some(piece)]];
      b := b[startRow := b[startRow][startCol := None]];
      assert b == Put(Put(afterCastling, endRow, endCol, Some(piece)), startRow, startCol, None);
      board := b;

      // Update king position
      if piece.kind == King {
        if piece.color == White {
          whiteKingPos := (endRow, endCol);
        } else {
          blackKingPos := (endRow, endCol);
        }
      }

      // Record move for en passant
      lastMove := Some(MoveRecord(startRow, startCol, endRow, endCol));
      moveHistory := moveHistory + [(start, end)];

      // Switch players
      currentPlayer := if currentPlayer == White then Black else White;

      ghost var followed := FollowKing(before, piece, endRow, endCol);
      assert whiteKingPos == followed.whiteKingPos && blackKingPos == followed.blackKingPos;
    }

    /** The pawn's special effects in make_move: an en passant capture
        empties the passed pawn's square, and a pawn reaching the last row
        becomes a queen. */
    static method PawnSpecials(board: Grid, piece: Piece, startRow: int, startCol: int, endRow: int, endCol: int)
      returns (b: Grid, promoted: Piece)
      requires IsGrid(board) && OnBoard(startRow, startCol) && OnBoard(endRow, endCol)
      ensures b == ClearPassedPawn(board, piece, startRow, startCol, endRow, endCol)
      ensures promoted == Promote(piece, endRow)
    {
      b, promoted := board, piece;
      if piece.kind == Pawn {
        // En passant: capture the passed pawn
        if endCol != startCol && b[endRow][endCol].None? {
          b := b[startRow := b[startRow][endCol := None]];
        }
        // Promotion (automatically to Queen)
        if endRow == 0 || endRow == 7 {
          promoted := Piece(piece.color, Queen, false);
        }
      }
    }

    /** make_move's castling step: the rook beside the king's destination
        crosses over it, marked as moved. */
    static method CastleRook(board: Grid, piece: Piece, startRow: int, startCol: int, endCol: int) returns (b: Grid)
      requires IsGrid(board) && 0 <= startRow < 8
      ensures b == MoveCastlingRook(board, piece, startRow, startCol, endCol)
    {
      b := board;
      if piece.kind == King && Abs(endCol - startCol) == 2 {
        if endCol == 6 {
          var rook := b[startRow][7];
          b := b[startRow := b[startRow][7 := None]];
          b := b[startRow := b[startRow][5 := WithHasMoved(rook)]];
        } else if endCol == 2 {
          var rook := b[startRow][0];
          b := b[startRow := b[startRow][0 := None]];
          b := b[startRow := b[startRow][3 := WithHasMoved(rook)]];
        }
      }
    }

    /** make_move(start, end): parse and validate, then apply the special
        effects, relocate the piece, record the move and pass the turn.
        Every rejection (IndexError and ValueError included) returns false
        with the state untouched. */
    method MakeMove(start: string, end: string) returns (success: bool)
      requires Valid()
      modifies this
      ensures Valid()
      ensures success == TryMove(old(State()), start, end).Some?
      ensures State() == if success then TryMove(old(State()), start, end).value else old(State())
    {
      // Convert chess notation to array indices
      var from := ParseSquare(start);
      var to := ParseSquare(end);
      if from.None? || to.None? {
        return false;
      }
      var (startRow, startCol) := from.value;
      var (endRow, endCol) := to.value;

      // Validate input coordinates
      if !(0 <= startRow < 8 && 0 <= startCol < 8 && 0 <= endRow < 8 && 0 <= endCol < 8) {
        return false;
      }
      var cell := board[startRow][startCol];
      if cell.None? || cell.value.color != currentPlayer {
        return false;
      }
      var validMoves := GetLegalMoves(startRow, startCol);
      if (endRow, endCol) !in validMoves {
        return false;
      }
      ghost var before := State();
      ApplyValidatedMove(startRow, startCol, endRow, endCol, start, end);
      success := true;
      ChessRuleFacts.ApplyMoveWellFormed(before, startRow, startCol, endRow, endCol, start, end);
    }
  }
}
