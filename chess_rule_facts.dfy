/** Properties of the chess.py rules: the initial position, the shape of
    each piece's pseudo-legal moves, the legality filter, checkmate and
    stalemate, and the effects of a successful make_move. */
module ChessRuleFacts {
  import opened Pieces
  import opened ChessRules
  import MoveShapes

  // ---------------------------------------------------------------------
  // The initial position
  // ---------------------------------------------------------------------

  /** The starting layout is well formed (no pawn on the first or last
      row), and the kings stand where the caches say: e1 = (7, 4) for White,
      e8 = (0, 4) for Black. */
  lemma StartingLayoutFacts(g: Grid)
    requires IsGrid(g) && IsStartingLayout(g)
    ensures PawnsInside(g)
    ensures g[7][4] == Some(Piece(White, King, false)) && g[0][4] == Some(Piece(Black, King, false))
  {
    assert BackRank[4] == King;
    forall r, c | 0 <= r < 8 && 0 <= c < 8 && IsPawn(g[r][c])
      ensures 1 <= r <= 6
    {
      assert BackRank[c] != Pawn;
    }
  }

  // ---------------------------------------------------------------------
  // make_move keeps the state well formed
  // ---------------------------------------------------------------------

  /** A pawn that lands on row 0 or 7 is promoted, and a castling rook stays
      on its row, so no pawn ends on the first or last row. */
  lemma ApplyMoveWellFormed(s: Game, sr: int, sc: int, er: int, ec: int, start: string, end: string)
    requires WellFormed(s) && OnBoard(sr, sc) && OnBoard(er, ec) && s.board[sr][sc].Some?
    ensures WellFormed(ApplyMove(s, sr, sc, er, ec, start, end))
  {
    var t := ApplyMove(s, sr, sc, er, ec, start, end);
    forall r, c | 0 <= r < 8 && 0 <= c < 8 && IsPawn(t.board[r][c])
      ensures 1 <= r <= 6
    {
      if r == sr && (c == 7 || c == 5 || c == 0 || c == 3) {
        assert IsPawn(s.board[sr][7]) ==> 1 <= sr <= 6;
        assert IsPawn(s.board[sr][0]) ==> 1 <= sr <= 6;
      }
    }
  }

  // ---------------------------------------------------------------------
  // Attacks
  // ---------------------------------------------------------------------

  /** Attack detection reuses the pseudo-legal move lists, so the empty
      square in front of an enemy pawn counts as attacked (while the
      squares it could capture on count only when occupied). */
  lemma PawnPushAttacks(g: Grid, last: Option<MoveRecord>, r: int, c: int, color: Color)
    requires IsGrid(g) && LastMoveOk(last) && OnBoard(r, c)
    requires g[r][c].Some? && g[r][c].value.kind == Pawn && g[r][c].value.color != color
    requires OnBoard(r + PawnDirection(g[r][c].value.color), c)
    requires g[r + PawnDirection(g[r][c].value.color)][c].None?
    ensures IsSquareAttacked(g, last, r + PawnDirection(g[r][c].value.color), c, color)
  {
    var target := r + PawnDirection(g[r][c].value.color);
    assert (target, c) in PawnPushes(g, g[r][c].value.color, r, c);
    assert Attacks(g, last, r, c, target, c, color);
  }

  // ---------------------------------------------------------------------
  // The legality filter
  // ---------------------------------------------------------------------

  /** The comprehension keeps exactly the candidates whose simulation does
      not leave the mover's king attacked. */
  lemma {:induction false} FilterSafeMembership(s: Game, row: int, col: int, ms: seq<Square>, t: Square)
    requires IsGrid(s.board) && LastMoveOk(s.lastMove) && OnBoard(row, col) && s.board[row][col].Some?
    requires AllOnBoard(ms)
    ensures t in FilterSafe(s, row, col, ms) <==>
      t in ms && OnBoard(t.0, t.1) && !CausesCheck(s, row, col, t.0, t.1)
  {
    if ms != [] {
      var front := ms[..|ms| - 1];
      assert AllOnBoard(front) by {
        forall i | 0 <= i < |front| ensures OnBoard(front[i].0, front[i].1) {
          assert front[i] == ms[i];
        }
      }
      FilterSafeMembership(s, row, col, front, t);
      assert ms == front + [ms[|ms| - 1]];
    }
  }

  /** A legal move of the piece on (row, col) is a candidate (pseudo-legal,
      or castling for a king) after which the mover's king is not attacked;
      every such candidate is legal. An empty square has none. */
  lemma LegalMovesIff(s: Game, row: int, col: int, t: Square)
    requires WellFormed(s) && OnBoard(row, col)
    ensures t in LegalMoves(s, row, col) <==>
      s.board[row][col].Some? && t in Candidates(s, row, col) && OnBoard(t.0, t.1) &&
      !CausesCheck(s, row, col, t.0, t.1)
  {
    if s.board[row][col].Some? {
      CandidatesOnBoard(s, row, col);
      FilterSafeMembership(s, row, col, Candidates(s, row, col), t);
    }
  }

  /** The simulation of _move_causes_check relocates the mover and nothing
      else: the start becomes empty, every other square keeps its piece, the
      last move, history and turn stay, and only the mover's own king cache
      can change, to the destination, when the mover is a king. */
  lemma SimulateMovesOnlyTheMover(s: Game, sr: int, sc: int, er: int, ec: int)
    requires IsGrid(s.board) && OnBoard(sr, sc) && OnBoard(er, ec) && s.board[sr][sc].Some?
    requires (sr, sc) != (er, ec)
    ensures var t := Simulate(s, sr, sc, er, ec);
      var p := s.board[sr][sc].value;
      IsGrid(t.board) &&
      t.board[er][ec] == Some(p) && t.board[sr][sc] == None &&
      (forall r, c :: OnBoard(r, c) && (r, c) != (sr, sc) && (r, c) != (er, ec) ==>
        t.board[r][c] == s.board[r][c]) &&
      t.lastMove == s.lastMove && t.moveHistory == s.moveHistory && t.currentPlayer == s.currentPlayer &&
      KingPos(t, Opponent(p.color)) == KingPos(s, Opponent(p.color)) &&
      KingPos(t, p.color) == (if p.kind == King then (er, ec) else KingPos(s, p.color))
  {
  }

  /** The undo of _move_causes_check (the mover back on its square, the
      captured cell back on the destination) restores the grid exactly,
      also when start and destination coincide. */
  lemma UndoRestoresBoard(g: Grid, sr: int, sc: int, er: int, ec: int)
    requires IsGrid(g) && OnBoard(sr, sc) && OnBoard(er, ec)
    ensures Put(Put(Put(Put(g, er, ec, g[sr][sc]), sr, sc, None), sr, sc, g[sr][sc]), er, ec, g[er][ec]) == g
  {
    var h := Put(Put(Put(Put(g, er, ec, g[sr][sc]), sr, sc, None), sr, sc, g[sr][sc]), er, ec, g[er][ec]);
    forall i | 0 <= i < 8
      ensures h[i] == g[i]
    {
      assert forall j :: 0 <= j < 8 ==> h[i][j] == g[i][j];
    }
  }

  // ---------------------------------------------------------------------
  // Checkmate and stalemate
  // ---------------------------------------------------------------------

  /** Every position is, for each side, exactly one of: a side with a legal
      move, checkmated, stalemated. */
  lemma MateOutcomesExclusive(s: Game, color: Color)
    requires WellFormed(s)
    ensures !(IsCheckmate(s, color) && IsStalemate(s, color))
    ensures HasLegalMove(s, color) <==> !IsCheckmate(s, color) && !IsStalemate(s, color)
  {
  }

  /** Checkmate (and stalemate) mean that no piece of that side has a legal
      move. */
  lemma NoMoveWhenMated(s: Game, color: Color, r: int, c: int)
    requires WellFormed(s) && OnBoard(r, c) && HoldsColor(s.board[r][c], color)
    requires IsCheckmate(s, color) || IsStalemate(s, color)
    ensures LegalMoves(s, r, c) == []
  {
    assert !CanMoveFrom(s, r, c, color);
  }

  // ---------------------------------------------------------------------
  // The effects of a successful make_move
  // ---------------------------------------------------------------------

  /** The square a move vacates becomes empty; the destination holds the
      mover (promoted if a pawn reaches the last row) marked as moved; the
      king cache follows a king and is untouched otherwise; the move is
      recorded, appended to the history, and the turn passes. */
  lemma ApplyMoveEffects(s: Game, sr: int, sc: int, er: int, ec: int, start: string, end: string)
    requires IsGrid(s.board) && OnBoard(sr, sc) && OnBoard(er, ec) && s.board[sr][sc].Some?
    requires (sr, sc) != (er, ec)
    ensures var t := ApplyMove(s, sr, sc, er, ec, start, end);
      var p := s.board[sr][sc].value;
      IsGrid(t.board) &&
      t.board[sr][sc] == None &&
      t.board[er][ec] == Some(Promote(p, er).(hasMoved := true)) &&
      t.lastMove == Some(MoveRecord(sr, sc, er, ec)) &&
      t.moveHistory == s.moveHistory + [(start, end)] &&
      t.currentPlayer == Opponent(s.currentPlayer) &&
      KingPos(t, Opponent(p.color)) == KingPos(s, Opponent(p.color)) &&
      KingPos(t, p.color) == (if p.kind == King then (er, ec) else KingPos(s, p.color))
  {
  }

  /** The squares other than start and destination that make_move may
      write: the passed pawn's square for en passant, the rook's two squares
      for castling. */
  function SideSquares(s: Game, sr: int, sc: int, er: int, ec: int): (side: set<Square>)
    requires IsGrid(s.board) && OnBoard(sr, sc) && OnBoard(er, ec) && s.board[sr][sc].Some?
    ensures forall sq :: sq in side ==> sq.0 == sr
  {
    var p := s.board[sr][sc].value;
    (if p.kind == Pawn && ec != sc && s.board[er][ec].None? then {(sr, ec)} else {}) +
    (if p.kind == King && Abs(ec - sc) == 2 && ec == 6 then {(sr, 7), (sr, 5)} else {}) +
    (if p.kind == King && Abs(ec - sc) == 2 && ec == 2 then {(sr, 0), (sr, 3)} else {})
  }

  /** Nothing else on the board changes. */
  lemma ApplyMoveFrame(s: Game, sr: int, sc: int, er: int, ec: int, start: string, end: string)
    requires IsGrid(s.board) && OnBoard(sr, sc) && OnBoard(er, ec) && s.board[sr][sc].Some?
    ensures var t := ApplyMove(s, sr, sc, er, ec, start, end);
      IsGrid(t.board) &&
      forall r, c ::
        (OnBoard(r, c) && (r, c) != (sr, sc) && (r, c) != (er, ec) && (r, c) !in SideSquares(s, sr, sc, er, ec))
        ==> t.board[r][c] == s.board[r][c]
  {
  }

  /** En passant: a pawn stepping diagonally onto an empty square removes
      the piece beside it, on its own row in the destination column. */
  lemma EnPassantRemovesPassedPawn(s: Game, sr: int, sc: int, er: int, ec: int, start: string, end: string)
    requires IsGrid(s.board) && OnBoard(sr, sc) && OnBoard(er, ec) && IsPawn(s.board[sr][sc])
    requires ec != sc && er != sr && s.board[er][ec].None?
    ensures ApplyMove(s, sr, sc, er, ec, start, end).board[sr][ec] == None
  {
  }

  /** A pawn reaching the first or last row becomes a Queen of its colour,
      marked as moved. */
  lemma PromotionToQueen(s: Game, sr: int, sc: int, er: int, ec: int, start: string, end: string)
    requires IsGrid(s.board) && OnBoard(sr, sc) && OnBoard(er, ec) && IsPawn(s.board[sr][sc])
    requires er == 0 || er == 7
    ensures (sr, sc) != (er, ec) ==>
      ApplyMove(s, sr, sc, er, ec, start, end).board[er][ec] == Some(Piece(s.board[sr][sc].value.color, Queen, true))
  {
  }

  /** Castling from the e-file: the rook in the corner moves beside the king,
      h to f kingside and a to d queenside, and is marked as moved. */
  lemma CastlingMovesRook(s: Game, sr: int, er: int, ec: int, start: string, end: string)
    requires IsGrid(s.board) && OnBoard(sr, 4) && OnBoard(er, ec)
    requires s.board[sr][4].Some? && s.board[sr][4].value.kind == King
    ensures var t := ApplyMove(s, sr, 4, er, ec, start, end);
      (ec == 6 ==> t.board[sr][7] == None && t.board[sr][5] == WithHasMoved(s.board[sr][7])) &&
      (ec == 2 ==> t.board[sr][0] == None && t.board[sr][3] == WithHasMoved(s.board[sr][0]))
  {
  }

  /** No legal move stays on its own square: a non-pawn lands only where its
      own side is not, a pawn always changes row, and castling needs the
      king's destination empty. */
  lemma LegalMoveLeavesStart(s: Game, row: int, col: int, t: Square)
    requires WellFormed(s) && OnBoard(row, col)
    requires t in LegalMoves(s, row, col)
    ensures t != (row, col)
  {
    LegalMovesIff(s, row, col, t);
    if t in PseudoMoves(s.board, s.lastMove, row, col) {
      PseudoMoveLeavesStart(s.board, s.lastMove, row, col, t);
    } else {
      CastlingLeavesStart(s, row, col, t);
    }
  }

  lemma PseudoMoveLeavesStart(g: Grid, last: Option<MoveRecord>, row: int, col: int, t: Square)
    requires IsGrid(g) && LastMoveOk(last) && OnBoard(row, col) && g[row][col].Some?
    requires t in PseudoMoves(g, last, row, col)
    ensures t != (row, col)
  {
    var p := g[row][col].value;
    MoveShapes.PseudoMovesShape(g, last, row, col, t);
    if p.kind == Pawn {
      MoveShapes.PawnMovesIff(g, last, p.color, row, col, t);
      assert t.0 == row + PawnDirection(p.color) || t.0 == row + 2 * PawnDirection(p.color);
    }
  }

  lemma CastlingLeavesStart(s: Game, row: int, col: int, t: Square)
    requires IsGrid(s.board) && LastMoveOk(s.lastMove) && OnBoard(row, col) && s.board[row][col].Some?
    requires t in CastlingMoves(s, row, col)
    ensures t != (row, col)
  {
  }

  // ---------------------------------------------------------------------
  // make_move as a whole
  // ---------------------------------------------------------------------

  /** The algebraic name of a square: file letter, then rank digit
      (row 6, column 4 is "e2"). */
  function SquareName(r: int, c: int): (name: string)
    requires OnBoard(r, c)
    ensures |name| == 2 && 'a' <= name[0] <= 'h' && '1' <= name[1] <= '8'
  {
    [('a' as int + c) as char, ('8' as int - r) as char]
  }

  /** Parsing inverts naming, with the file letter in either case; and
      every string that parses to a square on the board starts with that
      square's name, up to the case of the file letter. */
  lemma ParseSquareName(r: int, c: int, sq: string)
    requires OnBoard(r, c)
    ensures ParseSquare(SquareName(r, c)) == Some((r, c))
    ensures ParseSquare([('A' as int + c) as char, ('8' as int - r) as char]) == Some((r, c))
    ensures ParseSquare(sq) == Some((r, c)) ==>
      Lower(sq[0]) == SquareName(r, c)[0] && sq[1] == SquareName(r, c)[1]
  {
  }

  /** An accepted move was a legal move of a piece of the side to move,
      named by the two strings; afterwards the state is still well formed,
      the start square is empty, the move is recorded and in the history,
      and the other side is to move. */
  lemma TryMoveOutcome(s: Game, start: string, end: string)
    requires WellFormed(s)
    ensures TryMove(s, start, end).Some? ==>
      var t := TryMove(s, start, end).value;
      WellFormed(t) &&
      t.currentPlayer == Opponent(s.currentPlayer) &&
      t.moveHistory == s.moveHistory + [(start, end)] &&
      t.lastMove.Some? &&
      var m := t.lastMove.value;
      ParseSquare(start) == Some((m.startRow, m.startCol)) && ParseSquare(end) == Some((m.endRow, m.endCol)) &&
      OnBoard(m.startRow, m.startCol) &&
      HoldsColor(s.board[m.startRow][m.startCol], s.currentPlayer) &&
      (m.endRow, m.endCol) in LegalMoves(s, m.startRow, m.startCol) &&
      t.board[m.startRow][m.startCol] == None
  {
    if TryMove(s, start, end).Some? {
      var (sr, sc) := ParseSquare(start).value;
      var (er, ec) := ParseSquare(end).value;
      LegalMoveLeavesStart(s, sr, sc, (er, ec));
      LegalMovesIff(s, sr, sc, (er, ec));
      ApplyMoveWellFormed(s, sr, sc, er, ec, start, end);
      ApplyMoveEffects(s, sr, sc, er, ec, start, end);
    }
  }

  /** make_move refuses a malformed square (fewer than two characters, or
      a second character that is not a digit), a square off the board, a
      start that does not hold a piece of the side to move, and a
      destination outside that piece's legal moves; it accepts everything
      else. */
  lemma TryMoveRejects(s: Game, start: string, end: string)
    requires WellFormed(s)
    ensures (|start| < 2 || |end| < 2) ==> TryMove(s, start, end).None?
    ensures (|start| >= 2 && !('0' <= start[1] <= '9')) ==> TryMove(s, start, end).None?
    ensures (|end| >= 2 && !('0' <= end[1] <= '9')) ==> TryMove(s, start, end).None?
    ensures ParseSquare(start).Some? && ParseSquare(end).Some? ==>
      var (sr, sc) := ParseSquare(start).value;
      var (er, ec) := ParseSquare(end).value;
      (TryMove(s, start, end).Some? <==>
        OnBoard(sr, sc) && OnBoard(er, ec) && HoldsColor(s.board[sr][sc], s.currentPlayer) &&
        (er, ec) in LegalMoves(s, sr, sc))
  {
  }
}
