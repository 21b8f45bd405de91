/** The rules of chess.py's ChessBoard as functions over a snapshot of its
    state. Every query of the class (move generation, attack and check
    detection, the simulate-and-undo legality filter, mate detection) and
    the make_move transition are defined here; the class in ChessEngine is
    proved to compute exactly these values. */
module ChessRules {
  import opened Pieces

  /** A piece on the board. `hasMoved` only gates castling. */
  datatype Piece = Piece(color: Color, kind: PieceType, hasMoved: bool)

  type Cell = Option<Piece>

  /** Rows 0..7 from Black's back rank (rank 8) to White's (rank 1). */
  type Grid = seq<seq<Cell>>

  /** (row, col) */
  type Square = (int, int)

  /** The last_move tuple, consulted for en passant. */
  datatype MoveRecord = MoveRecord(startRow: int, startCol: int, endRow: int, endCol: int)

  /** A snapshot of every field of ChessBoard. */
  datatype Game = Game(
    board: Grid,
    currentPlayer: Color,
    moveHistory: seq<(string, string)>,
    lastMove: Option<MoveRecord>,
    whiteKingPos: Square,
    blackKingPos: Square)

  predicate OnBoard(r: int, c: int)
  {
    0 <= r < 8 && 0 <= c < 8
  }

  predicate IsGrid(g: Grid)
  {
    |g| == 8 && forall r :: 0 <= r < 8 ==> |g[r]| == 8
  }

  predicate LastMoveOk(last: Option<MoveRecord>)
  {
    last.Some? ==>
      OnBoard(last.value.startRow, last.value.startCol) && OnBoard(last.value.endRow, last.value.endCol)
  }

  predicate HoldsColor(cell: Cell, color: Color)
  {
    cell.Some? && cell.value.color == color
  }

  predicate IsPawn(cell: Cell)
  {
    cell.Some? && cell.value.kind == Pawn
  }

  /** No pawn stands on row 0 or row 7: a pawn reaching either is promoted
      on the spot, so no reachable position has one there. */
  predicate PawnsInside(g: Grid)
    requires IsGrid(g)
  {
    forall r, c :: 0 <= r < 8 && 0 <= c < 8 && IsPawn(g[r][c]) ==> 1 <= r <= 6
  }

  /** What every reachable state satisfies and the queries rely on. */
  predicate WellFormed(s: Game)
  {
    IsGrid(s.board) && LastMoveOk(s.lastMove) && PawnsInside(s.board)
  }

  /** The board write `board[r][c] = x`. */
  function Put(g: Grid, r: int, c: int, x: Cell): (g': Grid)
    requires IsGrid(g) && OnBoard(r, c)
    ensures IsGrid(g')
    ensures g'[r][c] == x
    ensures forall i, j :: OnBoard(i, j) && (i != r || j != c) ==> g'[i][j] == g[i][j]
  {
    g[r := g[r][c := x]]
  }

  // ---------------------------------------------------------------------
  // Pseudo-legal move generation (get_piece_moves with checking_check set)
  // ---------------------------------------------------------------------

  /** Row step of a pawn: Black moves down the rows, White up. */
  function PawnDirection(color: Color): int
  {
    if color == Black then 1 else -1
  }

  predicate OnStartRow(color: Color, row: int)
  {
    (color == White && row == 6) || (color == Black && row == 1)
  }

  /** The one- and two-square forward pushes. */
  function PawnPushes(g: Grid, color: Color, row: int, col: int): seq<Square>
    requires IsGrid(g) && OnBoard(row, col)
  {
    var dir := PawnDirection(color);
    if 0 <= row + dir < 8 && g[row + dir][col].None? then
      [(row + dir, col)] +
      (if OnStartRow(color, row) && g[row + 2 * dir][col].None? then [(row + 2 * dir, col)] else [])
    else []
  }

  /** The diagonal capture towards column col + dcol. */
  function PawnCapture(g: Grid, color: Color, row: int, col: int, dcol: int): seq<Square>
    requires IsGrid(g)
  {
    var dir := PawnDirection(color);
    if 0 <= col + dcol < 8 && 0 <= row + dir < 8
       && g[row + dir][col + dcol].Some? && g[row + dir][col + dcol].value.color != color
    then [(row + dir, col + dcol)]
    else []
  }

  /** The last move was a two-row advance of the pawn now standing beside
      this one. Neither the colour of that pawn nor the destination cell is
      looked at, and the destination is not bounds-checked. */
  predicate EnPassantReady(g: Grid, last: Option<MoveRecord>, row: int, col: int)
    requires IsGrid(g) && LastMoveOk(last)
  {
    last.Some? &&
    var m := last.value;
    IsPawn(g[m.endRow][m.endCol]) && Abs(m.startRow - m.endRow) == 2 &&
    row == m.endRow && Abs(col - m.endCol) == 1
  }

  function EnPassant(g: Grid, last: Option<MoveRecord>, color: Color, row: int, col: int): seq<Square>
    requires IsGrid(g) && LastMoveOk(last)
  {
    if EnPassantReady(g, last, row, col) then [(row + PawnDirection(color), last.value.endCol)] else []
  }

  /** _get_pawn_moves, in the order the source appends. */
  function PawnMoves(g: Grid, last: Option<MoveRecord>, color: Color, row: int, col: int): seq<Square>
    requires IsGrid(g) && LastMoveOk(last) && OnBoard(row, col)
  {
    PawnPushes(g, color, row, col) + PawnCapture(g, color, row, col, -1) +
    PawnCapture(g, color, row, col, 1) + EnPassant(g, last, color, row, col)
  }

  predicate IsDirection(d: (int, int))
  {
    -1 <= d.0 <= 1 && -1 <= d.1 <= 1 && d != (0, 0)
  }

  /** Distance to the edge along the direction; shrinks by one per step. */
  function RayMeasure(r: int, c: int, dr: int, dc: int): int
  {
    (if dr == 1 then 8 - r else if dr == -1 then r + 1 else 0) +
    (if dc == 1 then 8 - c else if dc == -1 then c + 1 else 0)
  }

  /** The ray of a slider on (r, c) in direction (dr, dc): empty cells are
      taken and the walk goes on, the first enemy piece is taken and ends
      it, an own piece or the edge ends it. */
  function Ray(g: Grid, color: Color, r: int, c: int, dr: int, dc: int): seq<Square>
    requires IsGrid(g) && IsDirection((dr, dc))
    decreases RayMeasure(r, c, dr, dc)
  {
    if !OnBoard(r + dr, c + dc) then []
    else if g[r + dr][c + dc].None? then [(r + dr, c + dc)] + Ray(g, color, r + dr, c + dc, dr, dc)
    else if g[r + dr][c + dc].value.color != color then [(r + dr, c + dc)]
    else []
  }

  /** The rays from (row, col) in the given directions, in order. */
  function Rays(g: Grid, color: Color, row: int, col: int, dirs: seq<(int, int)>): seq<Square>
    requires IsGrid(g) && forall i :: 0 <= i < |dirs| ==> IsDirection(dirs[i])
  {
    if dirs == [] then []
    else
      var d := dirs[|dirs| - 1];
      Rays(g, color, row, col, dirs[..|dirs| - 1]) + Ray(g, color, row, col, d.0, d.1)
  }

  const RookDirections: seq<(int, int)> := [(0, 1), (0, -1), (1, 0), (-1, 0)]
  const BishopDirections: seq<(int, int)> := [(1, 1), (1, -1), (-1, 1), (-1, -1)]

  function RookMoves(g: Grid, color: Color, row: int, col: int): seq<Square>
    requires IsGrid(g)
  {
    Rays(g, color, row, col, RookDirections)
  }

  function BishopMoves(g: Grid, color: Color, row: int, col: int): seq<Square>
    requires IsGrid(g)
  {
    Rays(g, color, row, col, BishopDirections)
  }

  /** The square one fixed offset away, if a piece of `color` may land on
      it: on the board and not held by its own side. */
  function StepAt(g: Grid, color: Color, row: int, col: int, dr: int, dc: int): seq<Square>
    requires IsGrid(g)
  {
    var r, c := row + dr, col + dc;
    if OnBoard(r, c) && !HoldsColor(g[r][c], color) then [(r, c)] else []
  }

  /** The knight's and the king's move lists: one StepAt per offset, in
      the order of the offsets. */
  function Steps(g: Grid, color: Color, row: int, col: int, offsets: seq<(int, int)>): seq<Square>
    requires IsGrid(g)
  {
    if offsets == [] then []
    else Steps(g, color, row, col, offsets[..|offsets| - 1]) + StepAt(g, color, row, col, offsets[|offsets| - 1].0, offsets[|offsets| - 1].1)
  }

  /** Growing the offsets examined by one adds that offset's square, if it
      is landable. */
  lemma StepsExtend(g: Grid, color: Color, row: int, col: int, offsets: seq<(int, int)>, k: int)
    requires IsGrid(g) && 0 <= k < |offsets|
    ensures Steps(g, color, row, col, offsets[..k + 1]) ==
      Steps(g, color, row, col, offsets[..k]) + StepAt(g, color, row, col, offsets[k].0, offsets[k].1)
  {
    assert offsets[..k + 1][..k] == offsets[..k];
  }

  const KnightOffsets: seq<(int, int)> :=
    [(-2, -1), (-2, 1), (-1, -2), (-1, 2), (1, -2), (1, 2), (2, -1), (2, 1)]

  /** What the king's nested drow/dcol loops have collected when they
      reach (drow, dcol): the landable neighbours at the offsets before it
      in loop order, (0, 0) skipped. Position (drow, -1) follows the end of
      the previous row, (drow - 1, 2), written dcol + 3 there. */
  function KingUpTo(g: Grid, color: Color, row: int, col: int, drow: int, dcol: int): seq<Square>
    requires IsGrid(g) && -1 <= dcol <= 2
    decreases drow + 1, dcol + 1
  {
    if dcol == -1 then
      (if drow <= -1 then [] else KingUpTo(g, color, row, col, drow - 1, dcol + 3))
    else
      KingUpTo(g, color, row, col, drow, dcol - 1) + KingStepAt(g, color, row, col, drow, dcol - 1)
  }

  /** One pass of the king's inner loop: (0, 0) is skipped, any other
      offset adds its square if landable. */
  function KingStepAt(g: Grid, color: Color, row: int, col: int, dr: int, dc: int): seq<Square>
    requires IsGrid(g)
  {
    if dr == 0 && dc == 0 then [] else StepAt(g, color, row, col, dr, dc)
  }

  /** The normal moves of _get_king_moves, in the order of its loops. */
  function KingSteps(g: Grid, color: Color, row: int, col: int): seq<Square>
    requires IsGrid(g)
  {
    KingUpTo(g, color, row, col, 1, 2)
  }


  /** get_piece_moves(row, col, checking_check=True): no castling, no
      legality filter. An empty square has no moves. */
  function PseudoMoves(g: Grid, last: Option<MoveRecord>, row: int, col: int): seq<Square>
    requires IsGrid(g) && LastMoveOk(last) && OnBoard(row, col)
  {
    match g[row][col]
    case None => []
    case Some(p) =>
      match p.kind
      case Pawn => PawnMoves(g, last, p.color, row, col)
      case Rook => RookMoves(g, p.color, row, col)
      case Knight => Steps(g, p.color, row, col, KnightOffsets)
      case Bishop => BishopMoves(g, p.color, row, col)
      case Queen => RookMoves(g, p.color, row, col) + BishopMoves(g, p.color, row, col)
      case King => KingSteps(g, p.color, row, col)
  }

  // ---------------------------------------------------------------------
  // Attack and check detection
  // ---------------------------------------------------------------------

  /** The piece on (r, c) is of the other colour and lists (row, col) among
      its pseudo-legal moves (so a pawn's forward push counts as well). */
  predicate Attacks(g: Grid, last: Option<MoveRecord>, r: int, c: int, row: int, col: int, color: Color)
    requires IsGrid(g) && LastMoveOk(last) && OnBoard(r, c)
  {
    g[r][c].Some? && g[r][c].value.color != color && (row, col) in PseudoMoves(g, last, r, c)
  }

  /** is_square_attacked(row, col, color). */
  predicate IsSquareAttacked(g: Grid, last: Option<MoveRecord>, row: int, col: int, color: Color)
    requires IsGrid(g) && LastMoveOk(last)
  {
    exists r, c :: 0 <= r < 8 && 0 <= c < 8 && Attacks(g, last, r, c, row, col, color)
  }

  /** The cached king position of `color`. */
  function KingPos(s: Game, color: Color): Square
  {
    if color == White then s.whiteKingPos else s.blackKingPos
  }

  /** is_in_check(color): the cached king square is attacked. */
  predicate IsInCheck(s: Game, color: Color)
    requires IsGrid(s.board) && LastMoveOk(s.lastMove)
  {
    IsSquareAttacked(s.board, s.lastMove, KingPos(s, color).0, KingPos(s, color).1, color)
  }

  // ---------------------------------------------------------------------
  // Castling and the legality filter (get_piece_moves, default mode)
  // ---------------------------------------------------------------------

  predicate IsUnmovedRook(cell: Cell)
  {
    cell.Some? && cell.value.kind == Rook && !cell.value.hasMoved
  }

  /** Kingside: the rook cell holds an unmoved rook (of either colour), f and
      g are empty, the king is not in check and neither f nor g is attacked. */
  predicate KingsideCastleOk(s: Game, row: int, color: Color)
    requires IsGrid(s.board) && LastMoveOk(s.lastMove) && 0 <= row < 8
  {
    IsUnmovedRook(s.board[row][7]) &&
    s.board[row][5].None? && s.board[row][6].None? &&
    !IsInCheck(s, color) &&
    !IsSquareAttacked(s.board, s.lastMove, row, 5, color) &&
    !IsSquareAttacked(s.board, s.lastMove, row, 6, color)
  }

  /** Queenside: b, c and d empty; c and d not attacked (b may be). */
  predicate QueensideCastleOk(s: Game, row: int, color: Color)
    requires IsGrid(s.board) && LastMoveOk(s.lastMove) && 0 <= row < 8
  {
    IsUnmovedRook(s.board[row][0]) &&
    s.board[row][1].None? && s.board[row][2].None? && s.board[row][3].None? &&
    !IsInCheck(s, color) &&
    !IsSquareAttacked(s.board, s.lastMove, row, 2, color) &&
    !IsSquareAttacked(s.board, s.lastMove, row, 3, color)
  }

  /** The castling part of _get_king_moves, for an unmoved king. */
  function CastlingMoves(s: Game, row: int, col: int): seq<Square>
    requires IsGrid(s.board) && LastMoveOk(s.lastMove) && OnBoard(row, col) && s.board[row][col].Some?
  {
    var king := s.board[row][col].value;
    if king.hasMoved then []
    else
      (if KingsideCastleOk(s, row, king.color) then [(row, 6)] else []) +
      (if QueensideCastleOk(s, row, king.color) then [(row, 2)] else [])
  }

  /** The list get_piece_moves builds before filtering: the pseudo-legal
      moves, plus castling for a king. */
  function Candidates(s: Game, row: int, col: int): seq<Square>
    requires IsGrid(s.board) && LastMoveOk(s.lastMove) && OnBoard(row, col)
  {
    var pseudo := PseudoMoves(s.board, s.lastMove, row, col);
    if s.board[row][col].Some? && s.board[row][col].value.kind == King
    then pseudo + CastlingMoves(s, row, col)
    else pseudo
  }

  /** The temporary move of _move_causes_check: only the mover is relocated
      (no en passant victim is removed, no castling rook moves) and its own
      king cache follows it if it is a king. */
  function Simulate(s: Game, sr: int, sc: int, er: int, ec: int): Game
    requires IsGrid(s.board) && OnBoard(sr, sc) && OnBoard(er, ec) && s.board[sr][sc].Some?
  {
    var piece := s.board[sr][sc].value;
    var b := Put(Put(s.board, er, ec, Some(piece)), sr, sc, None);
    if piece.kind != King then s.(board := b)
    else if piece.color == White then s.(board := b, whiteKingPos := (er, ec))
    else s.(board := b, blackKingPos := (er, ec))
  }

  /** _move_causes_check: the mover's own king is in check after the
      simulated move. */
  predicate CausesCheck(s: Game, sr: int, sc: int, er: int, ec: int)
    requires IsGrid(s.board) && LastMoveOk(s.lastMove) && OnBoard(sr, sc) && OnBoard(er, ec)
    requires s.board[sr][sc].Some?
  {
    IsInCheck(Simulate(s, sr, sc, er, ec), s.board[sr][sc].value.color)
  }

  predicate AllOnBoard(ms: seq<Square>)
  {
    forall i :: 0 <= i < |ms| ==> OnBoard(ms[i].0, ms[i].1)
  }

  /** The list comprehension of get_piece_moves: keep, in order, the
      candidates that do not leave the mover in check. */
  function FilterSafe(s: Game, row: int, col: int, ms: seq<Square>): seq<Square>
    requires IsGrid(s.board) && LastMoveOk(s.lastMove) && OnBoard(row, col) && s.board[row][col].Some?
    requires AllOnBoard(ms)
  {
    if ms == [] then []
    else
      var m := ms[|ms| - 1];
      FilterSafe(s, row, col, ms[..|ms| - 1]) +
      (if CausesCheck(s, row, col, m.0, m.1) then [] else [m])
  }

  lemma {:induction false} RayOnBoard(g: Grid, color: Color, r: int, c: int, dr: int, dc: int)
    requires IsGrid(g) && IsDirection((dr, dc))
    ensures AllOnBoard(Ray(g, color, r, c, dr, dc))
    decreases RayMeasure(r, c, dr, dc)
  {
    if OnBoard(r + dr, c + dc) && g[r + dr][c + dc].None? {
      RayOnBoard(g, color, r + dr, c + dc, dr, dc);
    }
  }

  lemma {:induction false} RaysOnBoard(g: Grid, color: Color, row: int, col: int, dirs: seq<(int, int)>)
    requires IsGrid(g) && forall i :: 0 <= i < |dirs| ==> IsDirection(dirs[i])
    ensures AllOnBoard(Rays(g, color, row, col, dirs))
  {
    if dirs != [] {
      var d := dirs[|dirs| - 1];
      RaysOnBoard(g, color, row, col, dirs[..|dirs| - 1]);
      RayOnBoard(g, color, row, col, d.0, d.1);
    }
  }

  lemma {:induction false} StepsOnBoard(g: Grid, color: Color, row: int, col: int, offsets: seq<(int, int)>)
    requires IsGrid(g)
    ensures AllOnBoard(Steps(g, color, row, col, offsets))
  {
    if offsets != [] {
      StepsOnBoard(g, color, row, col, offsets[..|offsets| - 1]);
    }
  }

  lemma {:induction false} KingUpToOnBoard(g: Grid, color: Color, row: int, col: int, drow: int, dcol: int)
    requires IsGrid(g) && -1 <= dcol <= 2
    ensures AllOnBoard(KingUpTo(g, color, row, col, drow, dcol))
    decreases drow + 1, dcol + 1
  {
    if dcol == -1 {
      if drow > -1 {
        KingUpToOnBoard(g, color, row, col, drow - 1, dcol + 3);
      }
    } else {
      KingUpToOnBoard(g, color, row, col, drow, dcol - 1);
      var extra := KingStepAt(g, color, row, col, drow, dcol - 1);
      assert AllOnBoard(extra);
      AllOnBoardConcat(KingUpTo(g, color, row, col, drow, dcol - 1), extra);
    }
  }

  lemma AllOnBoardConcat(a: seq<Square>, b: seq<Square>)
    requires AllOnBoard(a) && AllOnBoard(b)
    ensures AllOnBoard(a + b)
  {
  }

  lemma PawnMovesOnBoard(g: Grid, last: Option<MoveRecord>, color: Color, row: int, col: int)
    requires IsGrid(g) && LastMoveOk(last) && OnBoard(row, col) && 1 <= row <= 6
    ensures AllOnBoard(PawnMoves(g, last, color, row, col))
  {
    var pushes, left, right, ep := PawnPushes(g, color, row, col), PawnCapture(g, color, row, col, -1),
      PawnCapture(g, color, row, col, 1), EnPassant(g, last, color, row, col);
    assert AllOnBoard(pushes) && AllOnBoard(left) && AllOnBoard(right) && AllOnBoard(ep);
    AllOnBoardConcat(pushes, left);
    AllOnBoardConcat(pushes + left, right);
    AllOnBoardConcat(pushes + left + right, ep);
  }

  lemma PseudoMovesOnBoard(g: Grid, last: Option<MoveRecord>, row: int, col: int)
    requires IsGrid(g) && LastMoveOk(last) && OnBoard(row, col)
    requires IsPawn(g[row][col]) ==> 1 <= row <= 6
    ensures AllOnBoard(PseudoMoves(g, last, row, col))
  {
    match g[row][col]
    case None =>
    case Some(p) =>
      match p.kind
      case Pawn => PawnMovesOnBoard(g, last, p.color, row, col);
      case Rook => RaysOnBoard(g, p.color, row, col, RookDirections);
      case Knight => StepsOnBoard(g, p.color, row, col, KnightOffsets);
      case Bishop => RaysOnBoard(g, p.color, row, col, BishopDirections);
      case Queen =>
        RaysOnBoard(g, p.color, row, col, RookDirections);
        RaysOnBoard(g, p.color, row, col, BishopDirections);
        AllOnBoardConcat(RookMoves(g, p.color, row, col), BishopMoves(g, p.color, row, col));
      case King => KingUpToOnBoard(g, p.color, row, col, 1, 2);
  }

  /** Every candidate lies on the board. For a pawn this needs it off the
      first and last rows: the en passant destination is not bounds-checked. */
  lemma CandidatesOnBoard(s: Game, row: int, col: int)
    requires IsGrid(s.board) && LastMoveOk(s.lastMove) && OnBoard(row, col)
    requires IsPawn(s.board[row][col]) ==> 1 <= row <= 6
    ensures AllOnBoard(Candidates(s, row, col))
  {
    var pseudo := PseudoMoves(s.board, s.lastMove, row, col);
    PseudoMovesOnBoard(s.board, s.lastMove, row, col);
    if s.board[row][col].Some? && s.board[row][col].value.kind == King {
      assert Candidates(s, row, col) == pseudo + CastlingMoves(s, row, col);
      CastlingOnBoard(s, row, col);
      AllOnBoardConcat(pseudo, CastlingMoves(s, row, col));
    } else {
      assert Candidates(s, row, col) == pseudo;
    }
  }

  lemma CastlingOnBoard(s: Game, row: int, col: int)
    requires IsGrid(s.board) && LastMoveOk(s.lastMove) && OnBoard(row, col) && s.board[row][col].Some?
    ensures AllOnBoard(CastlingMoves(s, row, col))
  {
  }

  /** get_piece_moves(row, col): the strict-legal moves of the piece. */
  function LegalMoves(s: Game, row: int, col: int): seq<Square>
    requires WellFormed(s) && OnBoard(row, col)
  {
    if s.board[row][col].None? then []
    else
      CandidatesOnBoard(s, row, col);
      FilterSafe(s, row, col, Candidates(s, row, col))
  }

  // ---------------------------------------------------------------------
  // Checkmate and stalemate
  // ---------------------------------------------------------------------

  /** A piece of `color` stands on (r, c) and has a legal move. */
  predicate CanMoveFrom(s: Game, r: int, c: int, color: Color)
    requires WellFormed(s) && OnBoard(r, c)
  {
    HoldsColor(s.board[r][c], color) && |LegalMoves(s, r, c)| > 0
  }

  predicate HasLegalMove(s: Game, color: Color)
    requires WellFormed(s)
  {
    exists r, c :: 0 <= r < 8 && 0 <= c < 8 && CanMoveFrom(s, r, c, color)
  }

  predicate IsCheckmate(s: Game, color: Color)
    requires WellFormed(s)
  {
    IsInCheck(s, color) && !HasLegalMove(s, color)
  }

  predicate IsStalemate(s: Game, color: Color)
    requires WellFormed(s)
  {
    !IsInCheck(s, color) && !HasLegalMove(s, color)
  }

  // ---------------------------------------------------------------------
  // make_move
  // ---------------------------------------------------------------------

  /** str.lower() on the ASCII letters. */
  function Lower(ch: char): char
  {
    if 'A' <= ch <= 'Z' then (ch as int + 32) as char else ch
  }

  /** The coordinates of an algebraic square such as "e2": column from the
      first character's distance to 'a', row 8 minus the digit. None is the
      IndexError (fewer than two characters) or ValueError (a non-digit
      second character). Characters after the second are ignored. */
  function ParseSquare(sq: string): Option<Square>
  {
    if |sq| < 2 || !('0' <= sq[1] <= '9') then None
    else Some((8 - (sq[1] as int - '0' as int), Lower(sq[0]) as int - 'a' as int))
  }

  function WithHasMoved(cell: Cell): Cell
  {
    if cell.Some? then Some(cell.value.(hasMoved := true)) else None
  }

  /** En passant: a pawn moving diagonally onto an empty cell removes the
      piece on its own row in the destination column. */
  function ClearPassedPawn(b: Grid, p: Piece, sr: int, sc: int, er: int, ec: int): Grid
    requires IsGrid(b) && OnBoard(sr, sc) && OnBoard(er, ec)
  {
    if p.kind == Pawn && ec != sc && b[er][ec].None? then Put(b, sr, ec, None) else b
  }

  /** Promotion, always to a fresh (unmoved) Queen of the same colour. */
  function Promote(p: Piece, er: int): Piece
  {
    if p.kind == Pawn && (er == 0 || er == 7) then Piece(p.color, Queen, false) else p
  }

  /** Castling: a king moving two columns to column 6 (2) brings whatever
      stands in column 7 (0) to column 5 (3), marked as moved. */
  function MoveCastlingRook(b: Grid, p: Piece, sr: int, sc: int, ec: int): Grid
    requires IsGrid(b) && 0 <= sr < 8
  {
    if p.kind == King && Abs(ec - sc) == 2 then
      if ec == 6 then Put(Put(b, sr, 7, None), sr, 5, WithHasMoved(b[sr][7]))
      else if ec == 2 then Put(Put(b, sr, 0, None), sr, 3, WithHasMoved(b[sr][0]))
      else b
    else b
  }

  /** The king cache follows a moving king. */
  function FollowKing(s: Game, p: Piece, er: int, ec: int): Game
  {
    if p.kind != King then s
    else if p.color == White then s.(whiteKingPos := (er, ec))
    else s.(blackKingPos := (er, ec))
  }

  /** The side effects of make_move once the move has been validated:
      en passant removal, promotion, the castling rook, the relocation of
      the (moved-marked) piece, the king cache, the last-move record, the
      history and the turn. */
  function ApplyMove(s: Game, sr: int, sc: int, er: int, ec: int, start: string, end: string): Game
    requires IsGrid(s.board) && OnBoard(sr, sc) && OnBoard(er, ec) && s.board[sr][sc].Some?
  {
    var original := s.board[sr][sc].value;
    var b1 := ClearPassedPawn(s.board, original, sr, sc, er, ec);
    var piece := Promote(original, er);
    var b2 := MoveCastlingRook(b1, piece, sr, sc, ec);
    var moved := piece.(hasMoved := true);
    var b3 := Put(Put(b2, er, ec, Some(moved)), sr, sc, None);
    FollowKing(s, moved, er, ec).(
      board := b3,
      lastMove := Some(MoveRecord(sr, sc, er, ec)),
      moveHistory := s.moveHistory + [(start, end)],
      currentPlayer := if s.currentPlayer == White then Black else White)
  }

  /** make_move(start, end): the new state, or None when the move is
      rejected (and the state is left as it was). */
  function TryMove(s: Game, start: string, end: string): Option<Game>
    requires WellFormed(s)
  {
    var from := ParseSquare(start);
    var to := ParseSquare(end);
    if from.None? || to.None? then None
    else
      var (sr, sc) := from.value;
      var (er, ec) := to.value;
      if !OnBoard(sr, sc) || !OnBoard(er, ec) then None
      else if !HoldsColor(s.board[sr][sc], s.currentPlayer) then None
      else if (er, ec) !in LegalMoves(s, sr, sc) then None
      else Some(ApplyMove(s, sr, sc, er, ec, start, end))
  }

  // ---------------------------------------------------------------------
  // The initial position
  // ---------------------------------------------------------------------

  /** The layout initialize_board produces: black back rank on row 0, black
      pawns on row 1, rows 2-5 empty, white pawns on row 6 and the white back
      rank on row 7, every piece unmoved. */
  predicate IsStartingLayout(g: Grid)
    requires IsGrid(g)
  {
    forall c :: 0 <= c < 8 ==>
      g[0][c] == Some(Piece(Black, BackRank[c], false)) &&
      g[1][c] == Some(Piece(Black, Pawn, false)) &&
      g[2][c] == None && g[3][c] == None && g[4][c] == None && g[5][c] == None &&
      g[6][c] == Some(Piece(White, Pawn, false)) &&
      g[7][c] == Some(Piece(White, BackRank[c], false))
  }
}
