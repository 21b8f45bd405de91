/** chessLogic.js, the move rules of the browser front end. A piece is a
    type and a colour only (no moved flag), squares are {row, col} objects,
    and the rules know nothing of check, castling, en passant or promotion. */
module ChessLogic {
  import opened Pieces

  datatype JsPiece = JsPiece(kind: PieceType, color: Color)

  /** A board cell: a piece or null. */
  type JsCell = Option<JsPiece>

  type JsBoard = seq<seq<JsCell>>

  /** A {row, col} square object. */
  datatype Pos = Pos(row: int, col: int)

  predicate IsBoard(b: JsBoard)
  {
    |b| == 8 && forall r :: 0 <= r < 8 ==> |b[r]| == 8
  }

  predicate Inside(p: Pos)
  {
    0 <= p.row < 8 && 0 <= p.col < 8
  }

  /** The assignment `board[r][c] = x` on a copy. */
  function SetCell(b: JsBoard, r: int, c: int, x: JsCell): (b': JsBoard)
    requires IsBoard(b) && 0 <= r < 8 && 0 <= c < 8
    ensures IsBoard(b')
    ensures b'[r][c] == x
    ensures forall i, j :: 0 <= i < 8 && 0 <= j < 8 && (i != r || j != c) ==> b'[i][j] == b[i][j]
  {
    b[r := b[r][c := x]]
  }

  // ---------------------------------------------------------------------
  // initializeBoard
  // ---------------------------------------------------------------------

  /** Black's back rank on row 0 and pawns on row 1, White's pawns on row 6
      and back rank on row 7, rows 2 to 5 empty. */
  predicate IsJsStartingLayout(b: JsBoard)
    requires IsBoard(b)
  {
    forall c :: 0 <= c < 8 ==>
      b[0][c] == Some(JsPiece(BackRank[c], Black)) &&
      b[1][c] == Some(JsPiece(Pawn, Black)) &&
      b[2][c] == None && b[3][c] == None && b[4][c] == None && b[5][c] == None &&
      b[6][c] == Some(JsPiece(Pawn, White)) &&
      b[7][c] == Some(JsPiece(BackRank[c], White))
  }

  /** initializeBoard: an 8x8 grid of nulls, then the pawns, then the back
      ranks. */
  method InitializeBoard() returns (b: JsBoard)
    ensures IsBoard(b) && IsJsStartingLayout(b)
  {
    b := seq(8, _ => seq(8, _ => None));
    for i := 0 to 8
      invariant IsBoard(b)
      invariant forall c :: 0 <= c < i ==>
        b[1][c] == Some(JsPiece(Pawn, Black)) && b[6][c] == Some(JsPiece(Pawn, White))
      invariant forall r, c :: 0 <= r < 8 && 0 <= c < 8 && r != 1 && r != 6 ==> b[r][c] == None
    {
      b := SetCell(b, 1, i, Some(JsPiece(Pawn, Black)));
      b := SetCell(b, 6, i, Some(JsPiece(Pawn, White)));
    }
    var pieceOrder := BackRank;
    for i := 0 to 8
      invariant IsBoard(b)
      invariant forall c :: 0 <= c < 8 ==>
        b[1][c] == Some(JsPiece(Pawn, Black)) && b[6][c] == Some(JsPiece(Pawn, White))
      invariant forall r, c :: 2 <= r < 6 && 0 <= c < 8 ==> b[r][c] == None
      invariant forall c :: 0 <= c < i ==>
        b[0][c] == Some(JsPiece(pieceOrder[c], Black)) && b[7][c] == Some(JsPiece(pieceOrder[c], White))
    {
      b := SetCell(b, 0, i, Some(JsPiece(pieceOrder[i], Black)));
      b := SetCell(b, 7, i, Some(JsPiece(pieceOrder[i], White)));
    }
  }

  // ---------------------------------------------------------------------
  // Lines and paths (isValidRookMove, isValidBishopMove)
  // ---------------------------------------------------------------------

  /** Math.sign on integers. */
  function Sign(x: int): int
  {
    if x > 0 then 1 else if x < 0 then -1 else 0
  }

  /** The number of king steps along the line from `from` to `to`. */
  function Distance(from: Pos, to: Pos): nat
  {
    var dr, dc := Abs(to.row - from.row), Abs(to.col - from.col);
    if dr < dc then dc else dr
  }

  /** The square reached after k steps of (sign of row difference, sign of
      column difference) from `from`. */
  function Between(from: Pos, to: Pos, k: int): Pos
  {
    Pos(from.row + k * Sign(to.row - from.row), from.col + k * Sign(to.col - from.col))
  }

  predicate IsEmptyAt(b: JsBoard, p: Pos)
    requires IsBoard(b)
  {
    Inside(p) && b[p.row][p.col].None?
  }

  /** Every square strictly between `from` and `to` is empty. */
  predicate PathClear(b: JsBoard, from: Pos, to: Pos)
    requires IsBoard(b)
  {
    forall k :: 1 <= k < Distance(from, to) ==> IsEmptyAt(b, Between(from, to, k))
  }

  predicate OnRookLine(from: Pos, to: Pos)
  {
    from.row == to.row || from.col == to.col
  }

  predicate OnDiagonal(from: Pos, to: Pos)
  {
    Abs(to.row - from.row) == Abs(to.col - from.col)
  }

  /** Along a row, a column or a diagonal, the walk from `from` stays on the
      board, and after Distance steps it arrives at `to`, not earlier. */
  lemma BetweenOnLine(from: Pos, to: Pos, k: int)
    requires Inside(from) && Inside(to) && (OnRookLine(from, to) || OnDiagonal(from, to))
    requires 0 <= k <= Distance(from, to)
    ensures Inside(Between(from, to, k))
    ensures Between(from, to, k) == to <==> k == Distance(from, to)
  {
    var sr, sc := Sign(to.row - from.row), Sign(to.col - from.col);
    assert k * sr == (if sr == 1 then k else if sr == -1 then -k else 0);
    assert k * sc == (if sc == 1 then k else if sc == -1 then -k else 0);
  }

  /** One more step of the walk adds the two signs. */
  lemma BetweenStep(from: Pos, to: Pos, k: int)
    ensures Between(from, to, k + 1) ==
      Pos(Between(from, to, k).row + Sign(to.row - from.row), Between(from, to, k).col + Sign(to.col - from.col))
  {
  }

  /** On a diagonal the walk reaches the row of `to` and its column at the
      same step. */
  lemma DiagonalArrival(from: Pos, to: Pos, k: int)
    requires Inside(from) && Inside(to) && OnDiagonal(from, to)
    requires 0 <= k <= Distance(from, to)
    ensures Inside(Between(from, to, k))
    ensures Between(from, to, k).row == to.row <==> k == Distance(from, to)
    ensures Between(from, to, k).col == to.col <==> k == Distance(from, to)
  {
    BetweenOnLine(from, to, k);
    var sr, sc := Sign(to.row - from.row), Sign(to.col - from.col);
    assert k * sr == (if sr == 1 then k else if sr == -1 then -k else 0);
    assert k * sc == (if sc == 1 then k else if sc == -1 then -k else 0);
  }

  /** isValidRookMove: the squares share a row or a column and the walk
      from one to the other meets no piece before the last square. */
  method IsValidRookMove(board: JsBoard, from: Pos, to: Pos) returns (valid: bool)
    requires IsBoard(board) && Inside(from) && Inside(to)
    ensures valid == (OnRookLine(from, to) && PathClear(board, from, to))
  {
    if from.row != to.row && from.col != to.col {
      return false;
    }
    var rowDir := Sign(to.row - from.row);
    var colDir := Sign(to.col - from.col);
    var row := from.row + rowDir;
    var col := from.col + colDir;
    ghost var k := 1;
    ghost var n: int := Distance(from, to);
    while row != to.row || col != to.col
      invariant Pos(row, col) == Between(from, to, k)
      invariant 1 <= k && (k <= n || from == to)
      invariant forall j :: 1 <= j < k ==> IsEmptyAt(board, Between(from, to, j))
      decreases n - k
    {
      BetweenOnLine(from, to, k);
      if board[row][col].Some? {
        return false;
      }
      row := row + rowDir;
      col := col + colDir;
      k := k + 1;
    }
    if from != to {
      BetweenOnLine(from, to, k);
    }
    return true;
  }

  /** isValidBishopMove: the squares are on a common diagonal and the walk
      meets no piece before the last square. */
  method IsValidBishopMove(board: JsBoard, from: Pos, to: Pos) returns (valid: bool)
    requires IsBoard(board) && Inside(from) && Inside(to)
    ensures valid == (OnDiagonal(from, to) && PathClear(board, from, to))
  {
    if Abs(to.row - from.row) != Abs(to.col - from.col) {
      return false;
    }
    var rowDir := Sign(to.row - from.row);
    var colDir := Sign(to.col - from.col);
    var row := from.row + rowDir;
    var col := from.col + colDir;
    ghost var k := 1;
    ghost var n: int := Distance(from, to);
    while row != to.row && col != to.col
      invariant Pos(row, col) == Between(from, to, k)
      invariant 1 <= k && (k <= n || from == to)
      invariant forall j :: 1 <= j < k ==> IsEmptyAt(board, Between(from, to, j))
      decreases n - k
    {
      assert from != to;
      DiagonalArrival(from, to, k);
      if board[row][col].Some? {
        return false;
      }
      BetweenStep(from, to, k);
      row := row + rowDir;
      col := col + colDir;
      k := k + 1;
    }
    if from != to {
      DiagonalArrival(from, to, k);
    }
    return true;
  }

  // ---------------------------------------------------------------------
  // isValidMove
  // ---------------------------------------------------------------------

  predicate HoldsPiece(b: JsBoard, p: Pos, color: Color)
    requires IsBoard(b) && Inside(p)
  {
    b[p.row][p.col].Some? && b[p.row][p.col].value.color == color
  }

  predicate IsKnightJump(from: Pos, to: Pos)
  {
    var dr, dc := Abs(to.row - from.row), Abs(to.col - from.col);
    (dr == 2 && dc == 1) || (dr == 1 && dc == 2)
  }

  /** The pawn branch: one square forward onto an empty square, two from
      the starting row over an empty square onto an empty one, or one
      diagonal step forward onto an occupied square. */
  predicate PawnRule(b: JsBoard, from: Pos, to: Pos, color: Color)
    requires IsBoard(b) && Inside(from) && Inside(to)
  {
    var direction := if color == White then -1 else 1;
    var startRow := if color == White then 6 else 1;
    var dest := b[to.row][to.col];
    (from.col == to.col && to.row == from.row + direction && dest.None?) ||
    (from.col == to.col && from.row == startRow && to.row == from.row + 2 * direction &&
     dest.None? && b[from.row + direction][from.col].None?) ||
    (Abs(to.col - from.col) == 1 && to.row == from.row + direction && dest.Some?)
  }

  /** isValidMove(board, from, to, currentPlayer). A missing square, a
      start without a piece of the player, a null move and a destination
      held by the player are refused before the piece's own rule is asked. */
  function ValidMove(b: JsBoard, from: Option<Pos>, to: Option<Pos>, player: Color): (valid: bool)
    requires IsBoard(b)
    requires from.Some? ==> Inside(from.value)
    requires to.Some? ==> Inside(to.value)
    ensures valid ==>
      from.Some? && to.Some? && from.value != to.value &&
      HoldsPiece(b, from.value, player) && !HoldsPiece(b, to.value, player)
  {
    if from.None? || to.None? then false
    else
      var f, t := from.value, to.value;
      if !HoldsPiece(b, f, player) then false
      else if f.row == t.row && f.col == t.col then false
      else if HoldsPiece(b, t, player) then false
      else PieceRule(b, f, t, b[f.row][f.col].value.kind, player)
  }

  /** The switch at the end of isValidMove: the rule of the piece's kind. */
  predicate PieceRule(b: JsBoard, f: Pos, t: Pos, kind: PieceType, player: Color)
    requires IsBoard(b) && Inside(f) && Inside(t)
  {
    match kind
    case Pawn => PawnRule(b, f, t, player)
    case Rook => OnRookLine(f, t) && PathClear(b, f, t)
    case Knight => IsKnightJump(f, t)
    case Bishop => OnDiagonal(f, t) && PathClear(b, f, t)
    case Queen => (OnRookLine(f, t) && PathClear(b, f, t)) || (OnDiagonal(f, t) && PathClear(b, f, t))
    case King => Abs(t.row - f.row) <= 1 && Abs(t.col - f.col) <= 1
  }

  /** Once the mover is the player's, isValidMove is the piece's rule on a
      move to another square the player does not hold. */
  lemma ValidMoveOfPiece(b: JsBoard, f: Pos, t: Pos, player: Color)
    requires IsBoard(b) && Inside(f) && Inside(t) && HoldsPiece(b, f, player)
    ensures ValidMove(b, Some(f), Some(t), player) <==>
      f != t && !HoldsPiece(b, t, player) && PieceRule(b, f, t, b[f.row][f.col].value.kind, player)
  {
  }

  /** A king of the player's moves one square in any direction, onto any
      square the player does not hold. */
  lemma KingMoveIff(b: JsBoard, f: Pos, t: Pos, player: Color)
    requires IsBoard(b) && Inside(f) && Inside(t) && HoldsPiece(b, f, player) && b[f.row][f.col].value.kind == King
    ensures ValidMove(b, Some(f), Some(t), player) <==>
      f != t && !HoldsPiece(b, t, player) && Abs(t.row - f.row) <= 1 && Abs(t.col - f.col) <= 1
  {
    ValidMoveOfPiece(b, f, t, player);
  }

  /** isValidMove, with the rook and bishop walks done by the loops. */
  method IsValidMove(board: JsBoard, from: Option<Pos>, to: Option<Pos>, currentPlayer: Color) returns (valid: bool)
    requires IsBoard(board)
    requires from.Some? ==> Inside(from.value)
    requires to.Some? ==> Inside(to.value)
    ensures valid == ValidMove(board, from, to, currentPlayer)
  {
    if from.None? || to.None? {
      return false;
    }
    var f, t := from.value, to.value;
    var piece := board[f.row][f.col];
    if piece.None? || piece.value.color != currentPlayer {
      return false;
    }
    if f.row == t.row && f.col == t.col {
      return false;
    }
    var destPiece := board[t.row][t.col];
    if destPiece.Some? && destPiece.value.color == currentPlayer {
      return false;
    }
    match piece.value.kind
    case Pawn =>
      var direction := if piece.value.color == White then -1 else 1;
      var startRow := if piece.value.color == White then 6 else 1;
      // Normal move forward
      if f.col == t.col && t.row == f.row + direction && destPiece.None? {
        return true;
      }
      // Initial two-square move
      if f.col == t.col && f.row == startRow && t.row == f.row + 2 * direction &&
         destPiece.None? && board[f.row + direction][f.col].None?
      {
        return true;
      }
      // Capture diagonally
      if Abs(t.col - f.col) == 1 && t.row == f.row + direction && destPiece.Some? {
        return true;
      }
      return false;
    case Rook =>
      valid := IsValidRookMove(board, f, t);
    case Knight =>
      var rowDiff := Abs(t.row - f.row);
      var colDiff := Abs(t.col - f.col);
      valid := (rowDiff == 2 && colDiff == 1) || (rowDiff == 1 && colDiff == 2);
    case Bishop =>
      valid := IsValidBishopMove(board, f, t);
    case Queen =>
      valid := IsValidRookMove(board, f, t);
      if !valid {
        valid := IsValidBishopMove(board, f, t);
      }
    case King =>
      valid := Abs(t.row - f.row) <= 1 && Abs(t.col - f.col) <= 1;
  }

  // ---------------------------------------------------------------------
  // makeMove
  // ---------------------------------------------------------------------

  /** The board makeMove returns: the start square's content copied to the
      destination, then the start square cleared. */
  function MovedBoard(b: JsBoard, from: Pos, to: Pos): (nb: JsBoard)
    requires IsBoard(b) && Inside(from) && Inside(to)
    ensures IsBoard(nb)
    ensures nb[from.row][from.col] == None
    ensures from != to ==> nb[to.row][to.col] == b[from.row][from.col]
    ensures forall r, c :: 0 <= r < 8 && 0 <= c < 8 && Pos(r, c) != from && Pos(r, c) != to ==> nb[r][c] == b[r][c]
  {
    SetCell(SetCell(b, to.row, to.col, b[from.row][from.col]), from.row, from.col, None)
  }

  /** makeMove: copy every row, write the destination, clear the start. The
      board passed in is not changed (the rows are copied). */
  method MakeMove(board: JsBoard, from: Pos, to: Pos) returns (newBoard: JsBoard)
    requires IsBoard(board) && Inside(from) && Inside(to)
    ensures newBoard == MovedBoard(board, from, to)
  {
    newBoard := seq(8, r requires 0 <= r < 8 => board[r][..]);
    assert newBoard == board;
    newBoard := newBoard[to.row := newBoard[to.row][to.col := newBoard[from.row][from.col]]];
    newBoard := newBoard[from.row := newBoard[from.row][from.col := None]];
  }
}
