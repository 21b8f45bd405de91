/** The browser's rules (chessLogic.js) against chess.py's: on the same
    position, isValidMove accepts exactly chess.py's pseudo-legal moves as
    they are with no last move on record (so without en passant), both
    programs start from the same layout, and makeMove agrees with
    make_move's board update on ordinary moves. Neither side checks for
    check in the browser. */
module RuleAgreement {
  import opened Pieces
  import opened ChessRules
  import MoveShapes
  import ChessRuleFacts
  import JS = ChessLogic

  /** A chess.py cell as the browser sees it: the moved flag dropped. */
  function View(cell: Cell): (v: JS.JsCell)
    ensures v.Some? <==> cell.Some?
    ensures v.Some? ==> v.value.kind == cell.value.kind && v.value.color == cell.value.color
  {
    if cell.None? then None else Some(JS.JsPiece(cell.value.kind, cell.value.color))
  }

  /** The browser board b shows the chess.py grid g. */
  predicate Corresponds(b: JS.JsBoard, g: Grid)
  {
    JS.IsBoard(b) && IsGrid(g) &&
    forall r, c :: 0 <= r < 8 && 0 <= c < 8 ==> b[r][c] == View(g[r][c])
  }

  /** The whole chess.py grid as the browser sees it. */
  function ViewBoard(g: Grid): (b: JS.JsBoard)
    requires IsGrid(g)
    ensures Corresponds(b, g)
  {
    seq(8, r requires 0 <= r < 8 => seq(8, c requires 0 <= c < 8 => View(g[r][c])))
  }

  /** A browser board showing g is its view. */
  lemma CorrespondsIsView(b: JS.JsBoard, g: Grid)
    requires Corresponds(b, g)
    ensures b == ViewBoard(g)
  {
    var v := ViewBoard(g);
    forall r | 0 <= r < 8
      ensures b[r] == v[r]
    {
    }
  }

  /** initializeBoard and initialize_board set up the same position. */
  lemma StartingLayoutsAgree(b: JS.JsBoard, g: Grid)
    requires JS.IsBoard(b) && JS.IsJsStartingLayout(b)
    requires IsGrid(g) && IsStartingLayout(g)
    ensures Corresponds(b, g)
  {
    forall r, c | 0 <= r < 8 && 0 <= c < 8
      ensures b[r][c] == View(g[r][c])
    {
      assert r == 0 || r == 1 || r == 2 || r == 3 || r == 4 || r == 5 || r == 6 || r == 7;
    }
  }

  /** k steps along a direction, written without multiplication. */
  lemma AlongCoords(r: int, c: int, d: (int, int), k: int)
    requires IsDirection(d)
    ensures MoveShapes.Along(r, c, d.0, d.1, k) ==
      (r + (if d.0 == 1 then k else if d.0 == -1 then -k else 0),
       c + (if d.1 == 1 then k else if d.1 == -1 then -k else 0))
  {
  }

  /** Walking the path from f to t step by step is walking from f in the
      direction of the signs of the differences. */
  lemma BetweenIsAlong(f: JS.Pos, t: JS.Pos, k: int)
    ensures var d := (JS.Sign(t.row - f.row), JS.Sign(t.col - f.col));
      JS.Between(f, t, k) == JS.Pos(MoveShapes.Along(f.row, f.col, d.0, d.1, k).0, MoveShapes.Along(f.row, f.col, d.0, d.1, k).1)
  {
  }

  /** A slide of k steps along d from f ends on a square in direction d,
      on a line, k steps away, with a clear path and no own piece. */
  lemma SlideGivesPath(b: JS.JsBoard, g: Grid, color: Color, f: JS.Pos, t: JS.Pos, d: (int, int), k: int)
    requires Corresponds(b, g) && JS.Inside(f) && JS.Inside(t) && IsDirection(d)
    requires MoveShapes.SlideReaches(g, color, f.row, f.col, d.0, d.1, k)
    requires (t.row, t.col) == MoveShapes.Along(f.row, f.col, d.0, d.1, k)
    ensures f != t && (JS.Sign(t.row - f.row), JS.Sign(t.col - f.col)) == d
    ensures JS.OnRookLine(f, t) || JS.OnDiagonal(f, t)
    ensures JS.PathClear(b, f, t) && !JS.HoldsPiece(b, t, color)
  {
    AlongCoords(f.row, f.col, d, k);
    assert JS.Distance(f, t) == k;
    forall j | 1 <= j < k
      ensures JS.IsEmptyAt(b, JS.Between(f, t, j))
    {
      BetweenIsAlong(f, t, j);
      assert MoveShapes.IsEmptyAt(g, MoveShapes.Along(f.row, f.col, d.0, d.1, j));
    }
  }

  /** Conversely, a square on a line from f in direction d with a clear
      path and no own piece is reached by the slide along d. */
  lemma PathGivesSlide(b: JS.JsBoard, g: Grid, color: Color, f: JS.Pos, t: JS.Pos)
    requires Corresponds(b, g) && JS.Inside(f) && JS.Inside(t)
    requires f != t && (JS.OnRookLine(f, t) || JS.OnDiagonal(f, t))
    requires JS.PathClear(b, f, t) && !JS.HoldsPiece(b, t, color)
    ensures var d := (JS.Sign(t.row - f.row), JS.Sign(t.col - f.col));
      IsDirection(d) &&
      MoveShapes.SlideReaches(g, color, f.row, f.col, d.0, d.1, JS.Distance(f, t)) &&
      (t.row, t.col) == MoveShapes.Along(f.row, f.col, d.0, d.1, JS.Distance(f, t))
  {
    var d := (JS.Sign(t.row - f.row), JS.Sign(t.col - f.col));
    var k := JS.Distance(f, t);
    JS.BetweenOnLine(f, t, k);
    BetweenIsAlong(f, t, k);
    forall j | 1 <= j < k
      ensures MoveShapes.IsEmptyAt(g, MoveShapes.Along(f.row, f.col, d.0, d.1, j))
    {
      BetweenIsAlong(f, t, j);
      assert JS.IsEmptyAt(b, JS.Between(f, t, j));
    }
  }

  /** The browser's rook rule is chess.py's rook move list. */
  lemma RookAgreement(b: JS.JsBoard, g: Grid, color: Color, f: JS.Pos, t: JS.Pos)
    requires Corresponds(b, g) && JS.Inside(f) && JS.Inside(t)
    ensures (t.row, t.col) in RookMoves(g, color, f.row, f.col) <==>
      f != t && !JS.HoldsPiece(b, t, color) && JS.OnRookLine(f, t) && JS.PathClear(b, f, t)
  {
    MoveShapes.RookMovesIff(g, color, f.row, f.col, (t.row, t.col));
    var d := (JS.Sign(t.row - f.row), JS.Sign(t.col - f.col));
    if (t.row, t.col) in RookMoves(g, color, f.row, f.col) {
      var i, k :| 0 <= i < 4 &&
        MoveShapes.SlideReaches(g, color, f.row, f.col, RookDirections[i].0, RookDirections[i].1, k) &&
        (t.row, t.col) == MoveShapes.Along(f.row, f.col, RookDirections[i].0, RookDirections[i].1, k);
      SlideGivesPath(b, g, color, f, t, RookDirections[i], k);
    }
    if f != t && !JS.HoldsPiece(b, t, color) && JS.OnRookLine(f, t) && JS.PathClear(b, f, t) {
      var i := if d == (0, 1) then 0 else if d == (0, -1) then 1 else if d == (1, 0) then 2 else 3;
      assert RookDirections[i] == d;
      PathGivesSlide(b, g, color, f, t);
    }
  }

  /** The browser's bishop rule is chess.py's bishop move list. */
  lemma BishopAgreement(b: JS.JsBoard, g: Grid, color: Color, f: JS.Pos, t: JS.Pos)
    requires Corresponds(b, g) && JS.Inside(f) && JS.Inside(t)
    ensures (t.row, t.col) in BishopMoves(g, color, f.row, f.col) <==>
      f != t && !JS.HoldsPiece(b, t, color) && JS.OnDiagonal(f, t) && JS.PathClear(b, f, t)
  {
    MoveShapes.BishopMovesIff(g, color, f.row, f.col, (t.row, t.col));
    var d := (JS.Sign(t.row - f.row), JS.Sign(t.col - f.col));
    if (t.row, t.col) in BishopMoves(g, color, f.row, f.col) {
      var i, k :| 0 <= i < 4 &&
        MoveShapes.SlideReaches(g, color, f.row, f.col, BishopDirections[i].0, BishopDirections[i].1, k) &&
        (t.row, t.col) == MoveShapes.Along(f.row, f.col, BishopDirections[i].0, BishopDirections[i].1, k);
      SlideGivesPath(b, g, color, f, t, BishopDirections[i], k);
    }
    if f != t && !JS.HoldsPiece(b, t, color) && JS.OnDiagonal(f, t) && JS.PathClear(b, f, t) {
      var i := if d == (1, 1) then 0 else if d == (1, -1) then 1 else if d == (-1, 1) then 2 else 3;
      assert BishopDirections[i] == d;
      PathGivesSlide(b, g, color, f, t);
    }
  }

  /** For a pawn, isValidMove accepts exactly chess.py's pawn list. */
  lemma PawnAgreement(b: JS.JsBoard, g: Grid, f: JS.Pos, t: JS.Pos, player: Color)
    requires Corresponds(b, g) && JS.Inside(f) && JS.Inside(t)
    requires HoldsColor(g[f.row][f.col], player) && g[f.row][f.col].value.kind == Pawn
    ensures JS.ValidMove(b, Some(f), Some(t), player) <==> (t.row, t.col) in PawnMoves(g, None, player, f.row, f.col)
  {
    MoveShapes.PawnMovesIff(g, None, player, f.row, f.col, (t.row, t.col));
  }

  /** For a knight, isValidMove accepts exactly chess.py's knight list. */
  lemma KnightAgreement(b: JS.JsBoard, g: Grid, f: JS.Pos, t: JS.Pos, player: Color)
    requires Corresponds(b, g) && JS.Inside(f) && JS.Inside(t)
    requires HoldsColor(g[f.row][f.col], player) && g[f.row][f.col].value.kind == Knight
    ensures JS.ValidMove(b, Some(f), Some(t), player) <==>
      (t.row, t.col) in Steps(g, player, f.row, f.col, KnightOffsets)
  {
    MoveShapes.KnightMovesIff(g, player, f.row, f.col, (t.row, t.col));
  }

  /** For a king, isValidMove accepts exactly chess.py's ordinary king
      steps (castling is not part of either list here). */
  lemma KingAgreement(b: JS.JsBoard, g: Grid, f: JS.Pos, t: JS.Pos, player: Color)
    requires Corresponds(b, g) && JS.Inside(f) && JS.Inside(t)
    requires HoldsColor(g[f.row][f.col], player) && g[f.row][f.col].value.kind == King
    ensures JS.ValidMove(b, Some(f), Some(t), player) <==>
      (t.row, t.col) in KingSteps(g, player, f.row, f.col)
  {
    GuardsAgree(b, g, f, t, player);
    KingConditionsAgree(b, g, f, t, player);
    KingListsAgree(b, g, f, t, player);
  }

  /** Once the king conditions read the same on both boards, so do the
      browser's verdict and chess.py's list. */
  lemma KingListsAgree(b: JS.JsBoard, g: Grid, f: JS.Pos, t: JS.Pos, player: Color)
    requires JS.IsBoard(b) && IsGrid(g) && JS.Inside(f) && JS.Inside(t)
    requires JS.HoldsPiece(b, f, player) && b[f.row][f.col].value.kind == King
    requires (f != t && !JS.HoldsPiece(b, t, player) && Abs(t.row - f.row) <= 1 && Abs(t.col - f.col) <= 1) <==>
      MoveShapes.Landable(g, player, (t.row, t.col)) && MoveShapes.IsKingStep(t.row - f.row, t.col - f.col)
    ensures JS.ValidMove(b, Some(f), Some(t), player) <==> (t.row, t.col) in KingSteps(g, player, f.row, f.col)
  {
    JS.KingMoveIff(b, f, t, player);
    MoveShapes.KingStepsIff(g, player, f.row, f.col, (t.row, t.col));
  }

  /** isValidMove's king conditions (another square, not the player's own,
      one step at most) are chess.py's (landable, a king step). */
  lemma KingConditionsAgree(b: JS.JsBoard, g: Grid, f: JS.Pos, t: JS.Pos, player: Color)
    requires Corresponds(b, g) && JS.Inside(f) && JS.Inside(t)
    ensures (f != t && !JS.HoldsPiece(b, t, player) && Abs(t.row - f.row) <= 1 && Abs(t.col - f.col) <= 1) <==>
      MoveShapes.Landable(g, player, (t.row, t.col)) && MoveShapes.IsKingStep(t.row - f.row, t.col - f.col)
  {
    assert b[t.row][t.col] == View(g[t.row][t.col]);
  }

  /** The guards isValidMove checks before the piece's own rule read the
      same on both boards: the mover is the player's, of the same kind,
      and the destination is held by the player exactly when the grid says
      so. */
  lemma GuardsAgree(b: JS.JsBoard, g: Grid, f: JS.Pos, t: JS.Pos, player: Color)
    requires Corresponds(b, g) && JS.Inside(f) && JS.Inside(t)
    requires HoldsColor(g[f.row][f.col], player)
    ensures JS.HoldsPiece(b, f, player) && b[f.row][f.col].value.kind == g[f.row][f.col].value.kind
    ensures JS.HoldsPiece(b, t, player) <==> HoldsColor(g[t.row][t.col], player)
    ensures b[t.row][t.col].None? <==> g[t.row][t.col].None?
  {
    assert b[f.row][f.col] == View(g[f.row][f.col]);
    assert b[t.row][t.col] == View(g[t.row][t.col]);
  }

  /** isValidMove accepts exactly the pseudo-legal moves chess.py lists for
      the same piece on the same position when no last move is recorded:
      the same pawn, knight, bishop, rook, queen and king rules, without en
      passant, castling or the check filter. */
  lemma ValidMoveIsPseudoMove(b: JS.JsBoard, g: Grid, f: JS.Pos, t: JS.Pos, player: Color)
    requires Corresponds(b, g) && JS.Inside(f) && JS.Inside(t)
    requires HoldsColor(g[f.row][f.col], player)
    ensures JS.ValidMove(b, Some(f), Some(t), player) <==> (t.row, t.col) in PseudoMoves(g, None, f.row, f.col)
  {
    var p := g[f.row][f.col].value;
    match p.kind
    case Pawn =>
      PawnAgreement(b, g, f, t, player);
    case Rook =>
      RookAgreement(b, g, player, f, t);
    case Knight =>
      KnightAgreement(b, g, f, t, player);
    case Bishop =>
      BishopAgreement(b, g, player, f, t);
    case Queen =>
      RookAgreement(b, g, player, f, t);
      BishopAgreement(b, g, player, f, t);
    case King =>
      KingAgreement(b, g, f, t, player);
  }

  /** On an ordinary move (no en passant, castling or promotion) makeMove
      produces the board make_move does, up to the moved flags. */
  lemma MakeMoveAgreement(b: JS.JsBoard, s: Game, f: JS.Pos, t: JS.Pos, start: string, end: string)
    requires Corresponds(b, s.board) && JS.Inside(f) && JS.Inside(t) && f != t
    requires s.board[f.row][f.col].Some?
    requires ChessRuleFacts.SideSquares(s, f.row, f.col, t.row, t.col) == {}
    requires Promote(s.board[f.row][f.col].value, t.row) == s.board[f.row][f.col].value
    ensures Corresponds(JS.MovedBoard(b, f, t), ApplyMove(s, f.row, f.col, t.row, t.col, start, end).board)
  {
    ChessRuleFacts.ApplyMoveEffects(s, f.row, f.col, t.row, t.col, start, end);
    ChessRuleFacts.ApplyMoveFrame(s, f.row, f.col, t.row, t.col, start, end);
  }
}
