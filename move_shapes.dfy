/** Reference characterisations of chess.py's pseudo-legal move generators:
    which squares each piece reaches, stated independently of the order in
    which the generators list them, and proved equivalent to them. */
module MoveShapes {
  import opened Pieces
  import opened ChessRules

  /** The square k steps from (r, c) along (dr, dc). */
  function Along(r: int, c: int, dr: int, dc: int, k: int): Square
  {
    (r + k * dr, c + k * dc)
  }

  predicate IsEmptyAt(g: Grid, sq: Square)
    requires IsGrid(g)
  {
    OnBoard(sq.0, sq.1) && g[sq.0][sq.1].None?
  }

  /** A square a piece of `color` may land on: on the board and not held by
      its own side. */
  predicate Landable(g: Grid, color: Color, sq: Square)
    requires IsGrid(g)
  {
    OnBoard(sq.0, sq.1) && !HoldsColor(g[sq.0][sq.1], color)
  }

  /** A slider of `color` on (r, c) reaches the square k >= 1 steps away
      along (dr, dc): every square strictly between is on the board and
      empty, and that square is landable. */
  predicate SlideReaches(g: Grid, color: Color, r: int, c: int, dr: int, dc: int, k: int)
    requires IsGrid(g)
  {
    1 <= k &&
    (forall j :: 1 <= j < k ==> IsEmptyAt(g, Along(r, c, dr, dc, j))) &&
    Landable(g, color, Along(r, c, dr, dc, k))
  }

  lemma AlongShift(r: int, c: int, dr: int, dc: int, k: int)
    ensures Along(r + dr, c + dc, dr, dc, k) == Along(r, c, dr, dc, k + 1)
  {
    assert (k + 1) * dr == k * dr + dr;
    assert (k + 1) * dc == k * dc + dc;
  }

  /** Reaching k + 1 steps from (r, c) is stepping onto an empty first
      square and reaching k steps from there. */
  lemma SlideReachesShift(g: Grid, color: Color, r: int, c: int, dr: int, dc: int, k: int)
    requires IsGrid(g) && 1 <= k
    ensures SlideReaches(g, color, r, c, dr, dc, k + 1) <==>
      IsEmptyAt(g, (r + dr, c + dc)) && SlideReaches(g, color, r + dr, c + dc, dr, dc, k)
  {
    AlongShift(r, c, dr, dc, k);
    assert Along(r, c, dr, dc, 1) == (r + dr, c + dc);
    var nr, nc := r + dr, c + dc;
    if SlideReaches(g, color, r, c, dr, dc, k + 1) {
      forall j | 1 <= j < k
        ensures IsEmptyAt(g, Along(nr, nc, dr, dc, j))
      {
        AlongShift(r, c, dr, dc, j);
      }
    }
    if IsEmptyAt(g, (r + dr, c + dc)) && SlideReaches(g, color, r + dr, c + dc, dr, dc, k) {
      forall j | 1 <= j < k + 1
        ensures IsEmptyAt(g, Along(r, c, dr, dc, j))
      {
        if j > 1 {
          AlongShift(r, c, dr, dc, j - 1);
        }
      }
    }
  }

  /** The ray of a slider is exactly the set of squares it reaches. */
  lemma RayMembership(g: Grid, color: Color, r: int, c: int, dr: int, dc: int, t: Square)
    requires IsGrid(g) && IsDirection((dr, dc))
    ensures t in Ray(g, color, r, c, dr, dc) <==>
      exists k :: SlideReaches(g, color, r, c, dr, dc, k) && t == Along(r, c, dr, dc, k)
  {
    if t in Ray(g, color, r, c, dr, dc) {
      RayOnlyReached(g, color, r, c, dr, dc, t);
    }
    if exists k :: SlideReaches(g, color, r, c, dr, dc, k) && t == Along(r, c, dr, dc, k) {
      var k :| SlideReaches(g, color, r, c, dr, dc, k) && t == Along(r, c, dr, dc, k);
      RayHoldsReached(g, color, r, c, dr, dc, k);
    }
  }

  /** Every square on the ray is reached some number of steps along. */
  lemma {:induction false} RayOnlyReached(g: Grid, color: Color, r: int, c: int, dr: int, dc: int, t: Square)
    requires IsGrid(g) && IsDirection((dr, dc))
    requires t in Ray(g, color, r, c, dr, dc)
    ensures exists k :: SlideReaches(g, color, r, c, dr, dc, k) && t == Along(r, c, dr, dc, k)
    decreases RayMeasure(r, c, dr, dc)
  {
    var next := (r + dr, c + dc);
    assert Along(r, c, dr, dc, 1) == next;
    if t == next {
      assert SlideReaches(g, color, r, c, dr, dc, 1);
    } else {
      // t lies further along, beyond an empty first square
      RayOnlyReached(g, color, next.0, next.1, dr, dc, t);
      var k :| SlideReaches(g, color, next.0, next.1, dr, dc, k) && t == Along(next.0, next.1, dr, dc, k);
      SlideReachesShift(g, color, r, c, dr, dc, k);
      AlongShift(r, c, dr, dc, k);
      assert SlideReaches(g, color, r, c, dr, dc, k + 1);
    }
  }

  /** Every square reached k steps along is on the ray. */
  lemma {:induction false} RayHoldsReached(g: Grid, color: Color, r: int, c: int, dr: int, dc: int, k: int)
    requires IsGrid(g) && IsDirection((dr, dc))
    requires SlideReaches(g, color, r, c, dr, dc, k)
    ensures Along(r, c, dr, dc, k) in Ray(g, color, r, c, dr, dc)
    decreases RayMeasure(r, c, dr, dc)
  {
    var next := (r + dr, c + dc);
    assert Along(r, c, dr, dc, 1) == next;
    if k > 1 {
      SlideReachesShift(g, color, r, c, dr, dc, k - 1);
      AlongShift(r, c, dr, dc, k - 1);
      assert g[next.0][next.1].None?;
      assert Ray(g, color, r, c, dr, dc) == [next] + Ray(g, color, next.0, next.1, dr, dc);
      assert 0 <= RayMeasure(next.0, next.1, dr, dc) < RayMeasure(r, c, dr, dc);
      RayHoldsReached(g, color, next.0, next.1, dr, dc, k - 1);
    } else {
      assert Landable(g, color, next);
    }
  }

  /** A slider's move list in several directions holds exactly the squares
      it reaches along one of them. */
  lemma {:induction false} RaysMembership(g: Grid, color: Color, row: int, col: int, dirs: seq<(int, int)>, t: Square)
    requires IsGrid(g) && forall i :: 0 <= i < |dirs| ==> IsDirection(dirs[i])
    ensures t in Rays(g, color, row, col, dirs) <==>
      exists i, k :: 0 <= i < |dirs| && SlideReaches(g, color, row, col, dirs[i].0, dirs[i].1, k) &&
        t == Along(row, col, dirs[i].0, dirs[i].1, k)
  {
    if dirs != [] {
      var n := |dirs| - 1;
      var front := dirs[..n];
      RaysMembership(g, color, row, col, front, t);
      RayMembership(g, color, row, col, dirs[n].0, dirs[n].1, t);
      if t in Rays(g, color, row, col, dirs) {
        if t in Rays(g, color, row, col, front) {
          var i, k :| 0 <= i < |front| && SlideReaches(g, color, row, col, front[i].0, front[i].1, k) &&
            t == Along(row, col, front[i].0, front[i].1, k);
          assert dirs[i] == front[i];
        } else {
          var k :| SlideReaches(g, color, row, col, dirs[n].0, dirs[n].1, k) && t == Along(row, col, dirs[n].0, dirs[n].1, k);
        }
      }
      if exists i, k ::
           0 <= i < |dirs| && SlideReaches(g, color, row, col, dirs[i].0, dirs[i].1, k) &&
           t == Along(row, col, dirs[i].0, dirs[i].1, k)
      {
        var i, k :| 0 <= i < |dirs| && SlideReaches(g, color, row, col, dirs[i].0, dirs[i].1, k) &&
          t == Along(row, col, dirs[i].0, dirs[i].1, k);
        if i < n {
          assert front[i] == dirs[i];
        }
      }
    }
  }

  /** The rook reaches, along a row or a column, every square up to and
      including the first occupied one, that one only if it is an enemy's. */
  lemma RookMovesIff(g: Grid, color: Color, row: int, col: int, t: Square)
    requires IsGrid(g)
    ensures t in RookMoves(g, color, row, col) <==>
      exists i, k :: 0 <= i < 4 && SlideReaches(g, color, row, col, RookDirections[i].0, RookDirections[i].1, k) &&
        t == Along(row, col, RookDirections[i].0, RookDirections[i].1, k)
  {
    RaysMembership(g, color, row, col, RookDirections, t);
  }

  /** The bishop likewise, along the four diagonals. */
  lemma BishopMovesIff(g: Grid, color: Color, row: int, col: int, t: Square)
    requires IsGrid(g)
    ensures t in BishopMoves(g, color, row, col) <==>
      exists i, k :: 0 <= i < 4 && SlideReaches(g, color, row, col, BishopDirections[i].0, BishopDirections[i].1, k) &&
        t == Along(row, col, BishopDirections[i].0, BishopDirections[i].1, k)
  {
    RaysMembership(g, color, row, col, BishopDirections, t);
  }

  /** Fixed-offset moves are exactly the landable squares at one of the
      offsets. */
  lemma {:induction false} StepsMembership(g: Grid, color: Color, row: int, col: int, offsets: seq<(int, int)>, t: Square)
    requires IsGrid(g)
    ensures t in Steps(g, color, row, col, offsets) <==>
      Landable(g, color, t) && (t.0 - row, t.1 - col) in offsets
  {
    if offsets != [] {
      var n := |offsets| - 1;
      var front := offsets[..n];
      var last := StepAt(g, color, row, col, offsets[n].0, offsets[n].1);
      assert offsets == front + [offsets[n]];
      assert Steps(g, color, row, col, offsets) == Steps(g, color, row, col, front) + last;
      var d := (t.0 - row, t.1 - col);
      StepsMembership(g, color, row, col, front, t);
      StepAtMembership(g, color, row, col, offsets[n].0, offsets[n].1, t);
      assert t in last <==> Landable(g, color, t) && d == offsets[n];
      assert d in offsets <==> d in front || d == offsets[n];
    }
  }

  predicate IsKnightJump(dr: int, dc: int)
  {
    (Abs(dr) == 1 && Abs(dc) == 2) || (Abs(dr) == 2 && Abs(dc) == 1)
  }

  predicate IsKingStep(dr: int, dc: int)
  {
    Abs(dr) <= 1 && Abs(dc) <= 1 && !(dr == 0 && dc == 0)
  }

  /** The knight reaches exactly the landable squares a (1, 2) or (2, 1)
      jump away. */
  lemma KnightMovesIff(g: Grid, color: Color, row: int, col: int, t: Square)
    requires IsGrid(g)
    ensures t in Steps(g, color, row, col, KnightOffsets) <==>
      Landable(g, color, t) && IsKnightJump(t.0 - row, t.1 - col)
  {
    StepsMembership(g, color, row, col, KnightOffsets, t);
    var d := (t.0 - row, t.1 - col);
    assert d in KnightOffsets <==> IsKnightJump(d.0, d.1);
  }

  /** Offset d comes before (drow, dcol) in the order of the king's nested
      loops: rows first, then columns. */
  predicate LoopBefore(dr: int, dc: int, drow: int, dcol: int)
  {
    dr < drow || (dr == drow && dc < dcol)
  }

  /** When the king's loops reach (drow, dcol) they have listed exactly the
      landable neighbours at the offsets before it. */
  lemma {:induction false} KingUpToMembership(g: Grid, color: Color, row: int, col: int, drow: int, dcol: int, t: Square)
    requires IsGrid(g) && -1 <= drow <= 1 && -1 <= dcol <= 2
    ensures t in KingUpTo(g, color, row, col, drow, dcol) <==>
      Landable(g, color, t) && IsKingStep(t.0 - row, t.1 - col) && LoopBefore(t.0 - row, t.1 - col, drow, dcol)
    decreases drow + 1, dcol + 1
  {
    if dcol == -1 {
      if drow > -1 {
        KingUpToMembership(g, color, row, col, drow - 1, dcol + 3, t);
        KingRowStart(g, color, row, col, drow, t);
      } else {
        assert IsKingStep(t.0 - row, t.1 - col) ==> !LoopBefore(t.0 - row, t.1 - col, drow, dcol);
      }
    } else {
      KingUpToMembership(g, color, row, col, drow, dcol - 1, t);
      KingColumnStep(g, color, row, col, drow, dcol, t);
    }
  }

  /** Entering row drow of the loops adds nothing: the squares collected
      are those before the end of the previous row. */
  lemma KingRowStart(g: Grid, color: Color, row: int, col: int, drow: int, t: Square)
    requires IsGrid(g) && 0 <= drow <= 1
    requires t in KingUpTo(g, color, row, col, drow - 1, 2) <==>
      Landable(g, color, t) && IsKingStep(t.0 - row, t.1 - col) && LoopBefore(t.0 - row, t.1 - col, drow - 1, 2)
    ensures t in KingUpTo(g, color, row, col, drow, -1) <==>
      Landable(g, color, t) && IsKingStep(t.0 - row, t.1 - col) && LoopBefore(t.0 - row, t.1 - col, drow, -1)
  {
    assert KingUpTo(g, color, row, col, drow, -1) == KingUpTo(g, color, row, col, drow - 1, 2);
  }

  /** One pass of the inner loop adds the offset (drow, dcol - 1) when it is
      not (0, 0) and its square is landable. */
  lemma KingColumnStep(g: Grid, color: Color, row: int, col: int, drow: int, dcol: int, t: Square)
    requires IsGrid(g) && -1 <= drow <= 1 && 0 <= dcol <= 2
    requires t in KingUpTo(g, color, row, col, drow, dcol - 1) <==>
      Landable(g, color, t) && IsKingStep(t.0 - row, t.1 - col) && LoopBefore(t.0 - row, t.1 - col, drow, dcol - 1)
    ensures t in KingUpTo(g, color, row, col, drow, dcol) <==>
      Landable(g, color, t) && IsKingStep(t.0 - row, t.1 - col) && LoopBefore(t.0 - row, t.1 - col, drow, dcol)
  {
    KingStepAtMembership(g, color, row, col, drow, dcol - 1, t);
    ColumnStepOrder(KingUpTo(g, color, row, col, drow, dcol - 1), KingStepAt(g, color, row, col, drow, dcol - 1),
      t, Landable(g, color, t), t.0 - row, t.1 - col, drow, dcol);
  }

  /** One pass of the inner loop lists t exactly when t is landable and at
      that offset, the offset not being (0, 0). */
  lemma KingStepAtMembership(g: Grid, color: Color, row: int, col: int, dr: int, dc: int, t: Square)
    requires IsGrid(g)
    ensures t in KingStepAt(g, color, row, col, dr, dc) <==>
      Landable(g, color, t) && t.0 - row == dr && t.1 - col == dc && !(dr == 0 && dc == 0)
  {
    StepAtMembership(g, color, row, col, dr, dc, t);
  }

  /** The order argument of KingColumnStep, away from the grid: adding the
      offset (drow, dcol - 1) when it is not (0, 0) extends "before
      (drow, dcol - 1)" to "before (drow, dcol)". */
  lemma ColumnStepOrder(prev: seq<Square>, extra: seq<Square>, t: Square, landable: bool,
                        dr: int, dc: int, drow: int, dcol: int)
    requires -1 <= drow <= 1 && 0 <= dcol <= 2
    requires t in prev <==> landable && IsKingStep(dr, dc) && LoopBefore(dr, dc, drow, dcol - 1)
    requires t in extra <==> landable && dr == drow && dc == dcol - 1 && !(drow == 0 && dcol - 1 == 0)
    ensures t in prev + extra <==> landable && IsKingStep(dr, dc) && LoopBefore(dr, dc, drow, dcol)
  {
  }

  /** The square one offset away is listed exactly when it is landable. */
  lemma StepAtMembership(g: Grid, color: Color, row: int, col: int, dr: int, dc: int, t: Square)
    requires IsGrid(g)
    ensures t in StepAt(g, color, row, col, dr, dc) <==> t == (row + dr, col + dc) && Landable(g, color, t)
  {
  }

  /** The king (without castling) reaches exactly the landable neighbours. */
  lemma KingStepsIff(g: Grid, color: Color, row: int, col: int, t: Square)
    requires IsGrid(g)
    ensures t in KingSteps(g, color, row, col) <==>
      Landable(g, color, t) && IsKingStep(t.0 - row, t.1 - col)
  {
    KingUpToMembership(g, color, row, col, 1, 2, t);
  }

  /** A pawn's one-square push onto an empty square. */
  predicate IsSinglePush(g: Grid, color: Color, row: int, col: int, t: Square)
    requires IsGrid(g)
  {
    t == (row + PawnDirection(color), col) && IsEmptyAt(g, t)
  }

  /** The two-square push from the starting row, over an empty square onto
      an empty square. */
  predicate IsDoublePush(g: Grid, color: Color, row: int, col: int, t: Square)
    requires IsGrid(g)
  {
    OnStartRow(color, row) && t == (row + 2 * PawnDirection(color), col) &&
    IsEmptyAt(g, (row + PawnDirection(color), col)) && IsEmptyAt(g, t)
  }

  /** A diagonal step forward onto an enemy piece. */
  predicate IsDiagonalCapture(g: Grid, color: Color, row: int, col: int, t: Square)
    requires IsGrid(g)
  {
    t.0 == row + PawnDirection(color) && Abs(t.1 - col) == 1 && OnBoard(t.0, t.1) &&
    g[t.0][t.1].Some? && g[t.0][t.1].value.color != color
  }

  /** The en passant step behind a pawn that has just advanced two rows. */
  predicate IsEnPassantStep(g: Grid, last: Option<MoveRecord>, color: Color, row: int, col: int, t: Square)
    requires IsGrid(g) && LastMoveOk(last)
  {
    EnPassantReady(g, last, row, col) && t == (row + PawnDirection(color), last.value.endCol)
  }

  /** The pushes are exactly the single and the double push. */
  lemma PawnPushesIff(g: Grid, color: Color, row: int, col: int, t: Square)
    requires IsGrid(g) && OnBoard(row, col)
    ensures t in PawnPushes(g, color, row, col) <==>
      IsSinglePush(g, color, row, col, t) || IsDoublePush(g, color, row, col, t)
  {
  }

  /** The two capture lists hold exactly the diagonal captures. */
  lemma PawnCapturesIff(g: Grid, color: Color, row: int, col: int, t: Square)
    requires IsGrid(g) && OnBoard(row, col)
    ensures t in PawnCapture(g, color, row, col, -1) + PawnCapture(g, color, row, col, 1) <==>
      IsDiagonalCapture(g, color, row, col, t)
  {
    if IsDiagonalCapture(g, color, row, col, t) {
      if t.1 == col - 1 {
        assert t in PawnCapture(g, color, row, col, -1);
      } else {
        assert t in PawnCapture(g, color, row, col, 1);
      }
    }
  }

  /** En passant lists at most the one square behind the pawn that has
      just advanced two squares beside this one. */
  lemma EnPassantIff(g: Grid, last: Option<MoveRecord>, color: Color, row: int, col: int, t: Square)
    requires IsGrid(g) && LastMoveOk(last)
    ensures t in EnPassant(g, last, color, row, col) <==> IsEnPassantStep(g, last, color, row, col, t)
  {
  }

  /** A pawn goes forward one square onto an empty square, two from its
      starting row over two empty squares, diagonally forward only onto an
      enemy piece, or en passant; and every such square is listed. */
  lemma PawnMovesIff(g: Grid, last: Option<MoveRecord>, color: Color, row: int, col: int, t: Square)
    requires IsGrid(g) && LastMoveOk(last) && OnBoard(row, col)
    ensures t in PawnMoves(g, last, color, row, col) <==>
      IsSinglePush(g, color, row, col, t) || IsDoublePush(g, color, row, col, t) ||
      IsDiagonalCapture(g, color, row, col, t) || IsEnPassantStep(g, last, color, row, col, t)
  {
    var pushes := PawnPushes(g, color, row, col);
    var left := PawnCapture(g, color, row, col, -1);
    var right := PawnCapture(g, color, row, col, 1);
    var passant := EnPassant(g, last, color, row, col);
    PawnPushesIff(g, color, row, col, t);
    PawnCapturesIff(g, color, row, col, t);
    EnPassantIff(g, last, color, row, col, t);
    InFourParts(PawnMoves(g, last, color, row, col), pushes, left, right, passant, t,
      IsSinglePush(g, color, row, col, t) || IsDoublePush(g, color, row, col, t),
      IsDiagonalCapture(g, color, row, col, t), IsEnPassantStep(g, last, color, row, col, t));
  }

  /** Membership in four concatenated lists, the first, the middle two
      together and the last each described by a condition. */
  lemma InFourParts(all: seq<Square>, first: seq<Square>, left: seq<Square>, right: seq<Square>, last: seq<Square>,
                    t: Square, inFirst: bool, inMiddle: bool, inLast: bool)
    requires all == first + left + right + last
    requires t in first <==> inFirst
    requires t in left + right <==> inMiddle
    requires t in last <==> inLast
    ensures t in all <==> inFirst || inMiddle || inLast
  {
  }

  /** get_piece_moves with checking_check: nothing for an empty square, the
      rook's moves followed by the bishop's for a queen, and only landable
      squares for every piece but the pawn. */
  lemma PseudoMovesShape(g: Grid, last: Option<MoveRecord>, row: int, col: int, t: Square)
    requires IsGrid(g) && LastMoveOk(last) && OnBoard(row, col)
    ensures g[row][col].None? ==> PseudoMoves(g, last, row, col) == []
    ensures g[row][col].Some? && g[row][col].value.kind == Queen ==>
      PseudoMoves(g, last, row, col) ==
        RookMoves(g, g[row][col].value.color, row, col) + BishopMoves(g, g[row][col].value.color, row, col)
    ensures g[row][col].Some? && g[row][col].value.kind != Pawn && t in PseudoMoves(g, last, row, col) ==>
      Landable(g, g[row][col].value.color, t)
  {
    if g[row][col].Some? {
      var color := g[row][col].value.color;
      RookMovesIff(g, color, row, col, t);
      BishopMovesIff(g, color, row, col, t);
      KnightMovesIff(g, color, row, col, t);
      KingStepsIff(g, color, row, col, t);
    }
  }
}
