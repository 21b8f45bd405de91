/** stockfishService.js: the position sent to the engine and the reading of
    the engine's reply. The worker, its messages and the promises around
    them are not part of this model. */
module StockfishService {
  import opened Pieces
  import opened ChessLogic
  import opened Fen

  /** The fields boardToFen appends after the placement: White to move,
      all castling rights, no en passant square, clocks 0 and 1. */
  const FenTail: string := " w KQkq - 0 1"

  /** boardToFen: one pass over the rows and columns, counting empty
      squares and writing the count before the next piece or at the end of
      the row. */
  method BoardToFen(board: JsBoard) returns (fen: string)
    requires IsBoard(board)
    ensures fen == Placement(board) + FenTail
  {
    fen := "";
    var emptyCount := 0;
    for row := 0 to 8
      invariant fen == PlacementPrefix(board, row) && emptyCount == 0
    {
      for col := 0 to 8
        invariant emptyCount <= col
        invariant fen + EncodeCells(board[row][col..], emptyCount) == PlacementPrefix(board, row) + RankField(board[row])
      {
        var piece := board[row][col];
        ghost var rest := board[row][col..];
        assert rest[1..] == board[row][col + 1..];
        if piece.Some? {
          if emptyCount > 0 {
            fen := fen + [Digit(emptyCount)];
            emptyCount := 0;
          }
          var pieceSymbol := KindLetter(piece.value.kind);
          fen := fen + [if piece.value.color == White then Upper(pieceSymbol) else pieceSymbol];
        } else {
          emptyCount := emptyCount + 1;
        }
      }
      if emptyCount > 0 {
        fen := fen + [Digit(emptyCount)];
        emptyCount := 0;
      }
      if row < 7 {
        fen := fen + "/";
      }
    }
    fen := fen + FenTail;
  }

  /** The whole string boardToFen sends decodes back to the board, and each
      of its eight row fields is eight squares wide without adjacent
      digits. */
  lemma BoardToFenRoundTrip(board: JsBoard)
    requires IsBoard(board)
    ensures BoardOfFen(Placement(board) + FenTail) == Some(board)
    ensures forall r :: 0 <= r < 8 ==>
      Split(BeforeSpace(Placement(board) + FenTail))[r] == RankField(board[r]) &&
      Width(RankField(board[r])) == 8 && NoAdjacentDigits(RankField(board[r]))
  {
    assert Placement(board) + FenTail == Placement(board) + " " + "w KQkq - 0 1";
    PlacementRoundTrip(board, "w KQkq - 0 1");
    PlacementNoSpace(board, 8);
    BeforeSpaceOfPlacement(Placement(board), "w KQkq - 0 1");
    forall r | 0 <= r < 8
      ensures Width(RankField(board[r])) == 8 && NoAdjacentDigits(RankField(board[r]))
    {
      RankFieldShape(board[r]);
    }
  }

  /** The string holds exactly seven '/': the tail adds none. */
  lemma BoardToFenSlashes(board: JsBoard)
    requires IsBoard(board)
    ensures CountOf('/', Placement(board) + FenTail) == 7
  {
    PlacementSlashes(board);
    CountConcat('/', Placement(board), FenTail);
    assert CountOf('/', FenTail) == 0;
  }

  // ---------------------------------------------------------------------
  // parseMove
  // ---------------------------------------------------------------------

  /** A JavaScript number as parseInt can return it. */
  datatype JsNumber = Num(n: int) | NaN

  /** A {row, col} object of parseMove's result: the row may be NaN, the
      column -1. */
  datatype ParsedSquare = ParsedSquare(row: JsNumber, col: int)

  datatype ParsedMove = ParsedMove(from: ParsedSquare, to: ParsedSquare)

  const Files: string := "abcdefgh"

  /** files.indexOf(s[i]): the file's index, -1 for any other character and
      for a missing one (undefined is never found). */
  function FileIndex(s: string, i: nat): (col: int)
    ensures -1 <= col < 8
    ensures col >= 0 ==> i < |s| && Files[col] == s[i]
    ensures col == -1 ==> i >= |s| || s[i] !in Files
  {
    if i < |s| && 'a' <= s[i] <= 'h' then s[i] as int - 'a' as int else -1
  }

  /** 8 - parseInt(s[i]): parseInt of a single character is its digit value,
      and NaN for anything else or a missing character. */
  function RankRow(s: string, i: nat): (row: JsNumber)
    ensures row.Num? <==> i < |s| && IsDigit(s[i])
    ensures row.Num? ==> row.n == 8 - (s[i] as int - '0' as int)
  {
    if i < |s| && IsDigit(s[i]) then Num(8 - (s[i] as int - '0' as int)) else NaN
  }

  /** parseMove: the four characters of a UCI move such as "e2e4"; anything
      after them (a promotion letter) is ignored. */
  function ParseMove(moveString: string): ParsedMove
  {
    ParsedMove(
      ParsedSquare(RankRow(moveString, 1), FileIndex(moveString, 0)),
      ParsedSquare(RankRow(moveString, 3), FileIndex(moveString, 2)))
  }

  /** The UCI name of a move between two squares of the board. */
  function UciMove(from: Pos, to: Pos): (m: string)
    requires Inside(from) && Inside(to)
    ensures |m| == 4
  {
    [Files[from.col], Digit(8 - from.row), Files[to.col], Digit(8 - to.row)]
  }

  predicate IsOnBoard(p: ParsedSquare)
  {
    p.row.Num? && 0 <= p.row.n < 8 && 0 <= p.col < 8
  }

  function ToPos(p: ParsedSquare): Pos
    requires p.row.Num?
  {
    Pos(p.row.n, p.col)
  }

  /** parseMove reads back the squares of any UCI move, whatever follows
      the four characters. */
  lemma ParseUciMove(from: Pos, to: Pos, suffix: string)
    requires Inside(from) && Inside(to)
    ensures var m := ParseMove(UciMove(from, to) + suffix);
      IsOnBoard(m.from) && IsOnBoard(m.to) && ToPos(m.from) == from && ToPos(m.to) == to
  {
    var s := UciMove(from, to) + suffix;
    assert s[0] == Files[from.col] && s[1] == Digit(8 - from.row);
    assert s[2] == Files[to.col] && s[3] == Digit(8 - to.row);
  }

  /** parseMove yields two squares of the board exactly when the string
      starts with a UCI move, and then it starts with that move's name. */
  lemma ParseMoveOnBoard(s: string)
    ensures var m := ParseMove(s);
      IsOnBoard(m.from) && IsOnBoard(m.to) <==>
        |s| >= 4 && 'a' <= s[0] <= 'h' && '1' <= s[1] <= '8' && 'a' <= s[2] <= 'h' && '1' <= s[3] <= '8'
    ensures var m := ParseMove(s);
      IsOnBoard(m.from) && IsOnBoard(m.to) ==> UciMove(ToPos(m.from), ToPos(m.to)) == s[..4]
  {
    var m := ParseMove(s);
    if IsOnBoard(m.from) && IsOnBoard(m.to) {
      var u := UciMove(ToPos(m.from), ToPos(m.to));
      assert u[0] == s[0] && u[1] == s[1] && u[2] == s[2] && u[3] == s[3];
    }
  }
}
