/** The one piece of chess.py's ChessGUI in this model: get_fen_position,
    the position handed to Stockfish. The window, the buttons, the
    evaluation bar and the self-play thread are not modelled. */
module ChessGui {
  import opened Pieces
  import opened ChessRules
  import ChessEngine
  import ChessLogic
  import Fen
  import RuleAgreement

  /** ''.join(parts) */
  function Join(parts: seq<string>): string
  {
    if parts == [] then "" else Join(parts[..|parts| - 1]) + parts[|parts| - 1]
  }

  lemma JoinAppend(parts: seq<string>, x: string)
    ensures Join(parts + [x]) == Join(parts) + x
  {
    assert (parts + [x])[..|parts|] == parts;
  }

  /** The side field get_fen_position appends, spaces around it; nothing
      follows it. */
  function SideField(player: Color): string
  {
    if player == White then " w " else " b "
  }

  /** Flushing the count of empty squares: its digit is appended when
      there is one. */
  method AppendFlush(parts: seq<string>, run: nat) returns (out: seq<string>)
    requires run <= 9
    ensures Join(out) == Join(parts) + Fen.Flush(run)
  {
    out := parts;
    if run > 0 {
      JoinAppend(parts, [Fen.Digit(run)]);
      out := parts + [[Fen.Digit(run)]];
    }
  }

  /** A piece ends the run of empty squares: the run's digit, if any, then
      the piece's letter. */
  method AppendPiece(parts: seq<string>, run: nat, letter: char) returns (out: seq<string>)
    requires run <= 9
    ensures Join(out) == Join(parts) + Fen.Flush(run) + [letter]
  {
    out := AppendFlush(parts, run);
    JoinAppend(out, [letter]);
    out := out + [[letter]];
  }

  /** One pass of get_fen_position's column loop, with the flush after it:
      the parts appended spell the field of row `row`. */
  method AppendRank(g: Grid, row: int, parts: seq<string>) returns (out: seq<string>)
    requires IsGrid(g) && 0 <= row < 8
    ensures Join(out) == Join(parts) + Fen.RankField(RuleAgreement.ViewBoard(g)[row])
  {
    ghost var cells := RuleAgreement.ViewBoard(g)[row];
    out := parts;
    var empty := 0;
    for col := 0 to 8
      invariant empty <= col
      invariant Join(out) + Fen.EncodeCells(cells[col..], empty) == Join(parts) + Fen.RankField(cells)
    {
      var piece := g[row][col];
      ghost var rest := cells[col..];
      assert rest[1..] == cells[col + 1..];
      assert rest[0] == RuleAgreement.View(piece);
      if piece.None? {
        Fen.EncodeEmptyStep(rest, empty);
        empty := empty + 1;
      } else {
        var symbol := KindLetter(piece.value.kind);
        var letter := if piece.value.color == White then Fen.Upper(symbol) else symbol;
        assert letter == Fen.PieceLetter(rest[0].value);
        Fen.EncodePieceStep(rest, empty);
        out := AppendPiece(out, empty, letter);
        empty := 0;
      }
    }
    assert cells[8..] == [];
    out := AppendFlush(out, empty);
  }

  /** get_fen_position: the placement field of the game's board, then the
      side to move. */
  method GetFenPosition(game: ChessEngine.ChessBoard) returns (fen: string)
    requires IsGrid(game.board)
    ensures fen == Fen.Placement(RuleAgreement.ViewBoard(game.board)) + SideField(game.currentPlayer)
  {
    ghost var b := RuleAgreement.ViewBoard(game.board);
    var parts: seq<string> := [];
    for row := 0 to 8
      invariant Join(parts) == Fen.PlacementPrefix(b, row)
    {
      parts := AppendRank(game.board, row, parts);
      if row < 7 {
        JoinAppend(parts, "/");
        parts := parts + ["/"];
      }
    }
    JoinAppend(parts, SideField(game.currentPlayer));
    parts := parts + [SideField(game.currentPlayer)];
    fen := Join(parts);
  }

  /** The position string describes the game's board exactly, and agrees
      with what the browser's boardToFen writes for the same position up to
      the fields after the placement. */
  lemma FenPositionRoundTrip(g: Grid, player: Color, b: ChessLogic.JsBoard)
    requires IsGrid(g)
    ensures Fen.BoardOfFen(Fen.Placement(RuleAgreement.ViewBoard(g)) + SideField(player)) ==
      Some(RuleAgreement.ViewBoard(g))
    ensures RuleAgreement.Corresponds(b, g) ==> Fen.Placement(b) == Fen.Placement(RuleAgreement.ViewBoard(g))
  {
    var v := RuleAgreement.ViewBoard(g);
    var tail := if player == White then "w " else "b ";
    assert Fen.Placement(v) + SideField(player) == Fen.Placement(v) + " " + tail;
    Fen.PlacementRoundTrip(v, tail);
    if RuleAgreement.Corresponds(b, g) {
      RuleAgreement.CorrespondsIsView(b, g);
    }
  }
}
