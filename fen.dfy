/** The piece-placement field of Forsyth-Edwards Notation as both programs
    write it (boardToFen in stockfishService.js, get_fen_position in
    chess.py): for each row from 0 (rank 8) to 7, the pieces' letters
    (upper case for White) with every run of empty squares written as its
    length, the rows separated by '/'. Also a decoder, and the facts that
    make the field well formed and lossless. */
module Fen {
  import opened Pieces
  import opened ChessLogic

  predicate IsDigit(ch: char)
  {
    '0' <= ch <= '9'
  }

  function Digit(n: int): (ch: char)
    requires 0 <= n <= 9
    ensures IsDigit(ch) && ch as int - '0' as int == n
  {
    ('0' as int + n) as char
  }

  /** toUpperCase on the lower-case ASCII letters. */
  function Upper(ch: char): char
  {
    if 'a' <= ch <= 'z' then (ch as int - 32) as char else ch
  }

  /** The letter of a piece: its type letter, upper-cased for White. */
  function PieceLetter(p: JsPiece): (ch: char)
    ensures p.color == White ==> 'A' <= ch <= 'Z' && (ch as int + 32) as char == KindLetter(p.kind)
    ensures p.color == Black ==> ch == KindLetter(p.kind)
  {
    if p.color == White then Upper(KindLetter(p.kind)) else KindLetter(p.kind)
  }

  /** The piece a letter stands for, if any. */
  function PieceOfLetter(ch: char): Option<JsPiece>
  {
    if 'A' <= ch <= 'Z' then
      var k := KindOfLetter((ch as int + 32) as char);
      if k.Some? then Some(JsPiece(k.value, White)) else None
    else
      var k := KindOfLetter(ch);
      if k.Some? then Some(JsPiece(k.value, Black)) else None
  }

  lemma PieceLetterRoundTrip(p: JsPiece)
    ensures PieceOfLetter(PieceLetter(p)) == Some(p)
  {
    KindLetterRoundTrip(p.kind);
  }

  /** The pending count of empty squares, written out if there is one. */
  function Flush(run: nat): string
    requires run <= 9
  {
    if run > 0 then [Digit(run)] else []
  }

  /** The text for the rest of a row, `run` empty squares being pending. */
  function EncodeCells(cells: seq<JsCell>, run: nat): string
    requires run + |cells| <= 9
  {
    if cells == [] then Flush(run)
    else if cells[0].Some? then Flush(run) + [PieceLetter(cells[0].value)] + EncodeCells(cells[1..], 0)
    else EncodeCells(cells[1..], run + 1)
  }

  /** The field of one row. */
  function RankField(row: seq<JsCell>): string
    requires |row| <= 9
  {
    EncodeCells(row, 0)
  }

  /** The text written for the first n rows, each but the last followed by
      '/'. */
  function PlacementPrefix(b: JsBoard, n: int): string
    requires IsBoard(b) && 0 <= n <= 8
  {
    if n == 0 then ""
    else PlacementPrefix(b, n - 1) + RankField(b[n - 1]) + (if n - 1 < 7 then "/" else "")
  }

  function Placement(b: JsBoard): string
    requires IsBoard(b)
  {
    PlacementPrefix(b, 8)
  }

  /** A piece ends the pending run: the run's digit, then its letter. */
  lemma EncodePieceStep(cells: seq<JsCell>, run: nat)
    requires run + |cells| <= 9 && cells != [] && cells[0].Some?
    ensures EncodeCells(cells, run) == Flush(run) + [PieceLetter(cells[0].value)] + EncodeCells(cells[1..], 0)
  {
  }

  /** An empty square lengthens the pending run. */
  lemma EncodeEmptyStep(cells: seq<JsCell>, run: nat)
    requires run + |cells| <= 9 && cells != [] && cells[0].None?
    ensures EncodeCells(cells, run) == EncodeCells(cells[1..], run + 1)
  {
  }

  // ---------------------------------------------------------------------
  // Decoding
  // ---------------------------------------------------------------------

  /** n empty squares. */
  function Empties(n: nat): (r: seq<JsCell>)
    ensures |r| == n && forall i :: 0 <= i < n ==> r[i] == None
  {
    seq(n, _ => None)
  }

  /** A digit d stands for d empty squares, a letter for its piece; any
      other character makes the field invalid. */
  function DecodeRank(s: string): Option<seq<JsCell>>
  {
    if s == [] then Some([])
    else
      var rest := DecodeRank(s[1..]);
      if rest.None? then None
      else if IsDigit(s[0]) then Some(Empties(s[0] as int - '0' as int) + rest.value)
      else
        var p := PieceOfLetter(s[0]);
        if p.Some? then Some([Some(p.value)] + rest.value) else None
  }

  /** The '/'-separated parts of a string (at least one). */
  function Split(s: string): (parts: seq<string>)
    ensures |parts| >= 1
  {
    if s == [] then [""]
    else
      var rest := Split(s[1..]);
      if s[0] == '/' then [""] + rest else [[s[0]] + rest[0]] + rest[1..]
  }

  /** The text before the first space. */
  function BeforeSpace(s: string): string
  {
    if s == [] || s[0] == ' ' then "" else [s[0]] + BeforeSpace(s[1..])
  }

  function DecodeRows(fields: seq<string>): Option<seq<seq<JsCell>>>
  {
    if fields == [] then Some([])
    else
      var row := DecodeRank(fields[0]);
      var rest := DecodeRows(fields[1..]);
      if row.None? || rest.None? || |row.value| != 8 then None else Some([row.value] + rest.value)
  }

  /** The board a FEN string describes: its first field split into eight
      rows of eight squares each. */
  function BoardOfFen(fen: string): Option<JsBoard>
  {
    var fields := Split(BeforeSpace(fen));
    if |fields| != 8 then None else DecodeRows(fields)
  }

  // ---------------------------------------------------------------------
  // Facts about the encoding
  // ---------------------------------------------------------------------

  predicate NoSeparators(s: string)
  {
    forall i :: 0 <= i < |s| ==> s[i] != '/' && s[i] != ' '
  }

  lemma {:induction false} EncodeCellsNoSeparators(cells: seq<JsCell>, run: nat)
    requires run + |cells| <= 9
    ensures NoSeparators(EncodeCells(cells, run))
    decreases |cells|
  {
    if cells != [] {
      if cells[0].Some? {
        EncodeCellsNoSeparators(cells[1..], 0);
      } else {
        EncodeCellsNoSeparators(cells[1..], run + 1);
      }
    }
  }

  /** A leading digit d decodes to d empty squares before the rest. */
  lemma DecodeDigitPrefix(run: nat, t: string)
    requires 0 < run <= 9 && DecodeRank(t).Some?
    ensures DecodeRank([Digit(run)] + t) == Some(Empties(run) + DecodeRank(t).value)
  {
    assert ([Digit(run)] + t)[1..] == t;
  }

  /** A leading piece letter decodes to that piece before the rest. */
  lemma DecodeLetterPrefix(p: JsPiece, t: string)
    requires DecodeRank(t).Some?
    ensures DecodeRank([PieceLetter(p)] + t) == Some([Some(p)] + DecodeRank(t).value)
  {
    PieceLetterRoundTrip(p);
    assert ([PieceLetter(p)] + t)[1..] == t;
  }

  /** Decoding the text of a row, with `run` empty squares pending, gives
      back those empty squares followed by the row. */
  lemma {:induction false} DecodeEncodeCells(cells: seq<JsCell>, run: nat)
    requires run + |cells| <= 9
    ensures DecodeRank(EncodeCells(cells, run)) == Some(Empties(run) + cells)
    decreases |cells|
  {
    if cells == [] {
      DecodeEndOfRow(cells, run);
    } else if cells[0].Some? {
      DecodeEncodeCells(cells[1..], 0);
      DecodePieceThenCells(cells, run);
    } else {
      DecodeEncodeCells(cells[1..], run + 1);
      DecodeEmptyThenCells(cells, run);
    }
  }

  /** The pending run's digit, if any, before a text decodes to that many
      empty squares before what the text decodes to. */
  lemma DecodeFlushThen(run: nat, text: string, decoded: seq<JsCell>)
    requires run <= 9 && DecodeRank(text) == Some(decoded)
    ensures DecodeRank(Flush(run) + text) == Some(Empties(run) + decoded)
  {
    if run > 0 {
      assert Flush(run) + text == [Digit(run)] + text;
      DecodeDigitPrefix(run, text);
    } else {
      assert Flush(run) + text == text;
      assert Empties(run) + decoded == decoded;
    }
  }

  /** At the end of a row only the pending run is written. */
  lemma DecodeEndOfRow(cells: seq<JsCell>, run: nat)
    requires run <= 9 && cells == []
    ensures DecodeRank(EncodeCells(cells, run)) == Some(Empties(run) + cells)
  {
    assert EncodeCells(cells, run) == Flush(run) + [];
    DecodeFlushThen(run, [], []);
  }

  /** An empty square joins the pending run. */
  lemma DecodeEmptyThenCells(cells: seq<JsCell>, run: nat)
    requires run + |cells| <= 9 && cells != [] && cells[0].None?
    requires DecodeRank(EncodeCells(cells[1..], run + 1)) == Some(Empties(run + 1) + cells[1..])
    ensures DecodeRank(EncodeCells(cells, run)) == Some(Empties(run) + cells)
  {
    assert Empties(run + 1) + cells[1..] == Empties(run) + cells;
  }

  /** A piece after `run` empty squares ends the run: the row decodes to
      the run, the piece and the rest. */
  lemma DecodePieceThenCells(cells: seq<JsCell>, run: nat)
    requires run + |cells| <= 9 && cells != [] && cells[0].Some?
    requires DecodeRank(EncodeCells(cells[1..], 0)) == Some(Empties(0) + cells[1..])
    ensures DecodeRank(EncodeCells(cells, run)) == Some(Empties(run) + cells)
  {
    var rest := cells[1..];
    assert Empties(0) + rest == rest;
    assert cells == [Some(cells[0].value)] + rest;
    DecodePieceThenRest(cells[0].value, rest, run);
  }

  /** The flushed digit, the piece's letter and the text of the rest decode
      to the pending empty squares, the piece and the rest. */
  lemma DecodePieceThenRest(p: JsPiece, rest: seq<JsCell>, run: nat)
    requires run + 1 + |rest| <= 9
    requires DecodeRank(EncodeCells(rest, 0)) == Some(rest)
    ensures DecodeRank(EncodeCells([Some(p)] + rest, run)) == Some(Empties(run) + ([Some(p)] + rest))
  {
    var tail := EncodeCells(rest, 0);
    var text := [PieceLetter(p)] + tail;
    DecodeLetterPrefix(p, tail);
    assert ([Some(p)] + rest)[1..] == rest;
    assert EncodeCells([Some(p)] + rest, run) == Flush(run) + text;
    DecodeFlushThen(run, text, [Some(p)] + rest);
  }

  /** Every row field decodes to its row. */
  lemma RankFieldRoundTrip(row: seq<JsCell>)
    requires |row| <= 9
    ensures DecodeRank(RankField(row)) == Some(row)
  {
    DecodeEncodeCells(row, 0);
    assert Empties(0) + row == row;
  }

  predicate NoAdjacentDigits(s: string)
  {
    forall i :: 0 <= i < |s| - 1 ==> !(IsDigit(s[i]) && IsDigit(s[i + 1]))
  }

  /** A run of empty squares is written as one digit: no two digits are
      ever adjacent. When a run is pending the text does not start with a
      digit unless that digit is the run itself. */
  lemma {:induction false} EncodeCellsDigitsApart(cells: seq<JsCell>, run: nat)
    requires run + |cells| <= 9
    ensures NoAdjacentDigits(EncodeCells(cells, run))
    ensures run > 0 && |EncodeCells(cells, run)| > 1 ==> !IsDigit(EncodeCells(cells, run)[1])
    ensures run == 0 && |EncodeCells(cells, run)| > 0 && IsDigit(EncodeCells(cells, run)[0]) ==>
      |EncodeCells(cells, run)| == 1 || !IsDigit(EncodeCells(cells, run)[1])
    decreases |cells|
  {
    if cells != [] {
      if cells[0].Some? {
        EncodeCellsDigitsApart(cells[1..], 0);
        var tail := EncodeCells(cells[1..], 0);
        var s := Flush(run) + [PieceLetter(cells[0].value)] + tail;
        forall i | 0 <= i < |s| - 1
          ensures !(IsDigit(s[i]) && IsDigit(s[i + 1]))
        {
          if i >= |Flush(run)| + 1 {
            assert s[i] == tail[i - |Flush(run)| - 1] && s[i + 1] == tail[i - |Flush(run)|];
          }
        }
      } else {
        EncodeCellsDigitsApart(cells[1..], run + 1);
      }
    }
  }

  /** The width a field describes: digits count their value, letters one. */
  function Width(s: string): int
  {
    if s == [] then 0 else (if IsDigit(s[0]) then s[0] as int - '0' as int else 1) + Width(s[1..])
  }

  lemma {:induction false} WidthConcat(a: string, b: string)
    ensures Width(a + b) == Width(a) + Width(b)
  {
    if a == [] {
      assert a + b == b;
    } else {
      WidthConcat(a[1..], b);
      assert (a + b)[1..] == a[1..] + b;
      assert (a + b)[0] == a[0];
    }
  }

  /** The digits and letters of a row's text add up to the row's length. */
  lemma {:induction false} EncodeCellsWidth(cells: seq<JsCell>, run: nat)
    requires run + |cells| <= 9
    ensures Width(EncodeCells(cells, run)) == run + |cells|
    decreases |cells|
  {
    if cells == [] {
      if run > 0 {
        assert Flush(run)[1..] == [];
      }
    } else if cells[0].Some? {
      EncodeCellsWidth(cells[1..], 0);
      var letter := [PieceLetter(cells[0].value)];
      WidthConcat(Flush(run), letter);
      WidthConcat(Flush(run) + letter, EncodeCells(cells[1..], 0));
      if run > 0 {
        assert Flush(run)[1..] == [];
      }
      assert letter[1..] == [];
    } else {
      EncodeCellsWidth(cells[1..], run + 1);
    }
  }

  /** The fields of one row: eight squares wide, digits never adjacent. */
  lemma RankFieldShape(row: seq<JsCell>)
    requires |row| == 8
    ensures Width(RankField(row)) == 8
    ensures NoAdjacentDigits(RankField(row))
    ensures NoSeparators(RankField(row))
  {
    EncodeCellsWidth(row, 0);
    EncodeCellsDigitsApart(row, 0);
    EncodeCellsNoSeparators(row, 0);
  }

  lemma {:induction false} SplitNoSeparator(a: string)
    requires NoSeparators(a)
    ensures Split(a) == [a]
  {
    if a != [] {
      SplitNoSeparator(a[1..]);
      assert [a[0]] + a[1..] == a;
    }
  }

  lemma {:induction false} SplitAtSeparator(a: string, rest: string)
    requires NoSeparators(a)
    ensures Split(a + "/" + rest) == [a] + Split(rest)
  {
    if a == [] {
      assert a + "/" + rest == "/" + rest;
      assert ("/" + rest)[1..] == rest;
    } else {
      SplitAtSeparator(a[1..], rest);
      assert (a + "/" + rest)[1..] == a[1..] + "/" + rest;
      assert [a[0]] + a[1..] == a;
    }
  }

  /** The rows from n on, as the text that follows the first n rows. */
  function PlacementSuffix(b: JsBoard, n: int): string
    requires IsBoard(b) && 0 <= n <= 8
    decreases 8 - n
  {
    if n == 8 then ""
    else RankField(b[n]) + (if n < 7 then "/" else "") + PlacementSuffix(b, n + 1)
  }

  lemma {:induction false} PrefixSuffix(b: JsBoard, n: int)
    requires IsBoard(b) && 0 <= n <= 8
    ensures PlacementPrefix(b, n) + PlacementSuffix(b, n) == Placement(b)
    decreases 8 - n
  {
    if n < 8 {
      PrefixSuffix(b, n + 1);
    }
  }

  /** The fields of rows n.., in order. */
  function Fields(b: JsBoard, n: int): (r: seq<string>)
    requires IsBoard(b) && 0 <= n <= 8
    ensures |r| == 8 - n && forall i :: 0 <= i < 8 - n ==> r[i] == RankField(b[n + i])
  {
    seq(8 - n, i requires 0 <= i < 8 - n => RankField(b[n + i]))
  }

  lemma FieldsStep(b: JsBoard, n: int)
    requires IsBoard(b) && 0 <= n < 8
    ensures Fields(b, n) == [RankField(b[n])] + Fields(b, n + 1)
  {
    var r := [RankField(b[n])] + Fields(b, n + 1);
    forall i | 0 <= i < 8 - n
      ensures Fields(b, n)[i] == r[i]
    {
      if i > 0 {
        assert r[i] == Fields(b, n + 1)[i - 1];
      }
    }
  }

  /** Splitting the text of rows n.. at '/' gives their fields, in order. */
  lemma {:induction false} SplitSuffix(b: JsBoard, n: int)
    requires IsBoard(b) && 0 <= n < 8
    ensures Split(PlacementSuffix(b, n)) == Fields(b, n)
    decreases 8 - n
  {
    EncodeCellsNoSeparators(b[n], 0);
    FieldsStep(b, n);
    if n == 7 {
      assert PlacementSuffix(b, 7) == RankField(b[7]);
      SplitNoSeparator(RankField(b[7]));
      assert Fields(b, 8) == [];
    } else {
      var field := RankField(b[n]);
      var rest := PlacementSuffix(b, n + 1);
      assert PlacementSuffix(b, n) == field + "/" + rest;
      SplitSuffix(b, n + 1);
      SplitAtSeparator(field, rest);
    }
  }

  lemma {:induction false} DecodeRowsOfFields(b: JsBoard, n: int)
    requires IsBoard(b) && 0 <= n <= 8
    ensures DecodeRows(Fields(b, n)) == Some(b[n..])
    decreases 8 - n
  {
    if n < 8 {
      DecodeRowsOfFields(b, n + 1);
      RankFieldRoundTrip(b[n]);
      FieldsStep(b, n);
      assert Fields(b, n)[1..] == Fields(b, n + 1);
      assert b[n..] == [b[n]] + b[n + 1..];
    }
  }

  predicate NoSpace(s: string)
  {
    forall i :: 0 <= i < |s| ==> s[i] != ' '
  }

  lemma {:induction false} BeforeSpaceOfPlacement(p: string, rest: string)
    requires NoSpace(p)
    ensures BeforeSpace(p + " " + rest) == p
  {
    if p != [] {
      BeforeSpaceOfPlacement(p[1..], rest);
      assert (p + " " + rest)[1..] == p[1..] + " " + rest;
      assert [p[0]] + p[1..] == p;
    } else {
      assert p + " " + rest == " " + rest;
    }
  }

  lemma {:induction false} PlacementNoSpace(b: JsBoard, n: int)
    requires IsBoard(b) && 0 <= n <= 8
    ensures NoSpace(PlacementPrefix(b, n))
  {
    if n > 0 {
      PlacementNoSpace(b, n - 1);
      EncodeCellsNoSeparators(b[n - 1], 0);
    }
  }

  /** The placement field followed by a space and any further fields
      decodes to the board it was written from: eight '/'-separated fields,
      each describing its row exactly. */
  lemma PlacementRoundTrip(b: JsBoard, rest: string)
    requires IsBoard(b)
    ensures Split(Placement(b)) == Fields(b, 0)
    ensures BoardOfFen(Placement(b) + " " + rest) == Some(b)
  {
    PrefixSuffix(b, 0);
    assert PlacementPrefix(b, 0) + PlacementSuffix(b, 0) == PlacementSuffix(b, 0);
    SplitSuffix(b, 0);
    PlacementNoSpace(b, 8);
    BeforeSpaceOfPlacement(Placement(b), rest);
    DecodeRowsOfFields(b, 0);
    assert b[0..] == b;
  }

  /** The number of occurrences of ch in s. */
  function CountOf(ch: char, s: string): nat
  {
    if s == [] then 0 else (if s[0] == ch then 1 else 0) + CountOf(ch, s[1..])
  }

  lemma {:induction false} CountConcat(ch: char, a: string, b: string)
    ensures CountOf(ch, a + b) == CountOf(ch, a) + CountOf(ch, b)
  {
    if a == [] {
      assert a + b == b;
    } else {
      CountConcat(ch, a[1..], b);
      assert (a + b)[1..] == a[1..] + b;
      assert (a + b)[0] == a[0];
    }
  }

  lemma {:induction false} NoSeparatorsNoSlash(s: string)
    requires NoSeparators(s)
    ensures CountOf('/', s) == 0
  {
    if s != [] {
      NoSeparatorsNoSlash(s[1..]);
    }
  }

  /** The first n rows carry one '/' each, except the last row. */
  lemma {:induction false} PrefixSlashes(b: JsBoard, n: int)
    requires IsBoard(b) && 0 <= n <= 8
    ensures CountOf('/', PlacementPrefix(b, n)) == if n == 8 then 7 else n
  {
    if n > 0 {
      PrefixSlashes(b, n - 1);
      var field := RankField(b[n - 1]);
      EncodeCellsNoSeparators(b[n - 1], 0);
      NoSeparatorsNoSlash(field);
      CountConcat('/', PlacementPrefix(b, n - 1), field);
      CountConcat('/', PlacementPrefix(b, n - 1) + field, if n - 1 < 7 then "/" else "");
      assert CountOf('/', "/") == 1;
    }
  }

  /** The placement field holds exactly seven '/' separators. */
  lemma PlacementSlashes(b: JsBoard)
    requires IsBoard(b)
    ensures CountOf('/', Placement(b)) == 7
  {
    PrefixSlashes(b, 8);
  }
}

