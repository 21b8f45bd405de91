/** Shared vocabulary of both rule sets: the two colours and six piece kinds
    (chess.py lines 10-20, chessLogic.js lines 1-13), and an Option type for
    the grid's empty cells. */
module Pieces {

  datatype Option<+T> = None | Some(value: T)

  datatype Color = White | Black

  datatype PieceType = Pawn | Rook | Knight | Bishop | Queen | King

  /** The side that moves after `c`. */
  function Opponent(c: Color): (o: Color)
    ensures o != c
  {
    if c == White then Black else White
  }

  /** The enum value each piece kind carries: its lower-case FEN letter. */
  function KindLetter(k: PieceType): (ch: char)
    ensures 'a' <= ch <= 'z'
  {
    match k
    case Pawn => 'p'
    case Rook => 'r'
    case Knight => 'n'
    case Bishop => 'b'
    case Queen => 'q'
    case King => 'k'
  }

  /** Inverse of KindLetter on the six letters it produces. */
  function KindOfLetter(ch: char): (k: Option<PieceType>)
    ensures k.Some? ==> KindLetter(k.value) == ch
  {
    if ch == 'p' then Some(Pawn)
    else if ch == 'r' then Some(Rook)
    else if ch == 'n' then Some(Knight)
    else if ch == 'b' then Some(Bishop)
    else if ch == 'q' then Some(Queen)
    else if ch == 'k' then Some(King)
    else None
  }

  lemma KindLetterRoundTrip(k: PieceType)
    ensures KindOfLetter(KindLetter(k)) == Some(k)
  {
  }

  /** abs() in Python, Math.abs in JavaScript. */
  function Abs(x: int): nat
  {
    if x < 0 then -x else x
  }

  /** The order of the back rank, files a to h. */
  const BackRank: seq<PieceType> := [Rook, Knight, Bishop, Queen, King, Bishop, Knight, Rook]
}
