/**
  Squares, pieces and boards: the values every other module is written in.

  A board is the 64 cells of the game keyed by square name ("a1" .. "h8").
  It is kept here as a sequence in the board's iteration order
  a1, a2, ..., a8, b1, ..., h8 (the order in which the starting board
  inserts its keys), so that scans which stop at the first or last match
  see the squares in the same order as the original map does.
*/
module Squares {
  import opened Wrappers

  datatype Color = White | Black

  /** The other side. */
  function Opponent(c: Color): (r: Color)
    ensures r != c
  {
    if c == White then Black else White
  }

  datatype Kind = King | Queen | Rook | Bishop | Knight | Pawn

  datatype Piece = Piece(kind: Kind, color: Color)

  /** A file/rank pair that may lie off the board; files 0..7 stand for a..h. */
  datatype Coord = Coord(file: int, rank: int)

  predicate OnBoard(c: Coord) {
    0 <= c.file < 8 && 1 <= c.rank <= 8
  }

  type Square = c: Coord | OnBoard(c) witness Coord(0, 1)

  function Shift(c: Coord, df: int, dr: int): Coord {
    Coord(c.file + df, c.rank + dr)
  }

  /** Position of a square in the board's iteration order. */
  function Index(sq: Square): (i: nat)
    ensures i < 64
  {
    sq.file * 8 + sq.rank - 1
  }

  function SquareAt(i: nat): (sq: Square)
    requires i < 64
    ensures Index(sq) == i
  {
    Coord(i / 8, i % 8 + 1)
  }

  /** Index and SquareAt are inverse bijections between the 64 squares and 0..63. */
  lemma IndexRoundTrips()
    ensures forall sq: Square {:trigger Index(sq)} :: SquareAt(Index(sq)) == sq
    ensures forall x: Square, y: Square {:trigger Index(x), Index(y)} :: Index(x) == Index(y) ==> x == y
  {
  }

  lemma SameIndexSameSquare(sq: Square)
    ensures forall s: Square :: Index(s) == Index(sq) ==> s == sq
  {
  }

  /** The square after `sq` in board order, if any. */
  function NextSquare(sq: Square): (r: Option<Square>)
    ensures r.Some? ==> Index(r.value) == Index(sq) + 1
    ensures r.None? ==> Index(sq) == 63
  {
    if sq.rank < 8 then Some(Coord(sq.file, sq.rank + 1))
    else if sq.file < 7 then Some(Coord(sq.file + 1, 1))
    else None
  }

  /** `P` holds of `sq` and of every square after it. */
  function AllFrom(P: Square -> bool, sq: Square): (r: bool)
    decreases 64 - Index(sq)
    ensures r <==> forall s: Square :: Index(s) >= Index(sq) ==> P(s)
  {
    SameIndexSameSquare(sq);
    P(sq) && match NextSquare(sq) { case None => true case Some(n) => AllFrom(P, n) }
  }

  /** Kotlin's `board.all { ... }` over the 64 cells. */
  function AllSquares(P: Square -> bool): (r: bool)
    ensures r <==> forall sq: Square :: P(sq)
  {
    AllFrom(P, Coord(0, 1))
  }

  /** `P` holds of `sq` or of some square after it. */
  function AnyFrom(P: Square -> bool, sq: Square): (r: bool)
    decreases 64 - Index(sq)
    ensures r <==> exists s: Square :: Index(s) >= Index(sq) && P(s)
  {
    SameIndexSameSquare(sq);
    P(sq) || match NextSquare(sq) { case None => false case Some(n) => AnyFrom(P, n) }
  }

  /** Kotlin's `board.any { ... }` over the 64 cells. */
  function AnySquare(P: Square -> bool): (r: bool)
    ensures r <==> exists sq: Square :: P(sq)
  {
    AnyFrom(P, Coord(0, 1))
  }

  /** The contents of the 64 cells; `None` is an empty cell. */
  type Board = b: seq<Option<Piece>> | |b| == 64 witness seq(64, _ => None)

  function At(b: Board, sq: Square): Option<Piece> {
    b[Index(sq)]
  }

  predicate IsEmpty(b: Board, sq: Square) {
    At(b, sq).None?
  }

  /** The colour of the piece on a cell, or None for an empty cell (Kotlin's `piece?.color`). */
  function ColorAt(b: Board, sq: Square): (r: Option<Color>)
    ensures r.None? <==> IsEmpty(b, sq)
    ensures r.Some? ==> r.value == At(b, sq).value.color
  {
    match At(b, sq)
    case None => None
    case Some(p) => Some(p.color)
  }

  /** The text shown on a cell that holds `p`. */
  function Glyph(p: Piece): string {
    match p
    case Piece(King, White) => "♚"
    case Piece(Queen, White) => "♛"
    case Piece(Rook, White) => "♜"
    case Piece(Bishop, White) => "♝"
    case Piece(Knight, White) => "♞"
    case Piece(Pawn, White) => "♟"
    case Piece(King, Black) => "♔"
    case Piece(Queen, Black) => "♕"
    case Piece(Rook, Black) => "♖"
    case Piece(Bishop, Black) => "♗"
    case Piece(Knight, Black) => "♘"
    case Piece(Pawn, Black) => "♙"
  }

  /** Reads a glyph back; the piece check in `isInCheck` dispatches on this text. */
  function PieceOfGlyph(g: string): (r: Option<Piece>)
    ensures r.Some? ==> Glyph(r.value) == g
  {
    if g == "♚" then Some(Piece(King, White))
    else if g == "♛" then Some(Piece(Queen, White))
    else if g == "♜" then Some(Piece(Rook, White))
    else if g == "♝" then Some(Piece(Bishop, White))
    else if g == "♞" then Some(Piece(Knight, White))
    else if g == "♟" then Some(Piece(Pawn, White))
    else if g == "♔" then Some(Piece(King, Black))
    else if g == "♕" then Some(Piece(Queen, Black))
    else if g == "♖" then Some(Piece(Rook, Black))
    else if g == "♗" then Some(Piece(Bishop, Black))
    else if g == "♘" then Some(Piece(Knight, Black))
    else if g == "♙" then Some(Piece(Pawn, Black))
    else None
  }

  /** Every glyph reads back as the piece it was drawn for, so distinct pieces have distinct glyphs. */
  lemma GlyphRoundTrip(p: Piece)
    ensures PieceOfGlyph(Glyph(p)) == Some(p)
  {
  }

  lemma GlyphInjective(p: Piece, q: Piece)
    ensures Glyph(p) == Glyph(q) <==> p == q
  {
    GlyphRoundTrip(p);
    GlyphRoundTrip(q);
  }

  /** The two-character key of a square, such as "e4". */
  function Name(sq: Square): (s: string)
    ensures |s| == 2
  {
    [('a' as int + sq.file) as char, ('0' as int + sq.rank) as char]
  }

  /** The square a key names, as the move generators read it (`cell[0]`, `cell[1].toString().toInt()`). */
  function ParseSquare(s: string): (r: Option<Square>)
  {
    if |s| == 2 && 'a' <= s[0] <= 'h' && '1' <= s[1] <= '8'
    then Some(Coord(s[0] as int - 'a' as int, s[1] as int - '0' as int))
    else None
  }

  lemma {:induction false} NameRoundTrip(sq: Square)
    ensures ParseSquare(Name(sq)) == Some(sq)
  {
    var s := Name(sq);
    assert s[0] as int - 'a' as int == sq.file;
    assert s[1] as int - '0' as int == sq.rank;
  }

  lemma {:induction false} ParseRoundTrip(s: string)
    ensures ParseSquare(s).Some? ==> Name(ParseSquare(s).value) == s
  {
    if ParseSquare(s).Some? {
      var n := Name(ParseSquare(s).value);
      assert n[0] == s[0] && n[1] == s[1];
    }
  }

  /** Decimal text of a natural number. */
  function Digits(n: nat): (s: string)
    ensures |s| >= 1
    ensures n >= 10 ==> |s| >= 2
  {
    if n < 10 then [('0' as int + n) as char] else Digits(n / 10) + Digits(n % 10)
  }

  /** Kotlin's string form of an integer, with a leading '-' when negative. */
  function IntText(i: int): string {
    if i < 0 then "-" + Digits(-i) else Digits(i)
  }

  /**
    The key the move generators build for a possibly off-board coordinate:
    the file letter shifted by the file offset, followed by the rank as a number.
  */
  function CoordName(c: Coord): string
    requires 0 <= 'a' as int + c.file < 0xD800
  {
    [('a' as int + c.file) as char] + IntText(c.rank)
  }

  /** A string is a key of the board exactly when it names one of the 64 squares. */
  ghost predicate IsBoardKey(s: string) {
    exists sq: Square :: Name(sq) == s
  }

  /**
    The generators test `nextCell in board` on the key they built; that test
    holds exactly when the coordinate lies on the board, which is why the
    rest of the model checks bounds instead of building strings.
  */
  lemma {:induction false} KeyTestIsBoundsCheck(c: Coord)
    requires 0 <= 'a' as int + c.file < 0xD800
    ensures IsBoardKey(CoordName(c)) <==> OnBoard(c)
  {
    var s := CoordName(c);
    if OnBoard(c) {
      assert IntText(c.rank) == [('0' as int + c.rank) as char];
      assert Name(c) == s;
    }
    if IsBoardKey(s) {
      var sq: Square :| Name(sq) == s;
      assert s[0] == Name(sq)[0];
      assert c.file == sq.file;
      if c.rank < 0 || c.rank >= 10 {
        assert false;
      } else {
        assert IntText(c.rank) == [('0' as int + c.rank) as char];
        assert s[1] == Name(sq)[1];
        assert c.rank == sq.rank;
      }
    }
  }
}
