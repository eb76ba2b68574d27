/**
  The starting position of ChessBoard.kt.

  `LayoutAt` describes the standard layout square by square;
  `StandardLayout` is the same board as the sequence of its eight files, in
  the order the board's keys are inserted; `InitializeChessBoard` builds it
  the way the source does, cell by cell.
*/
module ChessBoard {
  import opened Wrappers
  import opened Squares

  /** The piece kinds on ranks 1 and 8, files a..h. */
  function BackRank(file: int): Kind
    requires 0 <= file < 8
  {
    [Rook, Knight, Bishop, Queen, King, Bishop, Knight, Rook][file]
  }

  /** The standard starting layout, square by square. */
  function LayoutAt(sq: Square): Option<Piece> {
    if sq.rank == 1 then Some(Piece(BackRank(sq.file), White))
    else if sq.rank == 2 then Some(Piece(Pawn, White))
    else if sq.rank == 7 then Some(Piece(Pawn, Black))
    else if sq.rank == 8 then Some(Piece(BackRank(sq.file), Black))
    else None
  }

  /** The eight cells of file `f`, ranks 1..8. */
  function FileColumn(f: int): seq<Option<Piece>>
    requires 0 <= f < 8
  {
    [Some(Piece(BackRank(f), White)), Some(Piece(Pawn, White)), None, None,
     None, None, Some(Piece(Pawn, Black)), Some(Piece(BackRank(f), Black))]
  }

  /** The starting board in iteration order: file a, then b, ..., then h. */
  function StandardLayout(): (b: Board)
    ensures forall sq: Square :: At(b, sq) == LayoutAt(sq)
  {
    IndexRoundTrips();
    seq(64, i requires 0 <= i < 64 => LayoutAt(SquareAt(i)))
  }

  /** Rank `j + 1` of file `f` in the column literal is the layout's piece there. */
  lemma ColumnCell(f: int, j: int)
    requires 0 <= f < 8 && 0 <= j < 8
    ensures FileColumn(f)[j] == LayoutAt(Coord(f, j + 1))
  {
  }

  /** The eight cells of file `f` are consecutive in the starting board. */
  lemma FileSlice(f: int)
    requires 0 <= f < 8
    ensures StandardLayout()[8 * f .. 8 * f + 8] == FileColumn(f)
  {
    var b := StandardLayout();
    forall j | 0 <= j < 8
      ensures b[8 * f + j] == FileColumn(f)[j]
    {
      var sq := Coord(f, j + 1);
      assert Index(sq) == 8 * f + j;
      assert b[8 * f + j] == At(b, sq);
      ColumnCell(f, j);
    }
  }

  /**
    The board while it is being set up: the pawn ranks, and the back ranks of
    the files in `files`, hold their starting pieces; every other cell is empty.
  */
  ghost predicate SetUpSoFar(b: Board, files: set<int>) {
    forall sq: Square :: At(b, sq) ==
      (if sq.rank == 2 || sq.rank == 7 || sq.file in files then LayoutAt(sq) else None)
  }

  /** The 64 keys inserted as empty cells, file by file and rank by rank. */
  method EmptyCells() returns (b: Board)
    ensures forall sq: Square :: At(b, sq) == None
  {
    var cells: seq<Option<Piece>> := [];
    for column := 0 to 8
      invariant |cells| == column * 8
      invariant forall i :: 0 <= i < |cells| ==> cells[i] == None
    {
      for row := 1 to 9
        invariant |cells| == column * 8 + row - 1
        invariant forall i :: 0 <= i < |cells| ==> cells[i] == None
      {
        // the key of (column, row) is inserted at position Index(column, row)
        assert |cells| == Index(Coord(column, row));
        cells := cells + [None];
      }
    }
    b := cells;
  }

  /** A white pawn on rank 2 and a black pawn on rank 7 of every file. */
  method PlacePawns(b0: Board) returns (b: Board)
    requires forall sq: Square :: At(b0, sq) == None
    ensures SetUpSoFar(b, {})
  {
    b := b0;
    for column := 0 to 8
      invariant forall sq: Square :: At(b, sq) == (if sq.file < column && (sq.rank == 2 || sq.rank == 7) then LayoutAt(sq) else None)
    {
      b := b[Index(Coord(column, 2)) := Some(Piece(Pawn, White))];
      b := b[Index(Coord(column, 7)) := Some(Piece(Pawn, Black))];
    }
  }

  /** The rooks on a1, h1, a8 and h8. */
  method PlaceRooks(b0: Board, ghost files: set<int>) returns (b: Board)
    requires SetUpSoFar(b0, files)
    ensures SetUpSoFar(b, files + {0, 7})
  {
    b := b0[Index(Coord(0, 1)) := Some(Piece(Rook, White))];
    b := b[Index(Coord(7, 1)) := Some(Piece(Rook, White))];
    b := b[Index(Coord(0, 8)) := Some(Piece(Rook, Black))];
    b := b[Index(Coord(7, 8)) := Some(Piece(Rook, Black))];
  }

  /** The knights on b1, g1, b8 and g8. */
  method PlaceKnights(b0: Board, ghost files: set<int>) returns (b: Board)
    requires SetUpSoFar(b0, files)
    ensures SetUpSoFar(b, files + {1, 6})
  {
    b := b0[Index(Coord(1, 1)) := Some(Piece(Knight, White))];
    b := b[Index(Coord(6, 1)) := Some(Piece(Knight, White))];
    b := b[Index(Coord(1, 8)) := Some(Piece(Knight, Black))];
    b := b[Index(Coord(6, 8)) := Some(Piece(Knight, Black))];
  }

  /** The bishops on c1, f1, c8 and f8. */
  method PlaceBishops(b0: Board, ghost files: set<int>) returns (b: Board)
    requires SetUpSoFar(b0, files)
    ensures SetUpSoFar(b, files + {2, 5})
  {
    b := b0[Index(Coord(2, 1)) := Some(Piece(Bishop, White))];
    b := b[Index(Coord(5, 1)) := Some(Piece(Bishop, White))];
    b := b[Index(Coord(2, 8)) := Some(Piece(Bishop, Black))];
    b := b[Index(Coord(5, 8)) := Some(Piece(Bishop, Black))];
  }

  /** The queens on d1 and d8, then the kings on e1 and e8. */
  method PlaceRoyals(b0: Board, ghost files: set<int>) returns (b: Board)
    requires SetUpSoFar(b0, files)
    ensures SetUpSoFar(b, files + {3, 4})
  {
    b := b0[Index(Coord(3, 1)) := Some(Piece(Queen, White))];
    b := b[Index(Coord(3, 8)) := Some(Piece(Queen, Black))];
    b := b[Index(Coord(4, 1)) := Some(Piece(King, White))];
    b := b[Index(Coord(4, 8)) := Some(Piece(King, Black))];
  }

  /** Once the back ranks of all eight files are placed, the board is the starting layout. */
  lemma SetUpComplete(b: Board, files: set<int>)
    requires SetUpSoFar(b, files)
    requires forall f :: 0 <= f < 8 ==> f in files
    ensures b == StandardLayout()
  {
    var s := StandardLayout();
    forall i | 0 <= i < 64
      ensures b[i] == s[i]
    {
      var sq := SquareAt(i);
      assert At(b, sq) == At(s, sq);
    }
  }

  /**
    initializeChessBoard: insert all 64 keys as empty cells, then place the
    pawns, rooks, knights, bishops, queens and kings, in the source's order.
  */
  method InitializeChessBoard() returns (b: Board)
    ensures forall sq: Square :: At(b, sq) == LayoutAt(sq)
    ensures b == StandardLayout()
  {
    b := EmptyCells();
    b := PlacePawns(b);
    b := PlaceRooks(b, {});
    b := PlaceKnights(b, {0, 7});
    b := PlaceBishops(b, {0, 7, 1, 6});
    b := PlaceRoyals(b, {0, 7, 1, 6, 2, 5});
    SetUpComplete(b, {0, 7, 1, 6, 2, 5, 3, 4});
  }

  /** How many pieces of kind `k` each side starts with. */
  function StartCount(k: Kind): nat {
    match k
    case King => 1
    case Queen => 1
    case Pawn => 8
    case _ => 2
  }

  /** Number of pieces of colour `c` on a board. */
  function PieceCount(b: seq<Option<Piece>>, c: Color): nat {
    var m := multiset(b);
    m[Some(Piece(King, c))] + m[Some(Piece(Queen, c))] + m[Some(Piece(Rook, c))] +
    m[Some(Piece(Bishop, c))] + m[Some(Piece(Knight, c))] + m[Some(Piece(Pawn, c))]
  }

  /** What one file contributes: a pawn of each colour, and its back-rank piece of each colour. */
  lemma ColumnCount(f: int, k: Kind, c: Color)
    requires 0 <= f < 8
    ensures multiset(FileColumn(f))[Some(Piece(k, c))] ==
      (if k == Pawn then 1 else 0) + (if BackRank(f) == k then 1 else 0)
  {
  }

  /** Occurrences in a suffix split at `j`: those before `j` plus those from `j` on. */
  lemma SplitCount<T>(s: seq<T>, i: nat, j: nat, x: T)
    requires i <= j <= |s|
    ensures multiset(s[i..])[x] == multiset(s[i..j])[x] + multiset(s[j..])[x]
  {
    assert s[i..] == s[i..j] + s[j..];
  }

  /** How many of files `f`..h carry kind `k` on their back ranks. */
  function BackRankCountFrom(f: nat, k: Kind): nat
    requires f <= 8
    decreases 8 - f
  {
    if f == 8 then 0 else (if BackRank(f) == k then 1 else 0) + BackRankCountFrom(f + 1, k)
  }

  /** Counting from file `f` onwards: one pawn of each colour per file, plus the back-rank pieces. */
  lemma {:induction false} FilesFromCount(f: nat, k: Kind, c: Color)
    requires f <= 8
    decreases 8 - f
    ensures multiset(StandardLayout()[8 * f ..])[Some(Piece(k, c))] ==
      (if k == Pawn then 8 - f else 0) + BackRankCountFrom(f, k)
  {
    if f < 8 {
      FilesFromCount(f + 1, k, c);
      ColumnCount(f, k, c);
      FileSlice(f);
      SplitCount(StandardLayout(), 8 * f, 8 * f + 8, Some(Piece(k, c)));
    }
  }

  /** The back rank RNBQKBNR holds one king and queen and two each of rooks, bishops and knights. */
  lemma BackRankTally(k: Kind)
    ensures BackRankCountFrom(0, k) == (if k == Pawn then 0 else StartCount(k))
  {
    match k
    case King =>
    case Queen =>
    case Rook =>
    case Bishop =>
    case Knight =>
    case Pawn =>
  }

  /** Each side starts with one king, one queen, two rooks, knights and bishops and eight pawns. */
  lemma StandardLayoutCounts()
    ensures forall k: Kind, c: Color :: multiset(StandardLayout())[Some(Piece(k, c))] == StartCount(k)
  {
    assert StandardLayout()[8 * 0 ..] == StandardLayout();
    forall k: Kind, c: Color
      ensures multiset(StandardLayout())[Some(Piece(k, c))] == StartCount(k)
    {
      FilesFromCount(0, k, c);
      BackRankTally(k);
    }
  }

  /** Sixteen pieces a side, one king each, standing on e1 and e8. */
  lemma StartingArmies(c: Color)
    ensures PieceCount(StandardLayout(), c) == 16
    ensures multiset(StandardLayout())[Some(Piece(King, c))] == 1
    ensures At(StandardLayout(), Coord(4, if c == White then 1 else 8)) == Some(Piece(King, c))
  {
    var m := multiset(StandardLayout());
    assert m[Some(Piece(King, c))] == 1 && m[Some(Piece(Queen, c))] == 1 && m[Some(Piece(Rook, c))] == 2 &&
           m[Some(Piece(Bishop, c))] == 2 && m[Some(Piece(Knight, c))] == 2 && m[Some(Piece(Pawn, c))] == 8 by {
      StandardLayoutCounts();
    }
    if c == White {
      assert LayoutAt(Coord(4, 1)) == Some(Piece(King, White));
    } else {
      assert LayoutAt(Coord(4, 8)) == Some(Piece(King, Black));
    }
  }
}
