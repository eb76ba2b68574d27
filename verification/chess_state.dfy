/**
  The state of a game, ChessState.kt, and the per-cell view of it,
  CellState.kt.

  The source keeps the cell flags (highlighted, danger, moved-from,
  moved-to) inside each cell object; here they are four sets of squares
  beside the board, and a cell's text and `empty` flag are derived from its
  piece.
*/
module ChessState {
  import opened Wrappers
  import opened Squares
  import opened ChessBoard

  /**
    The `kingInCheck` field: `Unset` is the null of a fresh state, `NotFound`
    the empty key a play leaves when it finds no opponent king, and
    `Found(sq)` the square of the opponent king found by the last play.
  */
  datatype KingMark = Unset | NotFound | Found(square: Square)

  /** The squares whose cells carry each of the four display flags. */
  datatype Marks = Marks(highlighted: set<Square>, danger: set<Square>, movedFrom: set<Square>, movedTo: set<Square>)

  /** Every flag of every cell cleared (clearCellStates). */
  const NoMarks := Marks({}, {}, {}, {})

  datatype GameState = GameState(
    archive: seq<string>,
    collectedWhite: seq<string>,
    collectedBlack: seq<string>,
    checkMate: bool,
    isActivated: bool,
    clickedPiece: Option<Square>,
    check: bool,
    kingInCheck: KingMark,
    board: Board,
    marks: Marks,
    turn: Color)

  /** The default `ChessState()`: a new starting board, white to move, nothing recorded. */
  function InitialState(): (s: GameState)
    ensures s.archive == [] && s.collectedWhite == [] && s.collectedBlack == []
    ensures !s.checkMate && !s.check && !s.isActivated
    ensures s.clickedPiece.None? && s.kingInCheck.Unset?
    ensures forall sq: Square :: At(s.board, sq) == LayoutAt(sq)
    ensures s.marks == NoMarks && s.turn == White
  {
    GameState([], [], [], false, false, None, false, Unset, StandardLayout(), NoMarks, White)
  }

  /** One cell as the screen sees it (CellState). */
  datatype CellState = CellState(
    piece: Option<Piece>,
    text: Option<string>,
    empty: bool,
    highlighted: bool,
    danger: bool,
    wasMovedFrom: bool,
    wasMovedTo: bool)

  /** The cell at `sq`: its piece, that piece's glyph, and the flags marked on it. */
  function CellAt(s: GameState, sq: Square): (c: CellState)
    ensures c.empty <==> c.piece.None?
    ensures c.text.None? <==> c.empty
    ensures c.text.Some? ==> PieceOfGlyph(c.text.value) == c.piece
    ensures c.piece == At(s.board, sq)
  {
    var m := s.marks;
    match At(s.board, sq)
    case None =>
      CellState(None, None, true, sq in m.highlighted, sq in m.danger, sq in m.movedFrom, sq in m.movedTo)
    case Some(p) =>
      GlyphRoundTrip(p);
      CellState(Some(p), Some(Glyph(p)), false, sq in m.highlighted, sq in m.danger, sq in m.movedFrom, sq in m.movedTo)
  }

  /**
    The cells of a fresh game: ranks 3 to 6 are empty with no text, and every
    other cell holds its starting piece, is not empty and shows that piece's
    glyph; no flag is set anywhere.
  */
  lemma InitialCells(sq: Square)
    ensures var c := CellAt(InitialState(), sq);
      && (3 <= sq.rank <= 6 <==> c.empty)
      && (c.empty ==> c.piece.None? && c.text.None?)
      && (!c.empty ==> c.piece == LayoutAt(sq) && c.text == Some(Glyph(LayoutAt(sq).value)))
      && !c.highlighted && !c.danger && !c.wasMovedFrom && !c.wasMovedTo
  {
  }
}
