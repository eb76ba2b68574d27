/**
  The event reducer of ChessViewModel.kt, written as a pure function from a
  state and an event (ChessEvent.kt) to the next state.

  Squares in events are already parsed: the key "" the screen sends when no
  piece is selected names no cell, which the reducer treats like an empty
  source cell (the play is refused), so it is represented by any empty
  square.
*/
module ChessViewModel {
  import opened Wrappers
  import opened Squares
  import opened Geometry
  import opened KingSafety
  import opened ChessBoard
  import opened ChessState

  datatype ChessEvent =
    | Play(cellClicked: Square, cellFrom: Square)
    | Activate(cellClicked: Square)
    | Restart

  /** The squares listed in `s`. */
  function Elements(s: seq<Square>): set<Square> {
    set x | x in s
  }

  // ---------------------------------------------------------------------------
  // Activation.
  // ---------------------------------------------------------------------------

  /**
    updateActivationStates on a cleared board: the piece's legal moves are
    highlighted; its legal kills are marked as danger and un-highlighted.
  */
  function ActivationMarks(b: Board, sq: Square): (m: Marks)
    ensures forall x :: x in m.highlighted <==> x in EvaluateNextMove(b, sq)
    ensures forall x :: x in m.danger <==> x in EvaluateNextKill(b, sq)
    ensures m.highlighted !! m.danger
    ensures m.movedFrom == {} && m.movedTo == {}
  {
    forall x | x in EvaluateNextMove(b, sq)
      ensures x !in EvaluateNextKill(b, sq)
    {
      LegalTargets(b, sq, x);
    }
    var kills := Elements(EvaluateNextKill(b, sq));
    Marks(Elements(EvaluateNextMove(b, sq)) - kills, kills, {}, {})
  }

  /**
    handleActivation: selecting a piece of the side to move marks its legal
    destinations and records the selection; any other click only clears the
    marks.
  */
  function HandleActivation(s: GameState, sq: Square): (r: GameState)
    ensures r.board == s.board && r.turn == s.turn && r.archive == s.archive
    ensures r.collectedWhite == s.collectedWhite && r.collectedBlack == s.collectedBlack
    ensures r.check == s.check && r.checkMate == s.checkMate && r.kingInCheck == s.kingInCheck
    ensures ColorAt(s.board, sq) == Some(s.turn) ==>
      && r.isActivated && r.clickedPiece == Some(sq)
      && (forall x :: x in r.marks.highlighted <==> x in EvaluateNextMove(s.board, sq))
      && (forall x :: x in r.marks.danger <==> x in EvaluateNextKill(s.board, sq))
      && r.marks.movedFrom == {} && r.marks.movedTo == {}
    ensures ColorAt(s.board, sq) != Some(s.turn) ==>
      r.isActivated == s.isActivated && r.clickedPiece == s.clickedPiece && r.marks == NoMarks
  {
    if ColorAt(s.board, sq) == Some(s.turn) then
      s.(isActivated := true, clickedPiece := Some(sq), marks := ActivationMarks(s.board, sq))
    else
      s.(marks := NoMarks)
  }

  // ---------------------------------------------------------------------------
  // Play.
  // ---------------------------------------------------------------------------

  /** The play condition of handlePlay: `dst` is a legal move or a legal kill of the piece on `src`. */
  predicate CanPlay(b: Board, dst: Square, src: Square) {
    dst in EvaluateNextMove(b, src) || dst in EvaluateNextKill(b, src)
  }

  /** getNextTurn: the side opposite to the piece on `cell`; white when the cell is empty. */
  function NextTurn(b: Board, cell: Square): (c: Color)
    ensures !IsEmpty(b, cell) ==> c == Opponent(At(b, cell).value.color)
    ensures IsEmpty(b, cell) ==> c == White
  {
    if ColorAt(b, cell) == Some(White) then Black else White
  }

  /** The archive entry of a play, "e2 to e4". */
  function MoveText(src: Square, dst: Square): (t: string)
    ensures |t| == 8
  {
    Name(src) + " to " + Name(dst)
  }

  /** Reads an archive entry back into its two squares. */
  function ParseMoveText(t: string): Option<(Square, Square)> {
    if |t| == 8 && t[2..6] == " to " && ParseSquare(t[..2]).Some? && ParseSquare(t[6..]).Some?
    then Some((ParseSquare(t[..2]).value, ParseSquare(t[6..]).value))
    else None
  }

  /** An archive entry names the play it records. */
  lemma {:induction false} MoveTextRoundTrip(src: Square, dst: Square)
    ensures ParseMoveText(MoveText(src, dst)) == Some((src, dst))
  {
    var t := MoveText(src, dst);
    assert t[..2] == Name(src);
    assert t[2..6] == " to ";
    assert t[6..] == Name(dst);
    NameRoundTrip(src);
    NameRoundTrip(dst);
  }

  /** The captured-pieces list of colour `c`. */
  function Captured(s: GameState, c: Color): seq<string> {
    if c == White then s.collectedWhite else s.collectedBlack
  }

  /** Lines 51-60: the glyph of a captured piece goes to the list of the captured piece's own colour. */
  function Collect(s: GameState, target: Option<Piece>): (r: GameState)
    ensures r.board == s.board
    ensures target.None? ==> Captured(r, White) == Captured(s, White) && Captured(r, Black) == Captured(s, Black)
    ensures target.Some? ==>
      && Captured(r, target.value.color) == Captured(s, target.value.color) + [Glyph(target.value)]
      && Captured(r, Opponent(target.value.color)) == Captured(s, Opponent(target.value.color))
  {
    match target
    case None => s
    case Some(p) =>
      if p.color == White then s.(collectedWhite := s.collectedWhite + [Glyph(p)])
      else s.(collectedBlack := s.collectedBlack + [Glyph(p)])
  }

  /**
    The check fields after a play (lines 67-78): the scan over the post-move
    board keeps the last king of `opp` it meets; for that king, `check` is
    whether it is attacked and `checkMate` whether the side to move next has
    no legal action. Without such a king all three keep their initial values.
  */
  function CheckFields(b: Board, opp: Color, dst: Square): (r: (bool, KingMark, bool))
    ensures r.1 != Unset
    ensures r.1 == NotFound <==> forall sq: Square :: At(b, sq) != Some(Piece(King, opp))
    ensures r.1 == NotFound ==> !r.0 && !r.2
    ensures r.1.Found? ==>
      && At(b, r.1.square) == Some(Piece(King, opp))
      && (forall sq: Square :: Index(sq) > Index(r.1.square) ==> At(b, sq) != Some(Piece(King, opp)))
      && (r.0 <==> exists a: Square :: Attacks(b, a, r.1.square, opp))
      && (r.2 <==> forall sq: Square :: Stuck(b, NextTurn(b, dst), sq))
  {
    match FindLastKing(b, opp)
    case None => (false, NotFound, false)
    case Some(k) => (IsInCheck(b, opp, Some(k)), Found(k), IsCheckMate(b, NextTurn(b, dst)))
  }

  /** The successful branch of handlePlay. */
  function ApplyPlay(s: GameState, dst: Square, src: Square): (r: GameState)
    requires CanPlay(s.board, dst, src)
  {
    LegalActionsKeepKingSafe(s.board, src, dst);
    var mover := At(s.board, src).value.color;
    var opp := Opponent(mover);
    var collected := Collect(s, At(s.board, dst));
    var board := SimulateMove(s.board, src, dst);
    var (check, king, mate) := CheckFields(board, opp, dst);
    collected.(
      archive := s.archive + [MoveText(src, dst)],
      isActivated := false,
      board := board,
      marks := Marks({}, {}, {src}, {dst}),
      check := check,
      kingInCheck := king,
      checkMate := mate,
      turn := NextTurn(board, dst))
  }

  /**
    handlePlay: a legal move or kill of the piece on `src` is played; any
    other request only clears the marks and the selection flag. The side to
    move is not consulted.
  */
  function HandlePlay(s: GameState, dst: Square, src: Square): (r: GameState)
    ensures !CanPlay(s.board, dst, src) ==>
      r.board == s.board && r.turn == s.turn && !r.isActivated && r.marks == NoMarks &&
      r == s.(isActivated := false, marks := NoMarks)
    ensures CanPlay(s.board, dst, src) ==>
      && !IsEmpty(s.board, src) && src != dst
      && At(r.board, dst) == At(s.board, src) && IsEmpty(r.board, src)
      && (forall sq: Square :: sq != src && sq != dst ==> At(r.board, sq) == At(s.board, sq))
      && r.marks == Marks({}, {}, {src}, {dst})
      && r.turn == Opponent(At(s.board, src).value.color)
      && r.archive == s.archive + [MoveText(src, dst)]
      && !r.isActivated && r.clickedPiece == s.clickedPiece
  {
    if CanPlay(s.board, dst, src) then
      LegalTargets(s.board, src, dst);
      ApplyPlay(s, dst, src)
    else
      s.(isActivated := false, marks := NoMarks)
  }

  /** A successful kill appends the captured piece's glyph to the list of its own colour; a quiet move leaves both lists. */
  lemma PlayCollectsCapturedPiece(s: GameState, dst: Square, src: Square)
    requires CanPlay(s.board, dst, src)
    ensures var r := HandlePlay(s, dst, src);
      IsEmpty(s.board, dst) ==>
        Captured(r, White) == Captured(s, White) && Captured(r, Black) == Captured(s, Black)
    ensures var r := HandlePlay(s, dst, src);
      !IsEmpty(s.board, dst) ==>
        var p := At(s.board, dst).value;
        Captured(r, p.color) == Captured(s, p.color) + [Glyph(p)] &&
        Captured(r, Opponent(p.color)) == Captured(s, Opponent(p.color))
  {
  }

  /**
    After a successful play, `kingInCheck` names the opponent king found on
    the new board (the last one in board order), `check` says whether it is
    attacked, and `checkMate` whether the opponent has no legal action left;
    with no opponent king on the board, all three report nothing.
  */
  lemma PlayRecordsOpponentKing(s: GameState, dst: Square, src: Square)
    requires CanPlay(s.board, dst, src)
    ensures !IsEmpty(s.board, src)
    ensures var r := HandlePlay(s, dst, src);
      var opp := Opponent(At(s.board, src).value.color);
      && (FindLastKing(r.board, opp).None? ==> !r.check && r.kingInCheck == NotFound && !r.checkMate)
      && (FindLastKing(r.board, opp).Some? ==>
            var k := FindLastKing(r.board, opp).value;
            && r.kingInCheck == Found(k)
            && At(r.board, k) == Some(Piece(King, opp))
            && (r.check <==> exists a: Square :: Attacks(r.board, a, k, opp))
            && (r.checkMate <==> forall sq: Square :: Stuck(r.board, opp, sq)))
  {
    LegalActionsKeepKingSafe(s.board, src, dst);
    LegalTargets(s.board, src, dst);
  }

  /**
    The side to move after a play is the opponent of the piece that moved.
    Since handlePlay does not compare that piece with `turn`, a play by the
    side not to move succeeds too and leaves `turn` where it was: turns
    alternate only when the side to move plays.
  */
  lemma PlayTurn(s: GameState, dst: Square, src: Square)
    requires CanPlay(s.board, dst, src)
    ensures ColorAt(s.board, src) == Some(s.turn) ==> HandlePlay(s, dst, src).turn == Opponent(s.turn)
    ensures ColorAt(s.board, src) != Some(s.turn) ==> HandlePlay(s, dst, src).turn == s.turn
  {
  }

  /**
    The marks an activation leaves are exactly the plays the reducer accepts
    next: a square is highlighted or in danger after selecting `sq` exactly
    when playing the selected piece there succeeds.
  */
  lemma MarkedSquaresArePlayable(s: GameState, sq: Square, x: Square)
    requires ColorAt(s.board, sq) == Some(s.turn)
    ensures var r := HandleActivation(s, sq);
      x in r.marks.highlighted || x in r.marks.danger <==> CanPlay(r.board, x, sq)
  {
  }

  /** onEvent: Restart returns the default state; the other two events go to their handlers. */
  function OnEvent(s: GameState, e: ChessEvent): (r: GameState)
    ensures e.Restart? ==> r == InitialState()
    ensures e.Activate? ==> r.board == s.board && r.turn == s.turn
    ensures e.Play? ==>
      if CanPlay(s.board, e.cellClicked, e.cellFrom)
      then r.board == SimulateMove(s.board, e.cellFrom, e.cellClicked)
      else r.board == s.board && r.turn == s.turn
  {
    match e
    case Activate(sq) => HandleActivation(s, sq)
    case Play(dst, src) => HandlePlay(s, dst, src)
    case Restart => InitialState()
  }
}
