/**
  What holds of every state the reducer can reach from a fresh game.

  No piece is created or lost: each piece of the starting army is either
  still on the board or, as its glyph, in the captured list of its own
  colour. In particular a board never holds two kings of one colour, so the
  two king scans of the source (the first match and the last match) always
  agree.
*/
module GameInvariants {
  import opened Wrappers
  import opened Squares
  import opened KingSafety
  import opened ChessBoard
  import opened ChessState
  import opened ChessViewModel

  /** Every piece of the starting armies is on the board or in its colour's captured list. */
  ghost predicate PiecesConserved(s: GameState) {
    forall k: Kind, c: Color ::
      multiset(s.board)[Some(Piece(k, c))] + multiset(Captured(s, c))[Glyph(Piece(k, c))] == StartCount(k)
  }

  /** Each captured list holds glyphs of pieces of its own colour only. */
  ghost predicate CapturedOwnColour(s: GameState) {
    forall c: Color, g :: g in Captured(s, c) ==> PieceOfGlyph(g).Some? && PieceOfGlyph(g).value.color == c
  }

  /** A selection is recorded whenever a piece is active, and no cell is both highlighted and in danger. */
  predicate SelectionConsistent(s: GameState) {
    && (s.isActivated ==> s.clickedPiece.Some?)
    && s.marks.highlighted !! s.marks.danger
  }

  /** A recorded king square holds a king. */
  predicate KingMarkOnKing(s: GameState) {
    s.kingInCheck.Found? ==> At(s.board, s.kingInCheck.square).Some? && At(s.board, s.kingInCheck.square).value.kind == King
  }

  ghost predicate Valid(s: GameState) {
    PiecesConserved(s) && CapturedOwnColour(s) && SelectionConsistent(s) && KingMarkOnKing(s)
  }

  lemma InitialStateValid()
    ensures Valid(InitialState())
  {
    StandardLayoutCounts();
  }

  /**
    Playing `src`→`dst` (distinct squares) removes one occurrence of the
    captured piece, if any, from the board's contents and keeps every other
    piece.
  */
  lemma {:induction false} SimulateMoveCount(b: Board, src: Square, dst: Square, p: Piece)
    requires src != dst
    ensures multiset(SimulateMove(b, src, dst))[Some(p)] ==
      multiset(b)[Some(p)] - (if At(b, dst) == Some(p) then 1 else 0)
  {
    var b1 := b[Index(dst) := At(b, src)];
    assert Index(src) != Index(dst) by { SameIndexSameSquare(src); }
    assert b1[Index(src)] == b[Index(src)];
    assert multiset(b1) == multiset(b) - multiset{b[Index(dst)]} + multiset{b[Index(src)]};
    assert multiset(b1[Index(src) := None]) == multiset(b1) - multiset{b1[Index(src)]} + multiset{None};
  }

  /** One kind and colour: a captured piece of that kind moves from the board to its colour's list. */
  lemma {:induction false} PlayConservesKind(s: GameState, dst: Square, src: Square, k: Kind, c: Color)
    requires CanPlay(s.board, dst, src)
    ensures var r := HandlePlay(s, dst, src);
      multiset(r.board)[Some(Piece(k, c))] + multiset(Captured(r, c))[Glyph(Piece(k, c))] ==
      multiset(s.board)[Some(Piece(k, c))] + multiset(Captured(s, c))[Glyph(Piece(k, c))]
  {
    var r := HandlePlay(s, dst, src);
    PlayCollectsCapturedPiece(s, dst, src);
    SimulateMoveCount(s.board, src, dst, Piece(k, c));
    if !IsEmpty(s.board, dst) {
      var q := At(s.board, dst).value;
      GlyphInjective(q, Piece(k, c));
      if q.color == c {
        assert multiset(Captured(r, c)) == multiset(Captured(s, c)) + multiset{Glyph(q)};
      } else {
        assert Captured(r, c) == Captured(s, c);
      }
    }
  }

  /** The pieces are conserved by a successful play. */
  lemma {:induction false} PlayConservesPieces(s: GameState, dst: Square, src: Square)
    requires PiecesConserved(s)
    requires CanPlay(s.board, dst, src)
    ensures PiecesConserved(HandlePlay(s, dst, src))
  {
    forall k: Kind, c: Color {
      PlayConservesKind(s, dst, src, k, c);
    }
  }

  /** The captured lists keep to their own colour through a successful play. */
  lemma {:induction false} PlayKeepsCapturedColours(s: GameState, dst: Square, src: Square)
    requires CapturedOwnColour(s)
    requires CanPlay(s.board, dst, src)
    ensures CapturedOwnColour(HandlePlay(s, dst, src))
  {
    var r := HandlePlay(s, dst, src);
    PlayCollectsCapturedPiece(s, dst, src);
    forall c: Color, g | g in Captured(r, c)
      ensures PieceOfGlyph(g).Some? && PieceOfGlyph(g).value.color == c
    {
      if g !in Captured(s, c) {
        GlyphRoundTrip(At(s.board, dst).value);
      }
    }
  }

  /** A successful play keeps every invariant. */
  lemma {:induction false} PlayKeepsValid(s: GameState, dst: Square, src: Square)
    requires Valid(s)
    requires CanPlay(s.board, dst, src)
    ensures Valid(HandlePlay(s, dst, src))
  {
    PlayConservesPieces(s, dst, src);
    PlayKeepsCapturedColours(s, dst, src);
    PlayRecordsOpponentKing(s, dst, src);
  }

  /** A refused play or an activation changes neither the pieces nor the captured lists. */
  lemma {:induction false} ClicksKeepValid(s: GameState, e: ChessEvent)
    requires Valid(s)
    requires e.Activate? || (e.Play? && !CanPlay(s.board, e.cellClicked, e.cellFrom))
    ensures Valid(OnEvent(s, e))
  {
    var r := OnEvent(s, e);
    assert r.board == s.board && r.kingInCheck == s.kingInCheck;
    assert Captured(r, White) == Captured(s, White) && Captured(r, Black) == Captured(s, Black);
  }

  /** Every event keeps every invariant. */
  lemma {:induction false} OnEventKeepsValid(s: GameState, e: ChessEvent)
    requires Valid(s)
    ensures Valid(OnEvent(s, e))
  {
    match e
    case Restart => InitialStateValid();
    case Activate(sq) => ClicksKeepValid(s, e);
    case Play(dst, src) =>
      if CanPlay(s.board, dst, src) {
        PlayKeepsValid(s, dst, src);
      } else {
        ClicksKeepValid(s, e);
      }
  }

  /** The state after a sequence of events, starting from `s`. */
  function Run(s: GameState, events: seq<ChessEvent>): GameState
    decreases |events|
  {
    if events == [] then s else Run(OnEvent(s, events[0]), events[1..])
  }

  /** Every state reached from a fresh game is valid. */
  lemma {:induction false} RunKeepsValid(s: GameState, events: seq<ChessEvent>)
    requires Valid(s)
    ensures Valid(Run(s, events))
    decreases |events|
  {
    if events != [] {
      OnEventKeepsValid(s, events[0]);
      RunKeepsValid(OnEvent(s, events[0]), events[1..]);
    }
  }

  /**
    In a valid state each colour has at most one king, so findKingPosition
    (first match) and the scan of handlePlay (last match) find the same square.
  */
  lemma KingsUnique(s: GameState, c: Color)
    requires Valid(s)
    ensures AtMostOneKing(s.board, c)
    ensures FindKingPosition(s.board, c) == FindLastKing(s.board, c)
  {
    assert multiset(s.board)[Some(Piece(King, c))] + multiset(Captured(s, c))[Glyph(Piece(King, c))] == StartCount(King);
    FirstAndLastKingAgree(s.board, c);
  }

  /** Every game reached by events has at most one king per colour, found alike by both scans. */
  lemma ReachableKingsUnique(events: seq<ChessEvent>, c: Color)
    ensures AtMostOneKing(Run(InitialState(), events).board, c)
    ensures FindKingPosition(Run(InitialState(), events).board, c) == FindLastKing(Run(InitialState(), events).board, c)
  {
    InitialStateValid();
    RunKeepsValid(InitialState(), events);
    KingsUnique(Run(InitialState(), events), c);
  }
}
