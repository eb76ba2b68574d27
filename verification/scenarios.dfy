/** Concrete plays: the opening pawn step e2-e4, refused plays on the starting position, and a lone king's step. */
module Scenarios {
  import opened Wrappers
  import opened Squares
  import opened Geometry
  import opened KingSafety
  import opened ChessBoard
  import opened ChessState
  import opened ChessViewModel
  import opened GameInvariants

  /**
    A pawn plays one rank forward (straight or diagonally), or two ranks
    straight ahead from its home rank, and nowhere else.
  */
  lemma PawnReach(b: Board, src: Square, dst: Square, c: Color)
    requires At(b, src) == Some(Piece(Pawn, c))
    requires CanPlay(b, dst, src)
    ensures dst.rank == src.rank + Forward(c) || (src.rank == HomeRank(c) && dst == Shift(src, 0, 2 * Forward(c)))
  {
    LegalActionsArePseudo(b, src, dst, Piece(Pawn, c));
    PawnPseudo(b, src, c);
  }

  /** A white pawn on e2 cannot play to e5, whatever else stands on the board. */
  lemma PawnCannotLeap(b: Board)
    requires At(b, Coord(4, 2)) == Some(Piece(Pawn, White))
    ensures !CanPlay(b, Coord(4, 5), Coord(4, 2))
  {
    if CanPlay(b, Coord(4, 5), Coord(4, 2)) {
      PawnReach(b, Coord(4, 2), Coord(4, 5), White);
      assert false;
    }
  }

  /** e2 to e5 is refused, and the fresh game stays as it was, white to move. */
  lemma IllegalLeapRefused()
    ensures HandlePlay(InitialState(), Coord(4, 5), Coord(4, 2)) == InitialState()
  {
    var s := InitialState();
    assert LayoutAt(Coord(4, 2)) == Some(Piece(Pawn, White));
    PawnCannotLeap(s.board);
  }

  /** Clicking a black piece while white is to move selects nothing. */
  lemma ActivateOutOfTurnIgnored(sq: Square)
    requires sq.rank == 7 || sq.rank == 8
    ensures HandleActivation(InitialState(), sq) == InitialState()
  {
  }

  /** A board with a single white king on a1 and every other cell empty. */
  ghost predicate LoneWhiteKing(b: Board) {
    forall sq: Square :: At(b, sq) == (if sq == Coord(0, 1) then Some(Piece(King, White)) else None)
  }

  /** A board with no black piece leaves white's king, wherever it is, unattacked. */
  lemma NoBlackNoCheck(b: Board, k: Option<Square>)
    requires forall sq: Square :: ColorAt(b, sq) != Some(Black)
    ensures !IsInCheck(b, White, k)
  {
  }

  /**
    A white king may step to an adjacent empty square of a board that holds
    no black piece: the step is a king move, and after it nothing can attack
    the king.
  */
  lemma KingStepWithoutEnemies(b: Board, src: Square, dst: Square)
    requires At(b, src) == Some(Piece(King, White))
    requires forall sq: Square :: ColorAt(b, sq) != Some(Black)
    requires Adjacent(src, dst) && IsEmpty(b, dst)
    ensures CanPlay(b, dst, src)
  {
    assert dst in KingMoves(b, src);
    var sim := SimulateMove(b, src, dst);
    forall sq: Square
      ensures ColorAt(sim, sq) != Some(Black)
    {
      if sq == src {
        assert IsEmpty(sim, sq);
      } else if sq == dst {
        assert At(sim, sq) == At(b, src);
      } else {
        assert At(sim, sq) == At(b, sq) && ColorAt(b, sq) != Some(Black);
      }
    }
    NoBlackNoCheck(sim, FindKingPosition(sim, White));
    assert IsSafe(b, src, White, dst);
  }

  /** On a board holding only a white king on a1, the king may step to a2. */
  lemma LoneKingMayStep(b: Board)
    requires LoneWhiteKing(b)
    ensures CanPlay(b, Coord(0, 2), Coord(0, 1))
  {
    forall sq: Square
      ensures ColorAt(b, sq) != Some(Black)
    {
    }
    KingStepWithoutEnemies(b, Coord(0, 1), Coord(0, 2));
  }

  /** Such a board exists: the king in cell 0, which is a1, and nothing else. */
  lemma LoneWhiteKingExists()
    ensures exists b: Board :: LoneWhiteKing(b)
  {
    var b: Board := seq(64, i => if i == 0 then Some(Piece(King, White)) else None);
    forall sq: Square
      ensures At(b, sq) == (if sq == Coord(0, 1) then Some(Piece(King, White)) else None)
    {
      assert Index(sq) == 0 <==> sq == Coord(0, 1);
    }
    assert LoneWhiteKing(b);
  }

  /** Some play is accepted: the play condition can hold. */
  lemma SomePlaySucceeds()
    ensures exists b: Board, dst: Square, src: Square :: CanPlay(b, dst, src)
  {
    LoneWhiteKingExists();
    var b: Board :| LoneWhiteKing(b);
    var src: Square := Coord(0, 1);
    var dst: Square := Coord(0, 2);
    LoneKingMayStep(b);
    assert CanPlay(b, dst, src);
  }

  /**
    White plays a king step on a board with no black piece: the king arrives,
    its square empties, the play is archived, black is to move, and with no
    black king the check fields report nothing.
  */
  lemma KingStepPlayed(s: GameState, src: Square, dst: Square)
    requires s.turn == White && At(s.board, src) == Some(Piece(King, White))
    requires forall sq: Square :: ColorAt(s.board, sq) != Some(Black)
    requires Adjacent(src, dst) && IsEmpty(s.board, dst)
    ensures var r := HandlePlay(s, dst, src);
      && At(r.board, dst) == Some(Piece(King, White)) && IsEmpty(r.board, src)
      && r.archive == s.archive + [MoveText(src, dst)]
      && r.turn == Black
      && !r.check && r.kingInCheck == NotFound && !r.checkMate
  {
    KingStepWithoutEnemies(s.board, src, dst);
    PlayTurn(s, dst, src);
    PlayRecordsOpponentKing(s, dst, src);
    var r := HandlePlay(s, dst, src);
    forall sq: Square
      ensures At(r.board, sq) != Some(Piece(King, Black))
    {
      if sq != src && sq != dst {
        assert ColorAt(s.board, sq) != Some(Black);
      }
    }
  }

  /** The archive entry of the play a1 to a2. */
  lemma A1ToA2Text()
    ensures MoveText(Coord(0, 1), Coord(0, 2)) == "a1 to a2"
  {
  }

  /** White plays its lone king a1 to a2; the archive reads "a1 to a2". */
  lemma LoneKingStep(s: GameState)
    requires LoneWhiteKing(s.board) && s.turn == White
    ensures var r := HandlePlay(s, Coord(0, 2), Coord(0, 1));
      && At(r.board, Coord(0, 2)) == Some(Piece(King, White)) && IsEmpty(r.board, Coord(0, 1))
      && r.archive == s.archive + ["a1 to a2"]
      && r.turn == Black
      && !r.check && r.kingInCheck == NotFound && !r.checkMate
  {
    forall sq: Square
      ensures ColorAt(s.board, sq) != Some(Black)
    {
    }
    KingStepPlayed(s, Coord(0, 1), Coord(0, 2));
    A1ToA2Text();
  }

  // ---------------------------------------------------------------------------
  // The opening step of the king's pawn.
  // ---------------------------------------------------------------------------

  const E2: Square := Coord(4, 2)
  const E3: Square := Coord(4, 3)
  const E4: Square := Coord(4, 4)
  const E8: Square := Coord(4, 8)

  /** A board holding the starting layout on every square. */
  ghost predicate StartBoard(b: Board) {
    forall sq: Square :: At(b, sq) == LayoutAt(sq)
  }

  /** Of the back-rank files, only e holds the king. */
  lemma BackRankKing(f: int)
    requires 0 <= f < 8
    ensures BackRank(f) == King <==> f == 4
  {
  }

  /**
    No piece standing on rank 8 slides to e1 while rank 7 is full: a ray
    along which rank 1 is reached from rank 8 needs seven steps, and its
    first step lands on rank 7 or off the board.
  */
  lemma NoSlideFromRank8(b: Board, a: Square, d: Direction)
    requires a.rank == 8 && -1 <= d.1 <= 1
    requires forall sq: Square :: sq.rank == 7 ==> !IsEmpty(b, sq)
    ensures forall k :: !KillReach(b, a, d, k, Coord(4, 1))
  {
    forall k | KillReach(b, a, d, k, Coord(4, 1))
      ensures false
    {
      assert 8 + d.1 * k == 1;
      assert d.1 == -1 && k == 7;
      var first := RayTarget(a, d, 1);
    }
  }

  /** A rook on rank 8 does not reach e1 while rank 7 is full. */
  lemma RookMissesE1(b: Board, a: Square)
    requires a.rank == 8
    requires forall sq: Square :: sq.rank == 7 ==> !IsEmpty(b, sq)
    ensures Coord(4, 1) !in RookKills(b, a)
  {
    RookRays(b, a, Coord(4, 1));
    if Coord(4, 1) in RookKills(b, a) {
      var i, k :| 0 <= i < 4 && KillReach(b, a, RookDirections[i], k, Coord(4, 1));
      assert i == 0 || i == 1 || i == 2 || i == 3;
      NoSlideFromRank8(b, a, RookDirections[i]);
    }
  }

  /** A bishop on rank 8 does not reach e1 while rank 7 is full. */
  lemma BishopMissesE1(b: Board, a: Square)
    requires a.rank == 8
    requires forall sq: Square :: sq.rank == 7 ==> !IsEmpty(b, sq)
    ensures Coord(4, 1) !in BishopKills(b, a)
  {
    BishopRays(b, a, Coord(4, 1));
    if Coord(4, 1) in BishopKills(b, a) {
      var i, k :| 0 <= i < 4 && KillReach(b, a, BishopDirections[i], k, Coord(4, 1));
      assert i == 0 || i == 1 || i == 2 || i == 3;
      NoSlideFromRank8(b, a, BishopDirections[i]);
    }
  }

  /** A queen on rank 8 does not reach e1 while rank 7 is full. */
  lemma QueenMissesE1(b: Board, a: Square)
    requires a.rank == 8
    requires forall sq: Square :: sq.rank == 7 ==> !IsEmpty(b, sq)
    ensures Coord(4, 1) !in QueenKills(b, a)
  {
    RookMissesE1(b, a);
    BishopMissesE1(b, a);
  }

  /**
    A black piece standing where it starts does not attack e1 while rank 7
    is full: pawns strike towards rank 8 (in the defender's direction),
    knights and the king are too far away, and the sliders are blocked.
  */
  lemma BlackPieceMissesE1(b: Board, a: Square)
    requires a.rank >= 7 && At(b, a) == LayoutAt(a)
    requires forall sq: Square :: sq.rank == 7 ==> !IsEmpty(b, sq)
    ensures !Attacks(b, a, Coord(4, 1), White)
  {
    var e1 := Coord(4, 1);
    var p := At(b, a).value;
    match p.kind
    case Pawn =>
      assert e1 !in PawnKills(b, a, White);
    case Knight =>
      assert e1 !in KnightKills(b, a);
    case King =>
      assert e1 !in KingKills(b, a);
    case Rook =>
      RookMissesE1(b, a);
    case Bishop =>
      BishopMissesE1(b, a);
    case Queen =>
      QueenMissesE1(b, a);
  }

  /**
    With black's pieces on ranks 7 and 8 as they start and nothing black
    elsewhere, nothing attacks a white king on e1.
  */
  lemma E1Unattacked(b: Board)
    requires forall sq: Square :: sq.rank >= 7 ==> At(b, sq) == LayoutAt(sq)
    requires forall sq: Square :: sq.rank < 7 ==> ColorAt(b, sq) != Some(Black)
    ensures forall a: Square :: !Attacks(b, a, Coord(4, 1), White)
  {
    forall sq: Square | sq.rank == 7
      ensures !IsEmpty(b, sq)
    {
      assert At(b, sq) == LayoutAt(sq);
    }
    forall a: Square | ColorAt(b, a) == Some(Black)
      ensures !Attacks(b, a, Coord(4, 1), White)
    {
      assert a.rank >= 7;
      BlackPieceMissesE1(b, a);
    }
  }

  /**
    After the e-pawn's step from the starting layout, black stands as it
    started, nothing black stands below rank 7, and the only white king is
    the one on e1.
  */
  lemma AfterPawnStep(b: Board, dst: Square)
    requires StartBoard(b)
    requires dst == Coord(4, 3) || dst == Coord(4, 4)
    ensures var sim := SimulateMove(b, Coord(4, 2), dst);
      && (forall sq: Square :: sq.rank >= 7 ==> At(sim, sq) == LayoutAt(sq))
      && (forall sq: Square :: sq.rank < 7 ==> ColorAt(sim, sq) != Some(Black))
      && (forall sq: Square :: At(sim, sq) == Some(Piece(King, White)) <==> sq == Coord(4, 1))
  {
    var e2 := Coord(4, 2);
    var sim := SimulateMove(b, e2, dst);
    forall sq: Square
      ensures sq.rank >= 7 ==> At(sim, sq) == LayoutAt(sq)
      ensures sq.rank < 7 ==> ColorAt(sim, sq) != Some(Black)
      ensures At(sim, sq) == Some(Piece(King, White)) <==> sq == Coord(4, 1)
    {
      if sq != e2 && sq != dst {
        assert At(sim, sq) == At(b, sq);
        if sq.rank == 1 {
          BackRankKing(sq.file);
        }
      }
    }
  }

  /** A board whose only white king stands on e1 has it found there. */
  lemma KingFoundOnE1(b: Board)
    requires forall sq: Square :: At(b, sq) == Some(Piece(King, White)) <==> sq == Coord(4, 1)
    ensures FindKingPosition(b, White) == Some(Coord(4, 1))
  {
    assert At(b, Coord(4, 1)) == Some(Piece(King, White));
  }

  /** A pseudo-legal quiet move after which the mover's king is not in check is a legal move. */
  lemma SafePseudoMoveIsLegal(b: Board, src: Square, dst: Square, p: Piece)
    requires At(b, src) == Some(p) && dst in PseudoMoves(b, src, p.kind, p.color)
    requires !IsInCheck(SimulateMove(b, src, dst), p.color, FindKingPosition(SimulateMove(b, src, dst), p.color))
    ensures dst in EvaluateNextMove(b, src)
  {
    assert IsSafe(b, src, p.color, dst);
  }

  /** The e-pawn's step leaves white's king on e1 unattacked. */
  lemma PawnStepKeepsKingSafe(b: Board, dst: Square)
    requires StartBoard(b)
    requires dst == Coord(4, 3) || dst == Coord(4, 4)
    ensures var sim := SimulateMove(b, Coord(4, 2), dst);
      !IsInCheck(sim, White, FindKingPosition(sim, White))
  {
    var sim := SimulateMove(b, Coord(4, 2), dst);
    AfterPawnStep(b, dst);
    KingFoundOnE1(sim);
    E1Unattacked(sim);
  }

  /** From the starting layout, white's e-pawn may step to e3 or e4. */
  lemma OpeningPawnStepLegal(b: Board, dst: Square)
    requires StartBoard(b)
    requires dst == Coord(4, 3) || dst == Coord(4, 4)
    ensures dst in EvaluateNextMove(b, Coord(4, 2))
  {
    assert At(b, Coord(4, 2)) == Some(Piece(Pawn, White)) && IsEmpty(b, dst);
    assert dst in PawnMoves(b, Coord(4, 2), White);
    PawnStepKeepsKingSafe(b, dst);
    SafePseudoMoveIsLegal(b, Coord(4, 2), dst, Piece(Pawn, White));
  }

  /** Legal moves and kills of a piece are among its pseudo-legal ones. */
  lemma LegalActionsArePseudo(b: Board, src: Square, x: Square, p: Piece)
    requires At(b, src) == Some(p)
    ensures x in EvaluateNextMove(b, src) ==> x in PseudoMoves(b, src, p.kind, p.color)
    ensures x in EvaluateNextKill(b, src) ==> x in PseudoKills(b, src, p.kind, p.color)
  {
  }

  /** For a pawn, the kind dispatch selects the pawn generators. */
  lemma PawnPseudo(b: Board, sq: Square, c: Color)
    ensures PseudoMoves(b, sq, Pawn, c) == PawnMoves(b, sq, c)
    ensures PseudoKills(b, sq, Pawn, c) == PawnKills(b, sq, c)
  {
  }

  /** The e-pawn's legal moves from the starting layout are exactly e3 and e4. */
  lemma OpeningPawnMoves(b: Board, x: Square)
    requires StartBoard(b)
    ensures x in EvaluateNextMove(b, Coord(4, 2)) <==> x == Coord(4, 3) || x == Coord(4, 4)
  {
    if x == Coord(4, 3) || x == Coord(4, 4) {
      OpeningPawnStepLegal(b, x);
    } else {
      LegalActionsArePseudo(b, Coord(4, 2), x, Piece(Pawn, White));
      PawnPseudo(b, Coord(4, 2), White);
    }
  }

  /** A pawn's legal kill takes a piece on one of its two forward diagonals. */
  lemma PawnKillIsDiagonal(b: Board, src: Square, x: Square, c: Color)
    requires At(b, src) == Some(Piece(Pawn, c)) && x in EvaluateNextKill(b, src)
    ensures !IsEmpty(b, x) && (x == Shift(src, 1, Forward(c)) || x == Shift(src, -1, Forward(c)))
  {
    LegalActionsArePseudo(b, src, x, Piece(Pawn, c));
    PawnPseudo(b, src, c);
  }

  /** From the starting layout the e-pawn has no legal kill: d3 and f3 are empty. */
  lemma OpeningPawnKills(b: Board, x: Square)
    requires StartBoard(b)
    ensures x !in EvaluateNextKill(b, Coord(4, 2))
  {
    if x in EvaluateNextKill(b, Coord(4, 2)) {
      PawnKillIsDiagonal(b, Coord(4, 2), x, White);
    }
  }

  /**
    Selecting the e-pawn on the starting layout with white to move
    highlights e3 and e4 and nothing else, and marks no danger.
  */
  lemma SelectKingsPawn(s: GameState)
    requires StartBoard(s.board) && s.turn == White
    ensures HandleActivation(s, E2).isActivated && HandleActivation(s, E2).clickedPiece == Some(E2)
    ensures HandleActivation(s, E2).marks.highlighted == {E3, E4}
    ensures HandleActivation(s, E2).marks.danger == {}
  {
    assert At(s.board, E2) == Some(Piece(Pawn, White));
    var r := HandleActivation(s, E2);
    forall x
      ensures x in r.marks.highlighted <==> x in {E3, E4}
    {
      OpeningPawnMoves(s.board, x);
    }
    forall x
      ensures x !in r.marks.danger
    {
      OpeningPawnKills(s.board, x);
    }
  }

  /** In a fresh game, clicking e2 highlights e3 and e4. */
  lemma FirstClickOnE2()
    ensures HandleActivation(InitialState(), E2).isActivated
    ensures HandleActivation(InitialState(), E2).marks.highlighted == {E3, E4}
    ensures HandleActivation(InitialState(), E2).marks.danger == {}
  {
    var s := InitialState();
    SelectKingsPawn(s);
  }

  // ---------------------------------------------------------------------------
  // Playing e2 to e4.
  // ---------------------------------------------------------------------------

  /** A board whose only black king stands on e8 has it found there. */
  lemma KingFoundOnE8(b: Board)
    requires forall sq: Square :: At(b, sq) == Some(Piece(King, Black)) <==> sq == Coord(4, 8)
    ensures FindLastKing(b, Black) == Some(Coord(4, 8))
  {
    assert At(b, Coord(4, 8)) == Some(Piece(King, Black));
  }

  /** Moving a white piece from e2 to e4 of the starting layout leaves black's king alone on e8. */
  lemma BlackKingStaysOnE8(b: Board, b2: Board)
    requires StartBoard(b)
    requires At(b2, Coord(4, 4)) == At(b, Coord(4, 2)) && IsEmpty(b2, Coord(4, 2))
    requires forall sq: Square :: sq != Coord(4, 2) && sq != Coord(4, 4) ==> At(b2, sq) == At(b, sq)
    ensures FindLastKing(b2, Black) == Some(Coord(4, 8))
  {
    forall sq: Square
      ensures At(b2, sq) == Some(Piece(King, Black)) <==> sq == Coord(4, 8)
    {
      if sq != Coord(4, 2) && sq != Coord(4, 4) && sq.rank == 8 {
        BackRankKing(sq.file);
      }
    }
    KingFoundOnE8(b2);
  }

  /**
    White plays e2 to e4 from the starting layout: the pawn arrives, every
    other square keeps its starting piece, the play is archived, black is to
    move, and the check fields point at black's king on e8.
  */
  lemma OpeningE4(s: GameState)
    requires StartBoard(s.board) && s.turn == White
    ensures At(HandlePlay(s, E4, E2).board, E4) == Some(Piece(Pawn, White))
    ensures IsEmpty(HandlePlay(s, E4, E2).board, E2)
    ensures forall sq: Square :: sq != E2 && sq != E4 ==> At(HandlePlay(s, E4, E2).board, sq) == LayoutAt(sq)
    ensures HandlePlay(s, E4, E2).turn == Black
    ensures HandlePlay(s, E4, E2).archive == s.archive + [MoveText(E2, E4)]
    ensures HandlePlay(s, E4, E2).kingInCheck == Found(E8)
  {
    OpeningPawnStepLegal(s.board, E4);
    PlayRecordsOpponentKing(s, E4, E2);
    BlackKingStaysOnE8(s.board, HandlePlay(s, E4, E2).board);
  }

  /** The archive entry of the play e2 to e4. */
  lemma E2ToE4Text()
    ensures MoveText(E2, E4) == "e2 to e4"
  {
  }

  /**
    The first play of a fresh game, e2 to e4: black is to move, the archive
    reads "e2 to e4", black's king is recorded, and the game state stays valid.
  */
  lemma FirstMoveE4()
    ensures HandlePlay(InitialState(), E4, E2).turn == Black
    ensures HandlePlay(InitialState(), E4, E2).archive == ["e2 to e4"]
    ensures HandlePlay(InitialState(), E4, E2).kingInCheck == Found(E8)
    ensures Valid(HandlePlay(InitialState(), E4, E2))
  {
    var s := InitialState();
    OpeningE4(s);
    E2ToE4Text();
    InitialStateValid();
    OpeningPawnStepLegal(s.board, E4);
    PlayKeepsValid(s, E4, E2);
  }
}
