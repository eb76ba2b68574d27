/**
  King safety and terminal detection: the members of ChessPiece.kt's
  `ChessPiece` class and of its `King` subclass.

  A destination is legal when playing it on a copy of the board leaves the
  mover's king unattacked. Attacks are read off the opponents' pseudo-legal
  kill lists, never the filtered ones, so nothing recurses.
*/
module KingSafety {
  import opened Wrappers
  import opened Squares
  import opened Geometry

  /** simulateMove: `to` receives the piece on `from`, then `from` is emptied. */
  function SimulateMove(b: Board, from: Square, to: Square): (r: Board)
    ensures At(r, from) == None
    ensures from != to ==> At(r, to) == At(b, from)
    ensures forall sq: Square :: sq != from && sq != to ==> At(r, sq) == At(b, sq)
  {
    IndexRoundTrips();
    b[Index(to) := At(b, from)][Index(from) := None]
  }

  // ---------------------------------------------------------------------------
  // Locating a king.
  // ---------------------------------------------------------------------------

  function FirstKingFrom(b: Board, c: Color, i: nat): (r: Option<Square>)
    requires i <= 64
    decreases 64 - i
    ensures r.Some? ==> i <= Index(r.value) && At(b, r.value) == Some(Piece(King, c))
    ensures r.Some? ==> forall j :: i <= j < Index(r.value) ==> b[j] != Some(Piece(King, c))
    ensures r.None? ==> forall j :: i <= j < 64 ==> b[j] != Some(Piece(King, c))
  {
    if i == 64 then None
    else if b[i] == Some(Piece(King, c)) then Some(SquareAt(i))
    else FirstKingFrom(b, c, i + 1)
  }

  /**
    findKingPosition: the first square, in board order, holding the king of
    `c`. `None` stands for the empty key "" the source returns when there is
    no such king.
  */
  function FindKingPosition(b: Board, c: Color): (r: Option<Square>)
    ensures r.Some? ==> At(b, r.value) == Some(Piece(King, c))
    ensures r.Some? ==> forall sq: Square :: Index(sq) < Index(r.value) ==> At(b, sq) != Some(Piece(King, c))
    ensures r.None? <==> forall sq: Square :: At(b, sq) != Some(Piece(King, c))
  {
    FirstKingFrom(b, c, 0)
  }

  function LastKingBelow(b: Board, c: Color, i: nat): (r: Option<Square>)
    requires i <= 64
    ensures r.Some? ==> Index(r.value) < i && At(b, r.value) == Some(Piece(King, c))
    ensures r.Some? ==> forall j :: Index(r.value) < j < i ==> b[j] != Some(Piece(King, c))
    ensures r.None? ==> forall j :: 0 <= j < i ==> b[j] != Some(Piece(King, c))
  {
    if i == 0 then None
    else if b[i - 1] == Some(Piece(King, c)) then Some(SquareAt(i - 1))
    else LastKingBelow(b, c, i - 1)
  }

  /**
    The square a full scan of the board keeps when every match overwrites the
    previous one: the last square, in board order, holding the king of `c`.
  */
  function FindLastKing(b: Board, c: Color): (r: Option<Square>)
    ensures r.Some? ==> At(b, r.value) == Some(Piece(King, c))
    ensures r.Some? ==> forall sq: Square :: Index(sq) > Index(r.value) ==> At(b, sq) != Some(Piece(King, c))
    ensures r.None? <==> forall sq: Square :: At(b, sq) != Some(Piece(King, c))
  {
    LastKingBelow(b, c, 64)
  }

  /** A board holds at most one king of colour `c`. */
  predicate AtMostOneKing(b: Board, c: Color) {
    multiset(b)[Some(Piece(King, c))] <= 1
  }

  /** Two cells holding the same value make it occur twice in the board's multiset. */
  lemma {:induction false} TwoCellsCountTwice(b: Board, i: nat, j: nat)
    requires i < j < 64 && b[i] == b[j]
    ensures multiset(b)[b[i]] >= 2
  {
    assert b == b[..j] + b[j..];
    assert b[i] in b[..j];
    assert b[j] in b[j..];
    assert multiset(b) == multiset(b[..j]) + multiset(b[j..]);
  }

  /** With at most one king of a colour, the first and the last king found are the same square. */
  lemma {:induction false} FirstAndLastKingAgree(b: Board, c: Color)
    requires AtMostOneKing(b, c)
    ensures FindKingPosition(b, c) == FindLastKing(b, c)
  {
    var f, l := FindKingPosition(b, c), FindLastKing(b, c);
    if f.Some? && l.Some? && f.value != l.value {
      IndexRoundTrips();
      TwoCellsCountTwice(b, Index(f.value), Index(l.value));
    }
  }

  // ---------------------------------------------------------------------------
  // Check.
  // ---------------------------------------------------------------------------

  /**
    The piece on `a` attacks `t` when defending a king of colour `kingColor`:
    it belongs to the opponent and its pseudo-legal kill list contains `t`.
    The kill list of a pawn is computed in the direction of `kingColor`, not
    of the pawn's own colour, as `isInCheck` does.
  */
  predicate Attacks(b: Board, a: Square, t: Square, kingColor: Color) {
    match At(b, a)
    case None => false
    case Some(p) => p.color == Opponent(kingColor) && t in PseudoKills(b, a, p.kind, kingColor)
  }

  /**
    King.isInCheck: some opponent piece attacks `cell`. A missing king (the
    empty key) is never in check.
  */
  function IsInCheck(b: Board, kingColor: Color, cell: Option<Square>): (r: bool)
    ensures r <==> cell.Some? && exists a: Square :: Attacks(b, a, cell.value, kingColor)
  {
    cell.Some? && AnySquare((a: Square) => Attacks(b, a, cell.value, kingColor))
  }

  /** Playing `from`→`to` leaves the king of colour `c` (wherever it is found afterwards) unattacked. */
  predicate IsSafe(b: Board, from: Square, c: Color, to: Square) {
    var sim := SimulateMove(b, from, to);
    !IsInCheck(sim, c, FindKingPosition(sim, c))
  }

  /** filterSafeMoves: the destinations of `moves`, in order, that are safe for the king of `c`. */
  function FilterSafeMoves(b: Board, cell: Square, c: Color, moves: seq<Square>): (r: seq<Square>)
    ensures IsSubsequence(r, moves)
    ensures forall m :: m in r <==> m in moves && IsSafe(b, cell, c, m)
    ensures forall m :: multiset(r)[m] == if IsSafe(b, cell, c, m) then multiset(moves)[m] else 0
  {
    if moves == [] then []
    else
      assert moves == [moves[0]] + moves[1..];
      var rest := FilterSafeMoves(b, cell, c, moves[1..]);
      if IsSafe(b, cell, c, moves[0]) then [moves[0]] + rest else rest
  }

  /** evaluateNextMove of the piece on `sq`: its safe quiet moves; nothing for an empty cell. */
  function EvaluateNextMove(b: Board, sq: Square): (r: seq<Square>)
    ensures IsEmpty(b, sq) ==> r == []
    ensures !IsEmpty(b, sq) ==> IsSubsequence(r, PseudoMoves(b, sq, At(b, sq).value.kind, At(b, sq).value.color))
    ensures forall m :: m in r <==>
      !IsEmpty(b, sq) && m in PseudoMoves(b, sq, At(b, sq).value.kind, At(b, sq).value.color) && IsSafe(b, sq, At(b, sq).value.color, m)
  {
    match At(b, sq)
    case None => []
    case Some(p) => FilterSafeMoves(b, sq, p.color, PseudoMoves(b, sq, p.kind, p.color))
  }

  /** evaluateNextKill of the piece on `sq`: its safe kills; nothing for an empty cell. */
  function EvaluateNextKill(b: Board, sq: Square): (r: seq<Square>)
    ensures IsEmpty(b, sq) ==> r == []
    ensures !IsEmpty(b, sq) ==> IsSubsequence(r, PseudoKills(b, sq, At(b, sq).value.kind, At(b, sq).value.color))
    ensures forall m :: m in r <==>
      !IsEmpty(b, sq) && m in PseudoKills(b, sq, At(b, sq).value.kind, At(b, sq).value.color) && IsSafe(b, sq, At(b, sq).value.color, m)
  {
    match At(b, sq)
    case None => []
    case Some(p) => FilterSafeMoves(b, sq, p.color, PseudoKills(b, sq, p.kind, p.color))
  }

  // ---------------------------------------------------------------------------
  // Terminal detection.
  // ---------------------------------------------------------------------------

  /** The cell `sq` holds no piece of colour `c` that has a legal move or kill. */
  predicate Stuck(b: Board, c: Color, sq: Square) {
    ColorAt(b, sq) == Some(c) ==> EvaluateNextMove(b, sq) == [] && EvaluateNextKill(b, sq) == []
  }

  /**
    King.isCheckMate: no piece of colour `c` has a legal move or kill. Being
    in check is not required, so a stalemate counts too, and a colour with no
    pieces at all is mated.
  */
  function IsCheckMate(b: Board, c: Color): (r: bool)
    ensures r <==> forall sq: Square :: Stuck(b, c, sq)
  {
    AllSquares((sq: Square) => Stuck(b, c, sq))
  }

  // ---------------------------------------------------------------------------
  // Properties.
  // ---------------------------------------------------------------------------

  /** Every legal destination keeps the mover's king out of check once played. */
  lemma LegalActionsKeepKingSafe(b: Board, sq: Square, m: Square)
    requires m in EvaluateNextMove(b, sq) || m in EvaluateNextKill(b, sq)
    ensures !IsEmpty(b, sq)
    ensures var sim := SimulateMove(b, sq, m);
      !IsInCheck(sim, At(b, sq).value.color, FindKingPosition(sim, At(b, sq).value.color))
  {
  }

  /** A legal quiet move lands on an empty cell, a legal kill on a piece of the other colour; neither is the piece's own cell. */
  lemma {:induction false} LegalTargets(b: Board, sq: Square, m: Square)
    ensures m in EvaluateNextMove(b, sq) ==> IsEmpty(b, m) && m != sq
    ensures m in EvaluateNextKill(b, sq) ==>
      !IsEmpty(b, sq) && !IsEmpty(b, m) && ColorAt(b, m) != ColorAt(b, sq) && m != sq
  {
    if !IsEmpty(b, sq) {
      var p := At(b, sq).value;
      PseudoTargets(b, sq, p.kind, p.color);
    }
  }

  /**
    The pawn quirk of isInCheck: an opponent pawn is taken to attack the two
    squares diagonally ahead of it in the DEFENDING king's direction.
  */
  lemma PawnAttacksInDefendersDirection(b: Board, a: Square, t: Square, kingColor: Color)
    requires At(b, a) == Some(Piece(Pawn, Opponent(kingColor)))
    requires At(b, t) == Some(Piece(King, kingColor))
    ensures Attacks(b, a, t, kingColor) <==>
      t == Shift(a, 1, Forward(kingColor)) || t == Shift(a, -1, Forward(kingColor))
  {
  }

  /** A colour with no piece on the board is reported as mated. */
  lemma NoPiecesIsCheckMate(b: Board, c: Color)
    requires forall sq: Square :: ColorAt(b, sq) != Some(c)
    ensures IsCheckMate(b, c)
  {
  }

  /** A king has at most eight legal moves and at most eight legal kills: one per neighbouring square. */
  lemma KingActionsBounded(b: Board, sq: Square)
    requires At(b, sq).Some? && At(b, sq).value.kind == King
    ensures |EvaluateNextMove(b, sq)| <= 8
    ensures |EvaluateNextKill(b, sq)| <= 8
  {
    SubsequenceElements(EvaluateNextMove(b, sq), KingMoves(b, sq));
    SubsequenceElements(KingMoves(b, sq), KingTargets(sq));
    SubsequenceElements(EvaluateNextKill(b, sq), KingKills(b, sq));
    SubsequenceElements(KingKills(b, sq), KingTargets(sq));
  }
}
