/**
  Piece geometry: the free move generators of ChessPiece.kt.

  For a piece standing on `sq`, each kind yields two sequences of
  destination squares: pseudo-legal quiet moves (the target is empty) and
  pseudo-legal kills (the target holds a piece whose colour differs from
  the colour on `sq`). Nothing here looks at the mover's own king; that is
  the job of KingSafety. Destinations keep the order in which the source
  walks its direction lists, because that order is observable.
*/
module Geometry {
  import opened Wrappers
  import opened Squares

  type Direction = (int, int)

  /** A target of a single-step piece: on the board and empty. */
  predicate FreeAt(b: Board, c: Coord) {
    OnBoard(c) && IsEmpty(b, c)
  }

  /** A target that holds a piece whose colour differs from the colour on `from` (an empty `from` counts as a colour of its own). */
  predicate EnemyAt(b: Board, from: Square, c: Coord) {
    OnBoard(c) && !IsEmpty(b, c) && ColorAt(b, c) != ColorAt(b, from)
  }

  // ---------------------------------------------------------------------------
  // Single-step pieces: a fixed list of targets, each kept or dropped on its own.
  // ---------------------------------------------------------------------------

  function KingTargets(sq: Coord): seq<Coord> {
    [Shift(sq, 1, 0), Shift(sq, 1, 1), Shift(sq, 0, 1), Shift(sq, -1, 1),
     Shift(sq, -1, 0), Shift(sq, -1, -1), Shift(sq, 0, -1), Shift(sq, 1, -1)]
  }

  function KnightTargets(sq: Coord): seq<Coord> {
    [Shift(sq, 2, 1), Shift(sq, 2, -1), Shift(sq, -2, 1), Shift(sq, -2, -1),
     Shift(sq, 1, 2), Shift(sq, 1, -2), Shift(sq, -1, 2), Shift(sq, -1, -2)]
  }

  /** The targets of `targets`, in order, that are on the board and empty. */
  function StepMoves(b: Board, targets: seq<Coord>): (r: seq<Square>)
    ensures IsSubsequence(r, targets)
    ensures forall t: Square :: t in r <==> t in targets && IsEmpty(b, t)
  {
    if targets == [] then []
    else
      var rest := StepMoves(b, targets[1..]);
      if FreeAt(b, targets[0]) then var t: Square := targets[0]; [t] + rest else rest
  }

  /** The targets of `targets`, in order, that hold a piece of another colour than `from`. */
  function StepKills(b: Board, from: Square, targets: seq<Coord>): (r: seq<Square>)
    ensures IsSubsequence(r, targets)
    ensures forall t: Square :: t in r <==> t in targets && EnemyAt(b, from, t)
  {
    if targets == [] then []
    else
      var rest := StepKills(b, from, targets[1..]);
      if EnemyAt(b, from, targets[0]) then var t: Square := targets[0]; [t] + rest else rest
  }

  function Abs(x: int): nat {
    if x < 0 then -x else x
  }

  /** `t` is one king step away from `sq`. */
  predicate Adjacent(sq: Coord, t: Coord) {
    t != sq && Abs(t.file - sq.file) <= 1 && Abs(t.rank - sq.rank) <= 1
  }

  /** `t` is one knight jump away from `sq`. */
  predicate KnightJump(sq: Coord, t: Coord) {
    var df, dr := Abs(t.file - sq.file), Abs(t.rank - sq.rank);
    (df == 1 && dr == 2) || (df == 2 && dr == 1)
  }

  /** The king's direction list names each of the eight neighbouring squares. */
  lemma KingTargetsAreAdjacent(sq: Coord)
    ensures forall t :: t in KingTargets(sq) <==> Adjacent(sq, t)
  {
    forall t | Adjacent(sq, t)
      ensures t in KingTargets(sq)
    {
      var df, dr := t.file - sq.file, t.rank - sq.rank;
      assert t == Shift(sq, df, dr);
    }
  }

  /** The knight's direction list names each of the eight squares a jump away. */
  lemma KnightTargetsAreJumps(sq: Coord)
    ensures forall t :: t in KnightTargets(sq) <==> KnightJump(sq, t)
  {
    forall t | KnightJump(sq, t)
      ensures t in KnightTargets(sq)
    {
      var df, dr := t.file - sq.file, t.rank - sq.rank;
      assert t == Shift(sq, df, dr);
    }
  }

  function KingMoves(b: Board, sq: Square): (r: seq<Square>)
    ensures IsSubsequence(r, KingTargets(sq))
    ensures forall t: Square :: t in r <==> Adjacent(sq, t) && IsEmpty(b, t)
  {
    KingTargetsAreAdjacent(sq);
    StepMoves(b, KingTargets(sq))
  }

  function KingKills(b: Board, sq: Square): (r: seq<Square>)
    ensures IsSubsequence(r, KingTargets(sq))
    ensures forall t: Square :: t in r <==> Adjacent(sq, t) && EnemyAt(b, sq, t)
  {
    KingTargetsAreAdjacent(sq);
    StepKills(b, sq, KingTargets(sq))
  }

  function KnightMoves(b: Board, sq: Square): (r: seq<Square>)
    ensures IsSubsequence(r, KnightTargets(sq))
    ensures forall t: Square :: t in r <==> KnightJump(sq, t) && IsEmpty(b, t)
  {
    KnightTargetsAreJumps(sq);
    StepMoves(b, KnightTargets(sq))
  }

  function KnightKills(b: Board, sq: Square): (r: seq<Square>)
    ensures IsSubsequence(r, KnightTargets(sq))
    ensures forall t: Square :: t in r <==> KnightJump(sq, t) && EnemyAt(b, sq, t)
  {
    KnightTargetsAreJumps(sq);
    StepKills(b, sq, KnightTargets(sq))
  }

  // ---------------------------------------------------------------------------
  // Pawns.
  // ---------------------------------------------------------------------------

  /** Rank direction a pawn of colour `c` advances in. */
  function Forward(c: Color): int {
    if c == White then 1 else -1
  }

  /** Rank from which a pawn of colour `c` may advance two squares. */
  function HomeRank(c: Color): int {
    if c == White then 2 else 7
  }

  /** The forward targets, in the order the source lists its offsets (a black pawn on rank 7 lists the double step first). */
  function PawnMoveTargets(sq: Coord, c: Color): seq<Coord> {
    if c == White && sq.rank != 2 then [Shift(sq, 0, 1)]
    else if c == Black && sq.rank != 7 then [Shift(sq, 0, -1)]
    else if c == White then [Shift(sq, 0, 1), Shift(sq, 0, 2)]
    else [Shift(sq, 0, -2), Shift(sq, 0, -1)]
  }

  function PawnKillTargets(sq: Coord, c: Color): seq<Coord> {
    if c == White then [Shift(sq, 1, 1), Shift(sq, -1, 1)] else [Shift(sq, 1, -1), Shift(sq, -1, -1)]
  }

  /**
    One step forward to an empty square; from the home rank also two steps
    when that square is empty. The square in between is not consulted.
  */
  function PawnMoves(b: Board, sq: Square, c: Color): (r: seq<Square>)
    ensures IsSubsequence(r, PawnMoveTargets(sq, c))
    ensures forall t: Square :: t in r <==>
      IsEmpty(b, t) &&
      (t == Shift(sq, 0, Forward(c)) || (sq.rank == HomeRank(c) && t == Shift(sq, 0, 2 * Forward(c))))
  {
    StepMoves(b, PawnMoveTargets(sq, c))
  }

  /** The two forward diagonals for colour `c`, each kept when it holds a piece of another colour than `sq`. */
  function PawnKills(b: Board, sq: Square, c: Color): (r: seq<Square>)
    ensures IsSubsequence(r, PawnKillTargets(sq, c))
    ensures forall t: Square :: t in r <==>
      (t == Shift(sq, 1, Forward(c)) || t == Shift(sq, -1, Forward(c))) && EnemyAt(b, sq, t)
  {
    StepKills(b, sq, PawnKillTargets(sq, c))
  }

  // ---------------------------------------------------------------------------
  // Sliding pieces: rays of at most seven steps.
  // ---------------------------------------------------------------------------

  const RookDirections: seq<Direction> := [(1, 0), (-1, 0), (0, 1), (0, -1)]
  const BishopDirections: seq<Direction> := [(1, 1), (-1, 1), (1, -1), (-1, -1)]

  /** The square `k` steps from `sq` along `d`. */
  function RayTarget(sq: Coord, d: Direction, k: int): Coord {
    Shift(sq, d.0 * k, d.1 * k)
  }

  /** The walk along `d` cannot continue past step `k - 1`: the step count is exhausted, or step `k` is off the board or occupied. */
  predicate Blocked(b: Board, sq: Coord, d: Direction, k: int) {
    k > 7 || !FreeAt(b, RayTarget(sq, d, k))
  }

  /** Every square of steps 1..k along `d` is on the board and empty. */
  ghost predicate ClearPath(b: Board, sq: Coord, d: Direction, k: int) {
    forall j :: 1 <= j <= k ==> FreeAt(b, RayTarget(sq, d, j))
  }

  /**
    Quiet moves along one ray from step `i` on: the maximal run of empty
    squares, stopping at the edge, at the first occupied square, or after
    step 7.
  */
  function RayMoves(b: Board, sq: Square, d: Direction, i: int): (r: seq<Square>)
    requires 1 <= i <= 8
    decreases 8 - i
    ensures |r| <= 8 - i
    ensures forall j :: 0 <= j < |r| ==> r[j] == RayTarget(sq, d, i + j) && IsEmpty(b, r[j])
    ensures Blocked(b, sq, d, i + |r|)
  {
    if i == 8 then []
    else
      var t := RayTarget(sq, d, i);
      if FreeAt(b, t) then var s: Square := t; [s] + RayMoves(b, sq, d, i + 1) else []
  }

  /** The square just past the empty run at step `k`, as a one-element kill when it holds an enemy. */
  function EnemyStop(b: Board, sq: Square, d: Direction, k: int): seq<Square> {
    if k <= 7 && EnemyAt(b, sq, RayTarget(sq, d, k)) then var t: Square := RayTarget(sq, d, k); [t] else []
  }

  /**
    Kills along one ray from step `i` on. For an occupied source: at most one,
    the first occupied square after the run of quiet moves, kept only when its
    colour differs. For an empty source the walk stops at the first empty
    square, so only an occupied step `i` can be a kill.
  */
  function RayKills(b: Board, sq: Square, d: Direction, i: int): (r: seq<Square>)
    requires 1 <= i <= 8
    decreases 8 - i
    ensures |r| <= 1
    ensures !IsEmpty(b, sq) ==> r == EnemyStop(b, sq, d, i + |RayMoves(b, sq, d, i)|)
    ensures IsEmpty(b, sq) ==> r == EnemyStop(b, sq, d, i)
  {
    if i == 8 then []
    else
      var t := RayTarget(sq, d, i);
      if !OnBoard(t) then []
      else if EnemyAt(b, sq, t) then var s: Square := t; [s]
      else if ColorAt(b, t) == ColorAt(b, sq) then []
      else RayKills(b, sq, d, i + 1)
  }

  /** The rays of `dirs`, in order, concatenated. */
  function SlideMoves(b: Board, sq: Square, dirs: seq<Direction>): (r: seq<Square>)
    ensures forall t :: t in r <==> exists k :: 0 <= k < |dirs| && t in RayMoves(b, sq, dirs[k], 1)
  {
    if dirs == [] then []
    else RayMoves(b, sq, dirs[0], 1) + SlideMoves(b, sq, dirs[1..])
  }

  function SlideKills(b: Board, sq: Square, dirs: seq<Direction>): (r: seq<Square>)
    ensures |r| <= |dirs|
    ensures forall t :: t in r <==> exists k :: 0 <= k < |dirs| && t in RayKills(b, sq, dirs[k], 1)
  {
    if dirs == [] then []
    else RayKills(b, sq, dirs[0], 1) + SlideKills(b, sq, dirs[1..])
  }

  function RookMoves(b: Board, sq: Square): seq<Square> {
    SlideMoves(b, sq, RookDirections)
  }

  function RookKills(b: Board, sq: Square): seq<Square> {
    SlideKills(b, sq, RookDirections)
  }

  function BishopMoves(b: Board, sq: Square): seq<Square> {
    SlideMoves(b, sq, BishopDirections)
  }

  function BishopKills(b: Board, sq: Square): seq<Square> {
    SlideKills(b, sq, BishopDirections)
  }

  /** The queen walks the rook's rays and then the bishop's. */
  function QueenMoves(b: Board, sq: Square): seq<Square> {
    RookMoves(b, sq) + BishopMoves(b, sq)
  }

  function QueenKills(b: Board, sq: Square): seq<Square> {
    RookKills(b, sq) + BishopKills(b, sq)
  }

  // ---------------------------------------------------------------------------
  // Dispatch on the kind of piece.
  // ---------------------------------------------------------------------------

  /** Pseudo-legal quiet moves of a piece of kind `k` on `sq`; only pawns use the colour `c`, for their direction. */
  function PseudoMoves(b: Board, sq: Square, k: Kind, c: Color): seq<Square> {
    match k
    case King => KingMoves(b, sq)
    case Queen => QueenMoves(b, sq)
    case Rook => RookMoves(b, sq)
    case Bishop => BishopMoves(b, sq)
    case Knight => KnightMoves(b, sq)
    case Pawn => PawnMoves(b, sq, c)
  }

  /** Pseudo-legal kills of a piece of kind `k` on `sq`; only pawns use the colour `c`, for their direction. */
  function PseudoKills(b: Board, sq: Square, k: Kind, c: Color): seq<Square> {
    match k
    case King => KingKills(b, sq)
    case Queen => QueenKills(b, sq)
    case Rook => RookKills(b, sq)
    case Bishop => BishopKills(b, sq)
    case Knight => KnightKills(b, sq)
    case Pawn => PawnKills(b, sq, c)
  }

  // ---------------------------------------------------------------------------
  // Properties of the generators.
  // ---------------------------------------------------------------------------

  /** The quiet moves of a ray are exactly its longest clear prefix. */
  lemma {:induction false} RayRunIsLongestClearPath(b: Board, sq: Square, d: Direction)
    ensures ClearPath(b, sq, d, |RayMoves(b, sq, d, 1)|)
    ensures forall k :: k <= 7 && ClearPath(b, sq, d, k) ==> k <= |RayMoves(b, sq, d, 1)|
  {
    var r := RayMoves(b, sq, d, 1);
    forall j | 1 <= j <= |r|
      ensures FreeAt(b, RayTarget(sq, d, j))
    {
      assert r[j - 1] == RayTarget(sq, d, j);
    }
    forall k | k <= 7 && ClearPath(b, sq, d, k)
      ensures k <= |r|
    {
      if |r| < k {
        assert false;
      }
    }
  }

  /** A square is a quiet move of a ray exactly when every step up to and including it is on the board and empty. */
  lemma {:induction false} RayMovesAreClearPaths(b: Board, sq: Square, d: Direction, t: Square)
    ensures t in RayMoves(b, sq, d, 1) <==>
      exists k :: 1 <= k <= 7 && t == RayTarget(sq, d, k) && ClearPath(b, sq, d, k)
  {
    var r := RayMoves(b, sq, d, 1);
    RayRunIsLongestClearPath(b, sq, d);
    if t in r {
      var j :| 0 <= j < |r| && r[j] == t;
      assert t == RayTarget(sq, d, j + 1);
      assert ClearPath(b, sq, d, j + 1);
    }
    if exists k :: 1 <= k <= 7 && t == RayTarget(sq, d, k) && ClearPath(b, sq, d, k) {
      var k :| 1 <= k <= 7 && t == RayTarget(sq, d, k) && ClearPath(b, sq, d, k);
      assert r[k - 1] == t;
    }
  }

  /**
    For an occupied source, a square is a kill of a ray exactly when every
    step before it is empty and it holds a piece of the other colour.
  */
  lemma {:induction false} RayKillsEndClearPaths(b: Board, sq: Square, d: Direction, t: Square)
    requires !IsEmpty(b, sq)
    ensures t in RayKills(b, sq, d, 1) <==>
      exists k :: 1 <= k <= 7 && t == RayTarget(sq, d, k) && ClearPath(b, sq, d, k - 1) && EnemyAt(b, sq, t)
  {
    var r := RayMoves(b, sq, d, 1);
    RayRunIsLongestClearPath(b, sq, d);
    if t in RayKills(b, sq, d, 1) {
      assert t == RayTarget(sq, d, |r| + 1);
      assert ClearPath(b, sq, d, (|r| + 1) - 1);
    }
    if exists k :: 1 <= k <= 7 && t == RayTarget(sq, d, k) && ClearPath(b, sq, d, k - 1) && EnemyAt(b, sq, t) {
      var k :| 1 <= k <= 7 && t == RayTarget(sq, d, k) && ClearPath(b, sq, d, k - 1) && EnemyAt(b, sq, t);
      assert k - 1 <= |r|;
      if k - 1 < |r| {
        assert false;
      }
    }
  }

  /** Sliding quietly over a list of directions is sliding over each in turn. */
  lemma {:induction false} SlideMovesConcat(b: Board, sq: Square, d1: seq<Direction>, d2: seq<Direction>)
    ensures SlideMoves(b, sq, d1 + d2) == SlideMoves(b, sq, d1) + SlideMoves(b, sq, d2)
  {
    if d1 == [] {
      assert d1 + d2 == d2;
    } else {
      assert (d1 + d2)[0] == d1[0];
      assert (d1 + d2)[1..] == d1[1..] + d2;
      SlideMovesConcat(b, sq, d1[1..], d2);
    }
  }

  /** Killing over a list of directions is killing over each in turn. */
  lemma {:induction false} SlideKillsConcat(b: Board, sq: Square, d1: seq<Direction>, d2: seq<Direction>)
    ensures SlideKills(b, sq, d1 + d2) == SlideKills(b, sq, d1) + SlideKills(b, sq, d2)
  {
    if d1 == [] {
      assert d1 + d2 == d2;
    } else {
      assert (d1 + d2)[0] == d1[0];
      assert (d1 + d2)[1..] == d1[1..] + d2;
      SlideKillsConcat(b, sq, d1[1..], d2);
    }
  }

  const QueenDirections: seq<Direction> := RookDirections + BishopDirections

  /** The queen's lists are the walks along the eight rays, rook rays first. */
  lemma QueenWalksEightRays(b: Board, sq: Square)
    ensures QueenMoves(b, sq) == SlideMoves(b, sq, QueenDirections)
    ensures QueenKills(b, sq) == SlideKills(b, sq, QueenDirections)
  {
    SlideMovesConcat(b, sq, RookDirections, BishopDirections);
    SlideKillsConcat(b, sq, RookDirections, BishopDirections);
  }

  /** `t` ends a clear walk of `k` steps along `d`: every step up to and including it is on the board and empty. */
  ghost predicate QuietReach(b: Board, sq: Square, d: Direction, k: int, t: Coord) {
    1 <= k <= 7 && t == RayTarget(sq, d, k) && ClearPath(b, sq, d, k)
  }

  /**
    `t`, at step `k` along `d`, holds a piece of the other colour and every
    step before it is empty; from an empty cell only step 1 can be a kill.
  */
  ghost predicate KillReach(b: Board, sq: Square, d: Direction, k: int, t: Coord) {
    1 <= k <= 7 && t == RayTarget(sq, d, k) && ClearPath(b, sq, d, k - 1) && EnemyAt(b, sq, t) &&
    (IsEmpty(b, sq) ==> k == 1)
  }

  /** The kills of one ray, from an occupied or an empty cell, in terms of `KillReach`. */
  lemma RayKillsReach(b: Board, sq: Square, d: Direction, t: Square)
    ensures t in RayKills(b, sq, d, 1) <==> exists k :: KillReach(b, sq, d, k, t)
  {
    if t in RayKills(b, sq, d, 1) {
      if IsEmpty(b, sq) {
        assert t == RayTarget(sq, d, 1);
        assert KillReach(b, sq, d, 1, t);
      } else {
        RayKillsEndClearPaths(b, sq, d, t);
        var k :| 1 <= k <= 7 && t == RayTarget(sq, d, k) && ClearPath(b, sq, d, k - 1) && EnemyAt(b, sq, t);
        assert KillReach(b, sq, d, k, t);
      }
    }
    if exists k :: KillReach(b, sq, d, k, t) {
      var k :| KillReach(b, sq, d, k, t);
      if IsEmpty(b, sq) {
        assert RayKills(b, sq, d, 1) == EnemyStop(b, sq, d, 1);
      } else {
        RayKillsEndClearPaths(b, sq, d, t);
      }
    }
  }

  /** A sliding piece's quiet moves over `dirs` are the ends of clear walks along one of the directions. */
  lemma SlideMovesReach(b: Board, sq: Square, dirs: seq<Direction>, t: Square)
    ensures t in SlideMoves(b, sq, dirs) <==> exists i, k :: 0 <= i < |dirs| && QuietReach(b, sq, dirs[i], k, t)
  {
    if t in SlideMoves(b, sq, dirs) {
      var i :| 0 <= i < |dirs| && t in RayMoves(b, sq, dirs[i], 1);
      RayMovesAreClearPaths(b, sq, dirs[i], t);
      var k :| 1 <= k <= 7 && t == RayTarget(sq, dirs[i], k) && ClearPath(b, sq, dirs[i], k);
      assert QuietReach(b, sq, dirs[i], k, t);
    }
    if exists i, k :: 0 <= i < |dirs| && QuietReach(b, sq, dirs[i], k, t) {
      var i, k :| 0 <= i < |dirs| && QuietReach(b, sq, dirs[i], k, t);
      RayMovesAreClearPaths(b, sq, dirs[i], t);
      assert t in RayMoves(b, sq, dirs[i], 1);
    }
  }

  /**
    A sliding piece's kills over `dirs` are the enemy pieces that end a clear
    walk along one of the directions; from an empty cell only the first step
    of each ray can be a kill.
  */
  lemma SlideKillsReach(b: Board, sq: Square, dirs: seq<Direction>, t: Square)
    ensures t in SlideKills(b, sq, dirs) <==> exists i, k :: 0 <= i < |dirs| && KillReach(b, sq, dirs[i], k, t)
  {
    if t in SlideKills(b, sq, dirs) {
      var i :| 0 <= i < |dirs| && t in RayKills(b, sq, dirs[i], 1);
      RayKillsReach(b, sq, dirs[i], t);
      var k :| KillReach(b, sq, dirs[i], k, t);
      assert 0 <= i < |dirs| && KillReach(b, sq, dirs[i], k, t);
    }
    if exists i, k :: 0 <= i < |dirs| && KillReach(b, sq, dirs[i], k, t) {
      var i, k :| 0 <= i < |dirs| && KillReach(b, sq, dirs[i], k, t);
      RayKillsReach(b, sq, dirs[i], t);
      assert t in RayKills(b, sq, dirs[i], 1);
    }
  }

  /** The rook walks the four file and rank rays. */
  lemma RookRays(b: Board, sq: Square, t: Square)
    ensures t in RookMoves(b, sq) <==> exists i, k :: 0 <= i < 4 && QuietReach(b, sq, RookDirections[i], k, t)
    ensures t in RookKills(b, sq) <==> exists i, k :: 0 <= i < 4 && KillReach(b, sq, RookDirections[i], k, t)
  {
    SlideMovesReach(b, sq, RookDirections, t);
    SlideKillsReach(b, sq, RookDirections, t);
  }

  /** The bishop walks the four diagonal rays. */
  lemma BishopRays(b: Board, sq: Square, t: Square)
    ensures t in BishopMoves(b, sq) <==> exists i, k :: 0 <= i < 4 && QuietReach(b, sq, BishopDirections[i], k, t)
    ensures t in BishopKills(b, sq) <==> exists i, k :: 0 <= i < 4 && KillReach(b, sq, BishopDirections[i], k, t)
  {
    SlideMovesReach(b, sq, BishopDirections, t);
    SlideKillsReach(b, sq, BishopDirections, t);
  }

  /** The queen walks all eight rays. */
  lemma QueenRays(b: Board, sq: Square, t: Square)
    ensures t in QueenMoves(b, sq) <==> exists i, k :: 0 <= i < 8 && QuietReach(b, sq, QueenDirections[i], k, t)
    ensures t in QueenKills(b, sq) <==> exists i, k :: 0 <= i < 8 && KillReach(b, sq, QueenDirections[i], k, t)
  {
    QueenWalksEightRays(b, sq);
    SlideMovesReach(b, sq, QueenDirections, t);
    SlideKillsReach(b, sq, QueenDirections, t);
  }

  /** The pseudo-legal quiet moves of each kind of piece, each described by its geometry. */
  lemma PseudoMovesByKind(b: Board, sq: Square, k: Kind, c: Color, t: Square)
    ensures t in PseudoMoves(b, sq, k, c) <==>
      match k
      case King => Adjacent(sq, t) && IsEmpty(b, t)
      case Knight => KnightJump(sq, t) && IsEmpty(b, t)
      case Pawn =>
        IsEmpty(b, t) && (t == Shift(sq, 0, Forward(c)) || (sq.rank == HomeRank(c) && t == Shift(sq, 0, 2 * Forward(c))))
      case Rook => exists i, j :: 0 <= i < 4 && QuietReach(b, sq, RookDirections[i], j, t)
      case Bishop => exists i, j :: 0 <= i < 4 && QuietReach(b, sq, BishopDirections[i], j, t)
      case Queen => exists i, j :: 0 <= i < 8 && QuietReach(b, sq, QueenDirections[i], j, t)
  {
    match k
    case Rook => RookRays(b, sq, t);
    case Bishop => BishopRays(b, sq, t);
    case Queen => QueenRays(b, sq, t);
    case _ =>
  }

  /** The pseudo-legal kills of each kind of piece, each described by its geometry. */
  lemma PseudoKillsByKind(b: Board, sq: Square, k: Kind, c: Color, t: Square)
    ensures t in PseudoKills(b, sq, k, c) <==>
      match k
      case King => Adjacent(sq, t) && EnemyAt(b, sq, t)
      case Knight => KnightJump(sq, t) && EnemyAt(b, sq, t)
      case Pawn => (t == Shift(sq, 1, Forward(c)) || t == Shift(sq, -1, Forward(c))) && EnemyAt(b, sq, t)
      case Rook => exists i, j :: 0 <= i < 4 && KillReach(b, sq, RookDirections[i], j, t)
      case Bishop => exists i, j :: 0 <= i < 4 && KillReach(b, sq, BishopDirections[i], j, t)
      case Queen => exists i, j :: 0 <= i < 8 && KillReach(b, sq, QueenDirections[i], j, t)
  {
    match k
    case Rook => RookRays(b, sq, t);
    case Bishop => BishopRays(b, sq, t);
    case Queen => QueenRays(b, sq, t);
    case _ =>
  }

  /** Every square a sliding piece walks to quietly is empty. */
  lemma SlideMoveTargets(b: Board, sq: Square, dirs: seq<Direction>)
    ensures forall t :: t in SlideMoves(b, sq, dirs) ==> IsEmpty(b, t)
  {
    forall t | t in SlideMoves(b, sq, dirs)
      ensures IsEmpty(b, t)
    {
      var i :| 0 <= i < |dirs| && t in RayMoves(b, sq, dirs[i], 1);
      var r := RayMoves(b, sq, dirs[i], 1);
      var j :| 0 <= j < |r| && r[j] == t;
    }
  }

  /** Every square a sliding piece kills on holds a piece of another colour. */
  lemma SlideKillTargets(b: Board, sq: Square, dirs: seq<Direction>)
    ensures forall t :: t in SlideKills(b, sq, dirs) ==> EnemyAt(b, sq, t)
  {
    forall t | t in SlideKills(b, sq, dirs)
      ensures EnemyAt(b, sq, t)
    {
      var i :| 0 <= i < |dirs| && t in RayKills(b, sq, dirs[i], 1);
    }
  }

  /** Every quiet-move target is empty; every kill target holds a piece of another colour than the source. */
  lemma PseudoTargets(b: Board, sq: Square, k: Kind, c: Color)
    ensures forall t :: t in PseudoMoves(b, sq, k, c) ==> IsEmpty(b, t)
    ensures forall t :: t in PseudoKills(b, sq, k, c) ==> EnemyAt(b, sq, t)
  {
    match k
    case Rook =>
      SlideMoveTargets(b, sq, RookDirections);
      SlideKillTargets(b, sq, RookDirections);
    case Bishop =>
      SlideMoveTargets(b, sq, BishopDirections);
      SlideKillTargets(b, sq, BishopDirections);
    case Queen =>
      SlideMoveTargets(b, sq, RookDirections);
      SlideKillTargets(b, sq, RookDirections);
      SlideMoveTargets(b, sq, BishopDirections);
      SlideKillTargets(b, sq, BishopDirections);
    case _ =>
  }

  /** No square is both a quiet move and a kill, and a piece never targets its own square. */
  lemma {:induction false} MovesAndKillsDisjoint(b: Board, sq: Square, k: Kind, c: Color)
    ensures forall t :: !(t in PseudoMoves(b, sq, k, c) && t in PseudoKills(b, sq, k, c))
    ensures !IsEmpty(b, sq) ==> sq !in PseudoMoves(b, sq, k, c) && sq !in PseudoKills(b, sq, k, c)
  {
    PseudoTargets(b, sq, k, c);
  }

  /** The double step of a pawn on its home rank only looks at its destination: it passes over an occupied middle square. */
  lemma PawnDoubleStepIgnoresMiddle(b: Board, sq: Square, c: Color, middle: Square, dest: Square)
    requires sq.rank == HomeRank(c)
    requires middle == Shift(sq, 0, Forward(c)) && dest == Shift(sq, 0, 2 * Forward(c))
    requires !IsEmpty(b, middle) && IsEmpty(b, dest)
    ensures dest in PawnMoves(b, sq, c)
    ensures middle !in PawnMoves(b, sq, c)
  {
  }
}
