/**
 * Making a move (App.js:302-308): the tapped destination receives the moving
 * piece, marked as moved and promoted to a queen when a pawn reaches the far
 * rank; the source square is cleared. The turn toggle that follows
 * (App.js:313) is `Pieces.EnemyColor`.
 */
module Mutator {
  import opened Wrappers
  import opened Pieces
  import opened Generators
  import opened Legality

  /** The rank a pawn of side c promotes on: the far side of the board from its start. */
  function BackRank(c: Color): (r: int)
    ensures InBounds(0, r) && !InBounds(0, r + PawnDir(c))
    ensures r == StartRank(c) + 6 * PawnDir(c)
  {
    if c == Yellow then 0 else 7
  }

  /**
   * The kind of the piece on arrival: only a pawn changes, into a queen, and
   * only on its back rank; in particular a hero stays a hero and nothing
   * becomes one.
   */
  function PromotedKind(kind: string, c: Color, ty: int): (k: string)
    ensures kind != "P" ==> k == kind
    ensures kind == "P" ==> (k == "Q" <==> ty == BackRank(c)) && (k == "P" <==> ty != BackRank(c))
    ensures k == "H" <==> kind == "H"
  {
    if kind == "P" && ty == BackRank(c) then "Q" else kind
  }

  /**
   * The board after the piece on (fx, fy) moves to (tx, ty): the destination
   * holds it, promoted and marked as moved, whatever stood there before is
   * gone, and the source square is empty. Nothing else changes.
   */
  function MovedBoard(b: Board, fx: int, fy: int, tx: int, ty: int): (nb: Board)
    requires ValidBoard(b) && InBounds(fx, fy) && InBounds(tx, ty) && b[fy][fx].Some?
    ensures ValidBoard(nb)
    ensures nb[fy][fx] == None
    ensures (tx, ty) != (fx, fy) ==>
      var src := b[fy][fx].value;
      nb[ty][tx] == Some(Piece(PromotedKind(src.kind, src.color, ty), src.color, true))
    ensures forall yy, xx :: 0 <= yy < SIZE && 0 <= xx < SIZE && (xx, yy) != (fx, fy) && (xx, yy) != (tx, ty) ==>
      nb[yy][xx] == b[yy][xx]
  {
    var src := b[fy][fx].value;
    var placed := b[ty := b[ty][tx := Some(Piece(PromotedKind(src.kind, src.color, ty), src.color, true))]];
    placed[fy := placed[fy][fx := None]]
  }

  /** The update of App.js:302-308 on a fresh copy of the board. */
  method ApplyMove(b: Board, fx: int, fy: int, tx: int, ty: int) returns (nb: Board)
    requires ValidBoard(b) && InBounds(fx, fy) && InBounds(tx, ty) && b[fy][fx].Some?
    ensures nb == MovedBoard(b, fx, fy, tx, ty)
  {
    // cloneBoard: a board is a value, so the caller's board is untouched
    nb := b;
    var src := nb[fy][fx].value;
    var isPawn := src.kind == "P";
    var backRank := if src.color == Yellow then 0 else 7;
    var newKind := if isPawn && ty == backRank then "Q" else src.kind;
    nb := nb[ty := nb[ty][tx := Some(Piece(newKind, src.color, true))]];
    nb := nb[fy := nb[fy][fx := None]];
  }

  // ---------------------------------------------------------------------------
  // The move that is made is the move that was checked
  // ---------------------------------------------------------------------------

  /** Side c has the same heroes on both boards. */
  ghost predicate SameHeroes(b1: Board, b2: Board, c: Color)
    requires ValidBoard(b1) && ValidBoard(b2)
  {
    forall xx, yy :: InBounds(xx, yy) ==> (IsHeroOf(b1, xx, yy, c) <==> IsHeroOf(b2, xx, yy, c))
  }

  lemma HeroSquareSame(b1: Board, b2: Board, c: Color)
    requires ValidBoard(b1) && ValidBoard(b2) && SameHeroes(b1, b2, c)
    ensures HeroSquare(b1, c) == HeroSquare(b2, c)
  {
    match HeroSquare(b1, c)
    case Some(p) => HeroSquareUnique(b2, c, p.x, p.y);
    case None =>
      match HeroSquare(b2, c)
      case Some(_) => assert false;
      case None =>
  }

  /**
   * Check by pseudo-legal moves (depth 0): whether side c's hero is attacked
   * by the enemy's pseudo-legal moves depends only on the occupancy, on
   * where c's heroes are, and on the kinds of the enemy pieces.
   */
  lemma CheckInvariance(b1: Board, b2: Board, c: Color)
    requires ValidBoard(b1) && ValidBoard(b2) && SameOccupancy(b1, b2) && SameHeroes(b1, b2, c)
    requires forall xx, yy :: InBounds(xx, yy) && b1[yy][xx].Some? && b1[yy][xx].value.color != c ==>
      b1[yy][xx].value.kind == b2[yy][xx].value.kind
    ensures HeroInCheck(b1, c, 0) == HeroInCheck(b2, c, 0)
  {
    HeroSquareSame(b1, b2, c);
    match HeroSquare(b1, c)
    case None =>
    case Some(h) =>
      var e := EnemyColor(c);
      forall xx, yy | InBounds(xx, yy) ensures Attacks(b1, xx, yy, e, h, 0) == Attacks(b2, xx, yy, e, h, 0) {
        if b1[yy][xx].Some? && b1[yy][xx].value.color == e {
          PseudoMovesOccupancy(b1, b2, xx, yy);
        }
      }
  }

  /**
   * The board the move produces and the what-if board the legality test
   * looked at differ only in the moving piece's kind and `moved` flag, which
   * do not change whether the mover's hero is attacked.
   */
  lemma MovedBoardAsSimulated(b: Board, fx: int, fy: int, tx: int, ty: int)
    requires ValidBoard(b) && InBounds(fx, fy) && InBounds(tx, ty) && b[fy][fx].Some?
    ensures var c := b[fy][fx].value.color;
      HeroInCheck(MovedBoard(b, fx, fy, tx, ty), c, 0) == HeroInCheck(Simulate(b, fx, fy, tx, ty), c, 0)
  {
    var c := b[fy][fx].value.color;
    var b1 := MovedBoard(b, fx, fy, tx, ty);
    var b2 := Simulate(b, fx, fy, tx, ty);
    assert SameOccupancy(b1, b2);
    assert SameHeroes(b1, b2, c);
    CheckInvariance(b1, b2, c);
  }

  /**
   * Making any move the game offers never leaves the mover's hero attacked
   * by a pseudo-legal enemy move, promotion included.
   */
  lemma LegalMoveKeepsHeroSafe(b: Board, x: int, y: int, m: Pos)
    requires ValidBoard(b) && InBounds(x, y) && b[y][x].Some? && m in LegalMoves(b, x, y)
    ensures InBounds(m.x, m.y) && m != Pos(x, y)
    ensures !HeroInCheck(MovedBoard(b, x, y, m.x, m.y), b[y][x].value.color, 0)
  {
    MovedBoardAsSimulated(b, x, y, m.x, m.y);
  }
}
