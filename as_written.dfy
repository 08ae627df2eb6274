/**
 * The legality recursion exactly as App.js:62, App.js:76 and App.js:110
 * write it: `genMoves` filters its candidates through `isMoveLegal`, which
 * runs `isHeroInCheck` on the what-if board, which calls the same filtering
 * `genMoves` for every enemy piece, in row-major order, until one reaches
 * the hero. Nothing bounds the depth.
 *
 * Each function here evaluates that recursion in the source's order with a
 * budget of `fuel` nested `genMoves` calls, and returns None when the budget
 * runs out before the outermost call returns. Where it does return, it is
 * the bounded model's answer at every larger depth (MovesAgree and its
 * companions). CornerHeroesNeverReturn shows a board on which no budget
 * suffices: the source's `genMoves` does not return there (in JavaScript,
 * the call stack overflows).
 */
module AsWritten {
  import opened Wrappers
  import opened Pieces
  import opened Generators
  import opened Legality

  /** `genMoves` as written, with at most `fuel` nested calls. */
  function AWMoves(b: Board, x: int, y: int, fuel: nat): (r: Option<seq<Pos>>)
    requires ValidBoard(b) && InBounds(x, y)
    ensures fuel == 0 ==> r.None?
    ensures fuel > 0 && b[y][x].None? ==> r == Some([])
    ensures r.Some? ==> IsSublist(r.value, PseudoMoves(b, x, y))
    decreases fuel, 0, 0, 0
  {
    if fuel == 0 then None
    else if b[y][x].None? then
      Some([])
    else
      AWFilter(b, x, y, b[y][x].value.color, PseudoMoves(b, x, y), fuel - 1)
  }

  /** `moves.filter(m => isMoveLegal(...))`, evaluated from the first candidate on. */
  function AWFilter(b: Board, x: int, y: int, c: Color, cands: seq<Pos>, fuel: nat): (r: Option<seq<Pos>>)
    requires ValidBoard(b) && InBounds(x, y)
    requires forall m :: m in cands ==> InBounds(m.x, m.y)
    ensures r.Some? ==> IsSublist(r.value, cands)
    decreases fuel, 4, |cands|, 0
  {
    if cands == [] then Some([])
    else
      var last := cands[|cands| - 1];
      match AWFilter(b, x, y, c, cands[..|cands| - 1], fuel)
      case None => None
      case Some(kept) =>
        match AWLegal(b, x, y, last.x, last.y, c, fuel)
        case None => None
        case Some(ok) =>
          if ok then
            var r := kept + [last];
            assert r[..|r| - 1] == kept && r[|r| - 1] == cands[|cands| - 1];
            Some(r)
          else
            Some(kept)
  }

  /** `isMoveLegal` as written: a move after which side c has no hero is always legal. */
  function AWLegal(b: Board, fx: int, fy: int, tx: int, ty: int, c: Color, fuel: nat): (r: Option<bool>)
    requires ValidBoard(b) && InBounds(fx, fy) && InBounds(tx, ty)
    ensures HeroSquare(Simulate(b, fx, fy, tx, ty), c).None? ==> r == Some(true)
    decreases fuel, 3, 0, 0
  {
    match AWCheck(Simulate(b, fx, fy, tx, ty), c, fuel)
    case None => None
    case Some(inCheck) => Some(!inCheck)
  }

  /** `isHeroInCheck` as written. */
  function AWCheck(b: Board, c: Color, fuel: nat): (r: Option<bool>)
    requires ValidBoard(b)
    ensures HeroSquare(b, c).None? ==> r == Some(false)
    decreases fuel, 2, 0, 0
  {
    match HeroSquare(b, c)
    case None => Some(false)
    case Some(h) => AWScan(b, EnemyColor(c), h, 0, 0, fuel)
  }

  /** The enemy-piece loop of `isHeroInCheck` from (x, y) on, stopping at the first piece that reaches h. */
  function AWScan(b: Board, e: Color, h: Pos, x: int, y: int, fuel: nat): (r: Option<bool>)
    requires ValidBoard(b) && 0 <= x <= SIZE && 0 <= y <= SIZE
    decreases fuel, 1, SIZE - y, SIZE - x
  {
    if y == SIZE then Some(false)
    else if x == SIZE then AWScan(b, e, h, 0, y + 1, fuel)
    else if b[y][x].Some? && b[y][x].value.color == e then
      match AWMoves(b, x, y, fuel)
      case None => None
      case Some(ms) => if h in ms then Some(true) else AWScan(b, e, h, x + 1, y, fuel)
    else AWScan(b, e, h, x + 1, y, fuel)
  }

  // ---------------------------------------------------------------------------
  // Where the source does return, it agrees with the bounded model
  // ---------------------------------------------------------------------------

  /**
   * When the source's `genMoves` returns within f nested calls, its answer
   * is the bounded model's at every depth F >= f.
   */
  lemma {:induction false} MovesAgree(b: Board, x: int, y: int, f: nat, F: nat)
    requires ValidBoard(b) && InBounds(x, y) && f <= F && AWMoves(b, x, y, f).Some?
    ensures AWMoves(b, x, y, f) == Some(Moves(b, x, y, F))
    decreases f, 0, 1, 0
  {
    if b[y][x].Some? {
      PieceMovesAgree(b, x, y, f, F, f - 1, F - 1);
    } else {
      MovesEmpty(b, x, y, f, F);
    }
  }

  /** The occupied case, with g + 1 == f and G + 1 == F so that the unfoldings line up. */
  lemma {:induction false} PieceMovesAgree(b: Board, x: int, y: int, f: nat, F: nat, g: nat, G: nat)
    requires ValidBoard(b) && InBounds(x, y) && b[y][x].Some? && f == g + 1 && F == G + 1 && g <= G
    requires AWMoves(b, x, y, f).Some?
    ensures AWMoves(b, x, y, f) == Some(Moves(b, x, y, F))
    decreases f, 0, 0, 0
  {
    var c := b[y][x].value.color;
    var cands := PseudoMoves(b, x, y);
    MovesUnfold(b, x, y, c, cands, g, G);
    FilterAgree(b, x, y, c, cands, g, G);
  }

  lemma MovesUnfold(b: Board, x: int, y: int, c: Color, cands: seq<Pos>, g: nat, G: nat)
    requires ValidBoard(b) && InBounds(x, y) && b[y][x].Some?
    requires c == b[y][x].value.color && cands == PseudoMoves(b, x, y)
    ensures forall m :: m in cands ==> InBounds(m.x, m.y)
    ensures AWMoves(b, x, y, g + 1) == AWFilter(b, x, y, c, cands, g)
    ensures Moves(b, x, y, G + 1) == FilterLegal(b, x, y, c, cands, G)
  {
  }

  lemma MovesEmpty(b: Board, x: int, y: int, f: nat, F: nat)
    requires ValidBoard(b) && InBounds(x, y) && 0 < f && b[y][x].None?
    ensures AWMoves(b, x, y, f) == Some([]) && Moves(b, x, y, F) == []
  {
  }

  lemma {:induction false} FilterAgree(b: Board, x: int, y: int, c: Color, cands: seq<Pos>, f: nat, F: nat)
    requires ValidBoard(b) && InBounds(x, y) && f <= F
    requires forall m :: m in cands ==> InBounds(m.x, m.y)
    requires AWFilter(b, x, y, c, cands, f).Some?
    ensures AWFilter(b, x, y, c, cands, f) == Some(FilterLegal(b, x, y, c, cands, F))
    decreases f, 4, |cands|, 0
  {
    if cands != [] {
      var last := cands[|cands| - 1];
      var pre := cands[..|cands| - 1];
      assert forall m :: m in pre ==> m in cands;
      assert AWFilter(b, x, y, c, pre, f).Some?;
      FilterAgree(b, x, y, c, pre, f, F);
      assert AWLegal(b, x, y, last.x, last.y, c, f).Some?;
      LegalAgree(b, x, y, last.x, last.y, c, f, F);
    }
  }

  lemma {:induction false} LegalAgree(b: Board, fx: int, fy: int, tx: int, ty: int, c: Color, f: nat, F: nat)
    requires ValidBoard(b) && InBounds(fx, fy) && InBounds(tx, ty) && f <= F
    requires AWLegal(b, fx, fy, tx, ty, c, f).Some?
    ensures AWLegal(b, fx, fy, tx, ty, c, f).value == MoveIsLegal(b, fx, fy, tx, ty, c, F)
    decreases f, 3, 0, 0
  {
    CheckAgree(Simulate(b, fx, fy, tx, ty), c, f, F);
  }

  lemma {:induction false} CheckAgree(b: Board, c: Color, f: nat, F: nat)
    requires ValidBoard(b) && f <= F && AWCheck(b, c, f).Some?
    ensures AWCheck(b, c, f).value == HeroInCheck(b, c, F)
    decreases f, 2, 0, 0
  {
    match HeroSquare(b, c)
    case None =>
    case Some(h) =>
      assert AWCheck(b, c, f) == AWScan(b, EnemyColor(c), h, 0, 0, f);
      assert HeroInCheck(b, c, F) == AttackerFrom(b, EnemyColor(c), h, 0, 0, F);
      ScanAgree(b, EnemyColor(c), h, 0, 0, f, F);
  }

  lemma {:induction false} ScanAgree(b: Board, e: Color, h: Pos, x: int, y: int, f: nat, F: nat)
    requires ValidBoard(b) && 0 <= x <= SIZE && 0 <= y <= SIZE && f <= F
    requires AWScan(b, e, h, x, y, f).Some?
    ensures AWScan(b, e, h, x, y, f).value == AttackerFrom(b, e, h, x, y, F)
    decreases f, 1, SIZE - y, SIZE - x, 1
  {
    if y == SIZE {
    } else if x == SIZE {
      ScanRowEnd(b, e, h, y, f, F);
      ScanAgree(b, e, h, 0, y + 1, f, F);
    } else if b[y][x].Some? && b[y][x].value.color == e {
      EnemyScanAgree(b, e, h, x, y, f, F);
    } else {
      ScanOther(b, e, h, x, y, f, F);
      ScanAgree(b, e, h, x + 1, y, f, F);
    }
  }

  /** The scan step at an enemy piece: its moves agree, so both loops stop or both go on. */
  lemma {:induction false} EnemyScanAgree(b: Board, e: Color, h: Pos, x: int, y: int, f: nat, F: nat)
    requires ValidBoard(b) && InBounds(x, y) && b[y][x].Some? && b[y][x].value.color == e && f <= F
    requires AWScan(b, e, h, x, y, f).Some?
    ensures AWScan(b, e, h, x, y, f).value == AttackerFrom(b, e, h, x, y, F)
    decreases f, 1, SIZE - y, SIZE - x, 0
  {
    ScanEnemy(b, e, h, x, y, f, F);
    MovesAgree(b, x, y, f, F);
    if h !in Moves(b, x, y, F) {
      ScanAgree(b, e, h, x + 1, y, f, F);
    }
  }

  lemma ScanRowEnd(b: Board, e: Color, h: Pos, y: int, f: nat, F: nat)
    requires ValidBoard(b) && 0 <= y < SIZE
    ensures AWScan(b, e, h, SIZE, y, f) == AWScan(b, e, h, 0, y + 1, f)
    ensures AttackerFrom(b, e, h, SIZE, y, F) == AttackerFrom(b, e, h, 0, y + 1, F)
  {
  }

  lemma ScanOther(b: Board, e: Color, h: Pos, x: int, y: int, f: nat, F: nat)
    requires ValidBoard(b) && InBounds(x, y) && !(b[y][x].Some? && b[y][x].value.color == e)
    ensures AWScan(b, e, h, x, y, f) == AWScan(b, e, h, x + 1, y, f)
    ensures AttackerFrom(b, e, h, x, y, F) == AttackerFrom(b, e, h, x + 1, y, F)
  {
  }

  lemma ScanEnemy(b: Board, e: Color, h: Pos, x: int, y: int, f: nat, F: nat)
    requires ValidBoard(b) && InBounds(x, y) && b[y][x].Some? && b[y][x].value.color == e
    requires AWScan(b, e, h, x, y, f).Some?
    ensures AWMoves(b, x, y, f).Some?
    ensures AWScan(b, e, h, x, y, f) ==
      if h in AWMoves(b, x, y, f).value then Some(true) else AWScan(b, e, h, x + 1, y, f)
    ensures AttackerFrom(b, e, h, x, y, F) == (h in Moves(b, x, y, F) || AttackerFrom(b, e, h, x + 1, y, F))
  {
  }

  // ---------------------------------------------------------------------------
  // When the first recursive call does not return, nothing does
  // ---------------------------------------------------------------------------

  lemma {:induction false} FilterFirstNone(b: Board, x: int, y: int, c: Color, cands: seq<Pos>, fuel: nat)
    requires ValidBoard(b) && InBounds(x, y)
    requires forall m :: m in cands ==> InBounds(m.x, m.y)
    requires cands != [] && AWLegal(b, x, y, cands[0].x, cands[0].y, c, fuel).None?
    ensures AWFilter(b, x, y, c, cands, fuel).None?
  {
    var n := |cands| - 1;
    if n > 0 {
      var pre := cands[..n];
      assert pre[0] == cands[0];
      assert forall m :: m in pre ==> m in cands;
      FilterFirstNone(b, x, y, c, pre, fuel);
    }
  }

  /** Squares that hold no piece of side e are skipped by the scan. */
  lemma {:induction false} ScanSkips(b: Board, e: Color, h: Pos, x: int, y: int, tx: int, ty: int, fuel: nat)
    requires ValidBoard(b) && 0 <= x <= SIZE && 0 <= y <= SIZE && InBounds(tx, ty) && !Before(tx, ty, x, y)
    requires forall xx, yy :: InBounds(xx, yy) && !Before(xx, yy, x, y) && Before(xx, yy, tx, ty) ==>
      b[yy][xx].None? || b[yy][xx].value.color != e
    ensures AWScan(b, e, h, x, y, fuel) == AWScan(b, e, h, tx, ty, fuel)
    decreases SIZE - y, SIZE - x
  {
    if (x, y) != (tx, ty) {
      if x == SIZE {
        ScanSkips(b, e, h, 0, y + 1, tx, ty, fuel);
      } else {
        ScanSkips(b, e, h, x + 1, y, tx, ty, fuel);
      }
    }
  }

  /**
   * If the piece's first candidate m leads to a what-if board on which the
   * first enemy piece in row-major order does not return, the piece's own
   * `genMoves` does not return either.
   */
  lemma FirstCallDiverges(b: Board, x: int, y: int, c: Color, m: Pos, nb: Board, h: Pos, ex: int, ey: int, fuel: nat)
    requires ValidBoard(b) && InBounds(x, y) && b[y][x].Some? && b[y][x].value.color == c && fuel > 0
    requires PseudoMoves(b, x, y) != [] && PseudoMoves(b, x, y)[0] == m && InBounds(m.x, m.y)
    requires nb == Simulate(b, x, y, m.x, m.y) && HeroSquare(nb, c) == Some(h)
    requires InBounds(ex, ey) && nb[ey][ex].Some? && nb[ey][ex].value.color == EnemyColor(c)
    requires forall xx, yy :: InBounds(xx, yy) && Before(xx, yy, ex, ey) ==>
      nb[yy][xx].None? || nb[yy][xx].value.color != EnemyColor(c)
    requires AWMoves(nb, ex, ey, fuel - 1).None?
    ensures AWMoves(b, x, y, fuel).None?
  {
    var e := EnemyColor(c);
    ScanSkips(nb, e, h, 0, 0, ex, ey, fuel - 1);
    assert AWScan(nb, e, h, ex, ey, fuel - 1).None?;
    assert AWCheck(nb, c, fuel - 1) == AWScan(nb, e, h, 0, 0, fuel - 1);
    assert AWLegal(b, x, y, m.x, m.y, c, fuel - 1).None?;
    FilterFirstNone(b, x, y, c, PseudoMoves(b, x, y), fuel - 1);
  }

  // ---------------------------------------------------------------------------
  // A board on which the source's genMoves never returns
  // ---------------------------------------------------------------------------

  const YellowHero: Piece := Piece("H", Yellow, false)
  const BlueHero: Piece := Piece("H", Blue, false)

  /** The cell of the board with only a yellow hero on (yx, 7) and a blue hero on (bx, 0). */
  function CornerCell(yx: int, bx: int, x: int, y: int): Cell
  {
    if x == yx && y == 7 then Some(YellowHero) else if x == bx && y == 0 then Some(BlueHero) else None
  }

  function CornerBoard(yx: int, bx: int): (b: Board)
    ensures ValidBoard(b)
    ensures forall y, x :: 0 <= y < SIZE && 0 <= x < SIZE ==> b[y][x] == CornerCell(yx, bx, x, y)
  {
    seq(SIZE, y requires 0 <= y < SIZE => seq(SIZE, x requires 0 <= x < SIZE => CornerCell(yx, bx, x, y)))
  }

  lemma CornerHeroSquares(yx: int, bx: int)
    requires 0 <= yx < SIZE && 0 <= bx < SIZE
    ensures HeroSquare(CornerBoard(yx, bx), Yellow) == Some(Pos(yx, 7))
    ensures HeroSquare(CornerBoard(yx, bx), Blue) == Some(Pos(bx, 0))
  {
    HeroSquareUnique(CornerBoard(yx, bx), Yellow, yx, 7);
    HeroSquareUnique(CornerBoard(yx, bx), Blue, bx, 0);
  }

  lemma BoardsEqual(b1: Board, b2: Board)
    requires ValidBoard(b1) && ValidBoard(b2)
    requires forall y, x :: 0 <= y < SIZE && 0 <= x < SIZE ==> b1[y][x] == b2[y][x]
    ensures b1 == b2
  {
    assert forall y :: 0 <= y < SIZE ==> b1[y] == b2[y];
  }

  lemma CornerMoveYellow(yx: int, bx: int, nyx: int)
    requires 0 <= yx < SIZE && 0 <= bx < SIZE && 0 <= nyx < SIZE && nyx != yx
    ensures Simulate(CornerBoard(yx, bx), yx, 7, nyx, 7) == CornerBoard(nyx, bx)
  {
    BoardsEqual(Simulate(CornerBoard(yx, bx), yx, 7, nyx, 7), CornerBoard(nyx, bx));
  }

  lemma CornerMoveBlue(yx: int, bx: int, nbx: int)
    requires 0 <= yx < SIZE && 0 <= bx < SIZE && 0 <= nbx < SIZE && nbx != bx
    ensures Simulate(CornerBoard(yx, bx), bx, 0, nbx, 0) == CornerBoard(yx, nbx)
  {
    BoardsEqual(Simulate(CornerBoard(yx, bx), bx, 0, nbx, 0), CornerBoard(yx, nbx));
  }

  lemma {:induction false} CycleA(fuel: nat)
    ensures AWMoves(CornerBoard(7, 7), 7, 7, fuel).None?
    decreases fuel, 3
  {
    if fuel > 0 {
      var b := CornerBoard(7, 7);
      HeroFirstCandidate(b, 7, 7);
      CornerMoveYellow(7, 7, 6);
      CornerHeroSquares(6, 7);
      if fuel > 1 {
        CycleB(fuel - 1);
      }
      FirstCallDiverges(b, 7, 7, Yellow, Pos(6, 7), Simulate(b, 7, 7, 6, 7), Pos(6, 7), 7, 0, fuel);
    }
  }

  lemma {:induction false} CycleB(fuel: nat)
    ensures AWMoves(CornerBoard(6, 7), 7, 0, fuel).None?
    decreases fuel, 2
  {
    if fuel > 0 {
      var b := CornerBoard(6, 7);
      HeroFirstCandidate(b, 7, 0);
      CornerMoveBlue(6, 7, 6);
      CornerHeroSquares(6, 6);
      if fuel > 1 {
        CycleC(fuel - 1);
      }
      FirstCallDiverges(b, 7, 0, Blue, Pos(6, 0), Simulate(b, 7, 0, 6, 0), Pos(6, 0), 6, 7, fuel);
    }
  }

  lemma {:induction false} CycleC(fuel: nat)
    ensures AWMoves(CornerBoard(6, 6), 6, 7, fuel).None?
    decreases fuel, 1
  {
    if fuel > 0 {
      var b := CornerBoard(6, 6);
      HeroFirstCandidate(b, 6, 7);
      CornerMoveYellow(6, 6, 7);
      CornerHeroSquares(7, 6);
      if fuel > 1 {
        CycleD(fuel - 1);
      }
      FirstCallDiverges(b, 6, 7, Yellow, Pos(7, 7), Simulate(b, 6, 7, 7, 7), Pos(7, 7), 6, 0, fuel);
    }
  }

  lemma {:induction false} CycleD(fuel: nat)
    ensures AWMoves(CornerBoard(7, 6), 6, 0, fuel).None?
    decreases fuel, 0
  {
    if fuel > 0 {
      var b := CornerBoard(7, 6);
      HeroFirstCandidate(b, 6, 0);
      CornerMoveBlue(7, 6, 7);
      CornerHeroSquares(7, 7);
      if fuel > 1 {
        CycleA(fuel - 1);
      }
      FirstCallDiverges(b, 6, 0, Blue, Pos(7, 0), Simulate(b, 6, 0, 7, 0), Pos(7, 0), 7, 7, fuel);
    }
  }

  /**
   * With only the two heroes on the board, yellow's on (7, 7) and blue's on
   * (7, 0), the source's `genMoves` for the yellow hero does not return
   * within any number of nested calls: the heroes shuttle between columns 6
   * and 7 and the what-if boards repeat every four calls.
   */
  lemma CornerHeroesNeverReturn(fuel: nat)
    ensures AWMoves(CornerBoard(7, 7), 7, 7, fuel).None?
  {
    CycleA(fuel);
  }

  /** The bounded rule answers the same call, and the step to (6, 7) is among its moves. */
  lemma CornerHeroesLegal()
    ensures Pos(6, 7) in LegalMoves(CornerBoard(7, 7), 7, 7)
  {
    var b := CornerBoard(7, 7);
    HeroFirstCandidate(b, 7, 7);
    CornerMoveYellow(7, 7, 6);
    CornerHeroSquares(6, 7);
    assert PseudoMoves(b, 7, 7)[0] in PseudoMoves(b, 7, 7);
    var nb := Simulate(b, 7, 7, 6, 7);
    assert !HeroInCheck(nb, Yellow, 0) by {
      forall xx, yy | InBounds(xx, yy) ensures !Attacks(nb, xx, yy, Blue, Pos(6, 7), 0) {
        if xx == 7 && yy == 0 {
          HeroReach(nb, 7, 0, Pos(6, 7));
        }
      }
    }
  }
}
