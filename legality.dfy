/**
 * Check detection and the legality filter (App.js:42-77 and App.js:110).
 *
 * In the source, `genMoves` keeps a candidate only if `isMoveLegal` holds,
 * `isMoveLegal` asks `isHeroInCheck` on the what-if board, and
 * `isHeroInCheck` calls the same filtering `genMoves` for every enemy piece.
 * Nothing in that cycle decreases. Here it is cut by a depth `fuel`:
 *
 *   Moves(b, x, y, 0)        = the pseudo-legal candidates, unfiltered;
 *   Moves(b, x, y, fuel + 1) = the candidates m with MoveIsLegal(..., m, fuel);
 *   MoveIsLegal(..., fuel)   = !HeroInCheck(what-if board, side, fuel);
 *   HeroInCheck(b, c, fuel)  = some enemy piece's Moves(..., fuel) reaches c's hero.
 *
 * LegalMoves = Moves(.., 1) is the rule the game states ("moves that put
 * your hero in check are blocked"): attacks on the hero are pseudo-legal
 * moves of the enemy. The unbounded recursion itself is the subject of the
 * module AsWritten.
 */
module Legality {
  import opened Wrappers
  import opened Pieces
  import opened Generators

  // ---------------------------------------------------------------------------
  // The what-if board of isMoveLegal (App.js:72-75)
  // ---------------------------------------------------------------------------

  /**
   * A copy of the board with the piece of (fx, fy) moved to (tx, ty) and
   * (fx, fy) cleared; the piece keeps its kind and its `moved` flag.
   */
  function Simulate(b: Board, fx: int, fy: int, tx: int, ty: int): (nb: Board)
    requires ValidBoard(b) && InBounds(fx, fy) && InBounds(tx, ty)
    ensures ValidBoard(nb)
    ensures nb[fy][fx] == None
    ensures (tx, ty) != (fx, fy) ==> nb[ty][tx] == b[fy][fx]
    ensures forall yy, xx :: 0 <= yy < SIZE && 0 <= xx < SIZE && (xx, yy) != (fx, fy) && (xx, yy) != (tx, ty) ==>
      nb[yy][xx] == b[yy][xx]
  {
    var placed := b[ty := b[ty][tx := b[fy][fx]]];
    placed[fy := placed[fy][fx := None]]
  }

  // ---------------------------------------------------------------------------
  // Finding the hero (App.js:44-55)
  // ---------------------------------------------------------------------------

  predicate IsHeroOf(b: Board, x: int, y: int, c: Color)
    requires ValidBoard(b) && InBounds(x, y)
  {
    b[y][x].Some? && b[y][x].value.kind == "H" && b[y][x].value.color == c
  }

  /** (x1, y1) comes before (x2, y2) in the row-major scan. */
  predicate Before(x1: int, y1: int, x2: int, y2: int)
  {
    y1 < y2 || (y1 == y2 && x1 < x2)
  }

  /** The scan of the hero search from (x, y) on; x == SIZE stands for the end of row y. */
  function FindHero(b: Board, c: Color, x: int, y: int): (r: Option<Pos>)
    requires ValidBoard(b) && 0 <= x <= SIZE && 0 <= y <= SIZE
    ensures r.Some? ==>
      && InBounds(r.value.x, r.value.y) && IsHeroOf(b, r.value.x, r.value.y, c)
      && !Before(r.value.x, r.value.y, x, y)
      && forall xx, yy :: InBounds(xx, yy) && !Before(xx, yy, x, y) && Before(xx, yy, r.value.x, r.value.y) ==>
           !IsHeroOf(b, xx, yy, c)
    ensures r.None? ==> forall xx, yy :: InBounds(xx, yy) && !Before(xx, yy, x, y) ==> !IsHeroOf(b, xx, yy, c)
    decreases SIZE - y, SIZE - x
  {
    if y == SIZE then None
    else if x == SIZE then FindHero(b, c, 0, y + 1)
    else if IsHeroOf(b, x, y, c) then Some(Pos(x, y))
    else FindHero(b, c, x + 1, y)
  }

  /** The square of the first hero of side c in row-major order, or None when c has no hero. */
  function HeroSquare(b: Board, c: Color): (r: Option<Pos>)
    requires ValidBoard(b)
    ensures r.Some? ==>
      && InBounds(r.value.x, r.value.y) && IsHeroOf(b, r.value.x, r.value.y, c)
      && forall xx, yy :: InBounds(xx, yy) && Before(xx, yy, r.value.x, r.value.y) ==> !IsHeroOf(b, xx, yy, c)
    ensures r.None? ==> forall xx, yy :: InBounds(xx, yy) ==> !IsHeroOf(b, xx, yy, c)
  {
    FindHero(b, c, 0, 0)
  }

  /** The hero square is the only square that is a hero of c with no hero of c before it. */
  lemma HeroSquareUnique(b: Board, c: Color, x: int, y: int)
    requires ValidBoard(b) && InBounds(x, y) && IsHeroOf(b, x, y, c)
    requires forall xx, yy :: InBounds(xx, yy) && Before(xx, yy, x, y) ==> !IsHeroOf(b, xx, yy, c)
    ensures HeroSquare(b, c) == Some(Pos(x, y))
  {
    var r := HeroSquare(b, c);
    assert r.Some?;
    var p := r.value;
    assert !Before(p.x, p.y, x, y) && !Before(x, y, p.x, p.y);
  }

  // ---------------------------------------------------------------------------
  // Check detection and the legality filter, cut at depth fuel
  // ---------------------------------------------------------------------------

  /** The piece at (x, y) belongs to side e and its moves at depth fuel reach h. */
  function Attacks(b: Board, x: int, y: int, e: Color, h: Pos, fuel: nat): bool
    requires ValidBoard(b) && InBounds(x, y)
    decreases fuel, 1, 0, 0
  {
    b[y][x].Some? && b[y][x].value.color == e && h in Moves(b, x, y, fuel)
  }

  /** Some square at or after (x, y) in row-major order holds an attacker of h. */
  function AttackerFrom(b: Board, e: Color, h: Pos, x: int, y: int, fuel: nat): (r: bool)
    requires ValidBoard(b) && 0 <= x <= SIZE && 0 <= y <= SIZE
    ensures r <==> exists xx, yy :: InBounds(xx, yy) && !Before(xx, yy, x, y) && Attacks(b, xx, yy, e, h, fuel)
    decreases fuel, 2, SIZE - y, SIZE - x
  {
    if y == SIZE then false
    else if x == SIZE then AttackerFrom(b, e, h, 0, y + 1, fuel)
    else Attacks(b, x, y, e, h, fuel) || AttackerFrom(b, e, h, x + 1, y, fuel)
  }

  /**
   * `isHeroInCheck`: false when side c has no hero; otherwise whether some
   * piece of the other side reaches the square of c's first hero.
   */
  function HeroInCheck(b: Board, c: Color, fuel: nat): (r: bool)
    requires ValidBoard(b)
    ensures HeroSquare(b, c).None? ==> !r
    ensures HeroSquare(b, c).Some? ==>
      (r <==> exists x, y :: InBounds(x, y) && Attacks(b, x, y, EnemyColor(c), HeroSquare(b, c).value, fuel))
    decreases fuel, 3, 0, 0
  {
    match HeroSquare(b, c)
    case None => false
    case Some(h) => AttackerFrom(b, EnemyColor(c), h, 0, 0, fuel)
  }

  /**
   * `isMoveLegal`: the move does not leave side c's hero attacked on the
   * what-if board; a side whose hero is gone after the move is never in check.
   */
  function MoveIsLegal(b: Board, fx: int, fy: int, tx: int, ty: int, c: Color, fuel: nat): (r: bool)
    requires ValidBoard(b) && InBounds(fx, fy) && InBounds(tx, ty)
    ensures HeroSquare(Simulate(b, fx, fy, tx, ty), c).None? ==> r
    decreases fuel, 4, 0, 0
  {
    !HeroInCheck(Simulate(b, fx, fy, tx, ty), c, fuel)
  }

  /** A move is legal iff, after it, no enemy piece reaches the square of the mover's first hero. */
  lemma MoveIsLegalSpec(b: Board, fx: int, fy: int, tx: int, ty: int, c: Color, fuel: nat)
    requires ValidBoard(b) && InBounds(fx, fy) && InBounds(tx, ty)
    ensures HeroSquare(Simulate(b, fx, fy, tx, ty), c).Some? ==>
      (MoveIsLegal(b, fx, fy, tx, ty, c, fuel) <==> forall x, y :: InBounds(x, y) ==>
        !Attacks(Simulate(b, fx, fy, tx, ty), x, y, EnemyColor(c), HeroSquare(Simulate(b, fx, fy, tx, ty), c).value, fuel))
  {
  }

  /** r is s with some elements left out, the rest in their order. */
  predicate IsSublist(r: seq<Pos>, s: seq<Pos>)
    decreases |s|
  {
    if s == [] then r == []
    else
      || IsSublist(r, s[..|s| - 1])
      || (r != [] && r[|r| - 1] == s[|s| - 1] && IsSublist(r[..|r| - 1], s[..|s| - 1]))
  }

  lemma {:induction false} SublistReflexive(s: seq<Pos>)
    ensures IsSublist(s, s)
  {
    if s != [] {
      SublistReflexive(s[..|s| - 1]);
    }
  }

  /** `moves.filter(m => isMoveLegal(...))` */
  function FilterLegal(b: Board, x: int, y: int, c: Color, cands: seq<Pos>, fuel: nat): (r: seq<Pos>)
    requires ValidBoard(b) && InBounds(x, y)
    requires forall m :: m in cands ==> InBounds(m.x, m.y)
    ensures IsSublist(r, cands)
    ensures forall m :: m in r <==> m in cands && MoveIsLegal(b, x, y, m.x, m.y, c, fuel)
    decreases fuel, 5, |cands|, 0
  {
    if cands == [] then []
    else
      var last := cands[|cands| - 1];
      var pre := cands[..|cands| - 1];
      var kept := FilterLegal(b, x, y, c, pre, fuel);
      assert cands == pre + [last];
      var ok := MoveIsLegal(b, x, y, last.x, last.y, c, fuel);
      if ok then
        var r := kept + [last];
        assert r[..|r| - 1] == kept && r[|r| - 1] == cands[|cands| - 1];
        assert IsSublist(r, cands);
        r
      else
        assert IsSublist(kept, cands);
        kept
  }

  /**
   * The filter keeps every copy of a legal candidate and no copy of any
   * other square, as `Array.prototype.filter` does.
   */
  lemma {:induction false} FilterLegalCounts(b: Board, x: int, y: int, c: Color, cands: seq<Pos>, fuel: nat, m: Pos)
    requires ValidBoard(b) && InBounds(x, y)
    requires forall m :: m in cands ==> InBounds(m.x, m.y)
    ensures multiset(FilterLegal(b, x, y, c, cands, fuel))[m] ==
      if m in cands && MoveIsLegal(b, x, y, m.x, m.y, c, fuel) then multiset(cands)[m] else 0
    decreases |cands|
  {
    if cands != [] {
      var last := cands[|cands| - 1];
      var pre := cands[..|cands| - 1];
      assert cands == pre + [last];
      assert multiset(cands) == multiset(pre) + multiset{last};
      assert forall m :: m in pre ==> m in cands;
      FilterLegalCounts(b, x, y, c, pre, fuel, m);
      var kept := FilterLegal(b, x, y, c, pre, fuel);
      if MoveIsLegal(b, x, y, last.x, last.y, c, fuel) {
        assert FilterLegal(b, x, y, c, cands, fuel) == kept + [last];
        assert multiset(kept + [last]) == multiset(kept) + multiset{last};
      } else {
        assert FilterLegal(b, x, y, c, cands, fuel) == kept;
      }
    }
  }

  /**
   * `genMoves` cut at depth fuel: none for an empty square or a kind missing
   * from the catalog; otherwise the pseudo-legal candidates, in order, that
   * pass the legality test one level down. Never the source square, never a
   * square of the mover's own side.
   */
  function Moves(b: Board, x: int, y: int, fuel: nat): (r: seq<Pos>)
    requires ValidBoard(b) && InBounds(x, y)
    ensures IsSublist(r, PseudoMoves(b, x, y))
    ensures b[y][x].None? ==> r == []
    ensures b[y][x].Some? && b[y][x].value.kind !in Catalog ==> r == []
    ensures b[y][x].Some? ==> forall m :: m in r <==>
      m in PseudoMoves(b, x, y) && (fuel > 0 ==> MoveIsLegal(b, x, y, m.x, m.y, b[y][x].value.color, fuel - 1))
    ensures b[y][x].Some? ==> forall m :: m in r ==> Targetable(b, m, b[y][x].value.color) && m != Pos(x, y)
    decreases fuel, 0, 0, 0
  {
    var cands := PseudoMoves(b, x, y);
    if fuel == 0 || b[y][x].None? then
      SublistReflexive(cands);
      cands
    else
      FilterLegal(b, x, y, b[y][x].value.color, cands, fuel - 1)
  }

  /**
   * The legal moves as the game states them: the pseudo-legal candidates
   * after which no pseudo-legal enemy move reaches the mover's hero.
   */
  function LegalMoves(b: Board, x: int, y: int): (r: seq<Pos>)
    requires ValidBoard(b) && InBounds(x, y)
    ensures IsSublist(r, PseudoMoves(b, x, y))
    ensures b[y][x].Some? ==> forall m :: m in r <==>
      m in PseudoMoves(b, x, y) && !HeroInCheck(Simulate(b, x, y, m.x, m.y), b[y][x].value.color, 0)
  {
    Moves(b, x, y, 1)
  }

  // ---------------------------------------------------------------------------
  // The source's loops (isHeroInCheck, isMoveLegal, genMoves)
  // ---------------------------------------------------------------------------

  method IsHeroInCheck(b: Board, c: Color, fuel: nat) returns (inCheck: bool)
    requires ValidBoard(b)
    ensures inCheck == HeroInCheck(b, c, fuel)
    decreases fuel, 3, 0, 0
  {
    var heroPos: Option<Pos> := None;
    for y := 0 to SIZE
      invariant heroPos.None?
      invariant forall xx, yy :: InBounds(xx, yy) && yy < y ==> !IsHeroOf(b, xx, yy, c)
    {
      for x := 0 to SIZE
        invariant heroPos.None?
        invariant forall xx, yy :: InBounds(xx, yy) && Before(xx, yy, x, y) ==> !IsHeroOf(b, xx, yy, c)
      {
        var piece := b[y][x];
        if piece.Some? && piece.value.kind == "H" && piece.value.color == c {
          HeroSquareUnique(b, c, x, y);
          heroPos := Some(Pos(x, y));
          break;
        }
      }
      if heroPos.Some? {
        break;
      }
    }
    if heroPos.None? {
      assert HeroSquare(b, c).None?;
      return false;
    }
    assert heroPos == HeroSquare(b, c);
    var enemy := EnemyColor(c);
    var h := heroPos.value;
    for y := 0 to SIZE
      invariant forall xx, yy :: InBounds(xx, yy) && yy < y ==> !Attacks(b, xx, yy, enemy, h, fuel)
    {
      for x := 0 to SIZE
        invariant forall xx, yy :: InBounds(xx, yy) && Before(xx, yy, x, y) ==> !Attacks(b, xx, yy, enemy, h, fuel)
      {
        var piece := b[y][x];
        if piece.Some? && piece.value.color == enemy {
          var moves := GenMoves(b, x, y, fuel);
          if h in moves {
            assert Attacks(b, x, y, enemy, h, fuel);
            return true;
          }
        }
      }
    }
    return false;
  }

  method IsMoveLegal(b: Board, fx: int, fy: int, tx: int, ty: int, c: Color, fuel: nat) returns (legal: bool)
    requires ValidBoard(b) && InBounds(fx, fy) && InBounds(tx, ty)
    ensures legal == MoveIsLegal(b, fx, fy, tx, ty, c, fuel)
    decreases fuel, 4, 0, 0
  {
    // cloneBoard: a board is a value, so the copy is deep and the caller's board is untouched
    var nb := b;
    nb := nb[ty := nb[ty][tx := nb[fy][fx]]];
    nb := nb[fy := nb[fy][fx := None]];
    var inCheck := IsHeroInCheck(nb, c, fuel);
    legal := !inCheck;
  }

  method GenMoves(b: Board, x: int, y: int, fuel: nat) returns (moves: seq<Pos>)
    requires ValidBoard(b) && InBounds(x, y)
    ensures moves == Moves(b, x, y, fuel)
    decreases fuel, 0, 0, 0
  {
    var piece := b[y][x];
    var cands := GenPseudoMoves(b, x, y);
    if fuel == 0 || piece.None? {
      return cands;
    }
    var color := piece.value.color;
    moves := [];
    assert forall m :: m in cands ==> InBounds(m.x, m.y);
    for i := 0 to |cands|
      invariant forall m :: m in cands[..i] ==> InBounds(m.x, m.y)
      invariant moves == FilterLegal(b, x, y, color, cands[..i], fuel - 1)
    {
      assert cands[..i + 1][..i] == cands[..i];
      var m := cands[i];
      var ok := IsMoveLegal(b, x, y, m.x, m.y, color, fuel - 1);
      if ok {
        moves := moves + [m];
      }
    }
    assert cands[..|cands|] == cands;
  }

  // ---------------------------------------------------------------------------
  // Properties
  // ---------------------------------------------------------------------------

  /**
   * As a set, a compound piece's moves at any depth are the union of its
   * parts' candidates that pass the filter.
   */
  lemma CompoundLegalUnion(b: Board, x: int, y: int, fuel: nat, m: Pos)
    requires ValidBoard(b) && InBounds(x, y) && b[y][x].Some?
    requires b[y][x].value.kind in Catalog && Catalog[b[y][x].value.kind].Compound?
    ensures var p := b[y][x].value; var parts := Catalog[p.kind].parts;
      PartsWellFormed(parts) &&
      (m in Moves(b, x, y, fuel) <==>
        (exists i :: 0 <= i < |parts| && m in PartMoves(b, x, y, p.color, parts[i])) &&
        InBounds(m.x, m.y) && (fuel > 0 ==> MoveIsLegal(b, x, y, m.x, m.y, p.color, fuel - 1)))
  {
    var p := b[y][x].value;
    CatalogWellFormed();
    CompoundMovesUnion(b, x, y, p.color, Catalog[p.kind].parts, m);
  }
}
