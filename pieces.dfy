/**
 * Colors, pieces, squares and the piece catalog of the Chess+ rules engine
 * (App.js:4-40).
 */
module Pieces {
  import opened Wrappers

  /** The board is SIZE x SIZE; x is the column, y the row, origin top-left. */
  const SIZE: int := 8

  /** The two sides, "y" and "b" in the source. */
  datatype Color = Yellow | Blue

  /** `enemyColor`: the other side. */
  function EnemyColor(c: Color): (r: Color)
    ensures r != c
  {
    if c == Yellow then Blue else Yellow
  }

  lemma EnemyColorInvolution(c: Color)
    ensures EnemyColor(EnemyColor(c)) == c
  {
  }

  /** A piece: its kind letter ("P", "R", ...), its side and whether it has moved. */
  datatype Piece = Piece(kind: string, color: Color, moved: bool)

  /** A square is empty (`null` in the source) or holds one piece. */
  type Cell = Option<Piece>

  /** Rows indexed by y, each row indexed by x. */
  type Board = seq<seq<Cell>>

  ghost predicate ValidBoard(b: Board)
  {
    |b| == SIZE && forall y :: 0 <= y < SIZE ==> |b[y]| == SIZE
  }

  /** A square (destination) on the board. */
  datatype Pos = Pos(x: int, y: int)

  /** A direction or a jump, [dx, dy] in the source. */
  datatype Offset = Offset(dx: int, dy: int)

  /** `inBounds` */
  predicate InBounds(x: int, y: int)
  {
    0 <= x < SIZE && 0 <= y < SIZE
  }

  /** `inBounds` guards every board access: a square is in bounds iff it indexes a cell of the board. */
  lemma InBoundsIndexes(b: Board, x: int, y: int)
    requires ValidBoard(b)
    ensures InBounds(x, y) <==> 0 <= y < |b| && 0 <= x < |b[y]|
  {
  }

  /** A destination the side `c` may move to: on the board, and empty or held by the other side. */
  predicate Targetable(b: Board, m: Pos, c: Color)
    requires ValidBoard(b)
  {
    InBounds(m.x, m.y) && (b[m.y][m.x].None? || b[m.y][m.x].value.color != c)
  }

  /** The special generators named in the catalog. */
  datatype Special = Pawn | Hero | Knight

  /** A movement descriptor: an entry of `PIECE_DEFS`. */
  datatype Def =
    | SpecialDef(tag: Special)
    | Slider(dirs: seq<Offset>)
    | Leaper(steps: seq<Offset>)
    | Compound(parts: seq<Def>)

  const RookDirs: seq<Offset> := [Offset(1, 0), Offset(-1, 0), Offset(0, 1), Offset(0, -1)]
  const BishopDirs: seq<Offset> := [Offset(1, 1), Offset(1, -1), Offset(-1, 1), Offset(-1, -1)]
  const QueenDirs: seq<Offset> := RookDirs + BishopDirs

  /** The knight jumps; the source writes them out twice, for "knight" and for the W's leaper part. */
  const KnightSteps: seq<Offset> :=
    [Offset(1, 2), Offset(2, 1), Offset(-1, 2), Offset(-2, 1),
     Offset(1, -2), Offset(2, -1), Offset(-1, -2), Offset(-2, -1)]

  /** The hero's one-square steps (`genHeroMoves`). */
  const HeroSteps: seq<Offset> := QueenDirs

  /** The L's two-square orthogonal jumps. */
  const LeaperSteps: seq<Offset> := [Offset(2, 0), Offset(-2, 0), Offset(0, 2), Offset(0, -2)]

  /** `PIECE_DEFS` */
  const Catalog: map<string, Def> := map[
    "P" := SpecialDef(Pawn),
    "R" := Slider(RookDirs),
    "B" := Slider(BishopDirs),
    "Q" := Slider(QueenDirs),
    "N" := SpecialDef(Knight),
    "H" := SpecialDef(Hero),
    "W" := Compound([Slider(BishopDirs), Leaper(KnightSteps)]),
    "L" := Leaper(LeaperSteps)
  ]

  /**
   * The catalog has the eight kinds of the game; the queen slides along the
   * rook's directions and then the bishop's, and the W is the bishop's
   * slider followed by the knight's jumps.
   */
  lemma CatalogEntries()
    ensures Catalog.Keys == {"P", "R", "B", "Q", "N", "H", "W", "L"}
    ensures Catalog["Q"] == Slider(Catalog["R"].dirs + Catalog["B"].dirs)
    ensures Catalog["W"] == Compound([Catalog["B"], Leaper(KnightSteps)])
    ensures Catalog["P"] == SpecialDef(Pawn) && Catalog["N"] == SpecialDef(Knight) && Catalog["H"] == SpecialDef(Hero)
    ensures |KnightSteps| == 8 && forall i :: 0 <= i < 8 ==> KnightSteps[i].dx * KnightSteps[i].dx + KnightSteps[i].dy * KnightSteps[i].dy == 5
  {
  }

  /** No direction is (0, 0): a ray always leaves its starting square. */
  predicate NonZero(dirs: seq<Offset>)
  {
    forall i :: 0 <= i < |dirs| ==> dirs[i].dx != 0 || dirs[i].dy != 0
  }

  /** The descriptors the generators can run: slider directions, also inside compounds, are non-zero. */
  predicate WellFormed(d: Def)
  {
    match d
    case Slider(dirs) => NonZero(dirs)
    case Compound(parts) => forall i :: 0 <= i < |parts| && parts[i].Slider? ==> NonZero(parts[i].dirs)
    case _ => true
  }

  lemma CatalogWellFormed()
    ensures forall k :: k in Catalog ==> WellFormed(Catalog[k])
    ensures NonZero(HeroSteps) && NonZero(KnightSteps) && NonZero(LeaperSteps)
  {
  }
}
