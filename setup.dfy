/**
 * The opening position (`makeStartBoard`, App.js:179-195): blue on rows 0
 * and 1 at the top, yellow on rows 6 and 7 at the bottom, every piece
 * unmoved. The two back ranks differ: yellow has wizards where blue has
 * leapers.
 */
module Setup {
  import opened Wrappers
  import opened Pieces
  import opened Legality

  const YellowBack: seq<string> := ["R", "W", "B", "Q", "H", "B", "W", "R"]
  const BlueBack: seq<string> := ["R", "L", "B", "Q", "H", "B", "L", "R"]

  /** What stands on (x, y) in the opening position. */
  function StartCell(x: int, y: int): Cell
    requires InBounds(x, y)
  {
    if y == 0 then Some(Piece(BlueBack[x], Blue, false))
    else if y == 1 then Some(Piece("P", Blue, false))
    else if y == 6 then Some(Piece("P", Yellow, false))
    else if y == 7 then Some(Piece(YellowBack[x], Yellow, false))
    else None
  }

  function StartBoard(): (b: Board)
    ensures ValidBoard(b)
    ensures forall y, x :: 0 <= y < SIZE && 0 <= x < SIZE ==> b[y][x] == StartCell(x, y)
    ensures forall x :: 0 <= x < SIZE ==>
      && b[0][x] == Some(Piece(BlueBack[x], Blue, false))
      && b[1][x] == Some(Piece("P", Blue, false))
      && b[6][x] == Some(Piece("P", Yellow, false))
      && b[7][x] == Some(Piece(YellowBack[x], Yellow, false))
    ensures forall y, x :: 2 <= y < 6 && 0 <= x < SIZE ==> b[y][x] == None
  {
    seq(SIZE, y requires 0 <= y < SIZE => seq(SIZE, x requires 0 <= x < SIZE => StartCell(x, y)))
  }

  method MakeStartBoard() returns (b: Board)
    ensures b == StartBoard()
  {
    var emptyRow: seq<Cell> := seq(SIZE, _ => None);
    b := seq(SIZE, _ => emptyRow);
    for x := 0 to SIZE
      invariant ValidBoard(b)
      invariant forall yy, xx :: 0 <= yy < SIZE && 0 <= xx < SIZE ==>
        b[yy][xx] == (if (yy == 1 || yy == 6) && xx < x then StartCell(xx, yy) else None)
    {
      b := b[6 := b[6][x := Some(Piece("P", Yellow, false))]];
      b := b[1 := b[1][x := Some(Piece("P", Blue, false))]];
    }
    var yellowBack := YellowBack;
    for x := 0 to SIZE
      invariant ValidBoard(b)
      invariant forall yy, xx :: 0 <= yy < SIZE && 0 <= xx < SIZE ==>
        b[yy][xx] == (if yy == 1 || yy == 6 || (yy == 7 && xx < x) then StartCell(xx, yy) else None)
    {
      b := b[7 := b[7][x := Some(Piece(yellowBack[x], Yellow, false))]];
    }
    var blueBack := BlueBack;
    for x := 0 to SIZE
      invariant ValidBoard(b)
      invariant forall yy, xx :: 0 <= yy < SIZE && 0 <= xx < SIZE ==>
        b[yy][xx] == (if yy == 1 || yy == 6 || yy == 7 || (yy == 0 && xx < x) then StartCell(xx, yy) else None)
    {
      b := b[0 := b[0][x := Some(Piece(blueBack[x], Blue, false))]];
    }
    assert forall yy :: 0 <= yy < SIZE ==> b[yy] == StartBoard()[yy];
  }

  // ---------------------------------------------------------------------------
  // Properties of the opening position
  // ---------------------------------------------------------------------------

  /** Each side has exactly one hero, on the e-file of its back rank. */
  lemma StartHeroes()
    ensures forall x, y :: InBounds(x, y) ==> (IsHeroOf(StartBoard(), x, y, Yellow) <==> x == 4 && y == 7)
    ensures forall x, y :: InBounds(x, y) ==> (IsHeroOf(StartBoard(), x, y, Blue) <==> x == 4 && y == 0)
  {
    BackRankHeroes();
    assert "P" != "H";
  }

  lemma BackRankHeroes()
    ensures forall x :: 0 <= x < SIZE ==> (YellowBack[x] == "H" <==> x == 4)
    ensures forall x :: 0 <= x < SIZE ==> (BlueBack[x] == "H" <==> x == 4)
  {
    assert "R" != "H" && "W" != "H" && "B" != "H" && "Q" != "H" && "L" != "H";
  }

  /** The hero search of isHeroInCheck finds them. */
  lemma StartHeroSquares()
    ensures HeroSquare(StartBoard(), Yellow) == Some(Pos(4, 7))
    ensures HeroSquare(StartBoard(), Blue) == Some(Pos(4, 0))
  {
    StartHeroes();
    HeroSquareUnique(StartBoard(), Yellow, 4, 7);
    HeroSquareUnique(StartBoard(), Blue, 4, 0);
  }

  /** Every piece of the opening position has a catalog entry, and none has moved. */
  lemma StartPiecesKnown()
    ensures forall x, y :: InBounds(x, y) && StartBoard()[y][x].Some? ==>
      StartBoard()[y][x].value.kind in Catalog && !StartBoard()[y][x].value.moved
  {
    assert forall x :: 0 <= x < SIZE ==> YellowBack[x] in Catalog && BlueBack[x] in Catalog;
  }
}
