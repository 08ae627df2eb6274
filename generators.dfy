/**
 * Pseudo-legal move generation (App.js:80-176): the destinations a piece's
 * movement pattern and the occupancy of the board allow, without regard to
 * whether the move exposes the mover's own hero.
 *
 * Each generator is a function (the specification, used by the legality
 * layer) and, where the source builds its list in a loop, a method with that
 * loop, proved to return the function's value.
 */
module Generators {
  import opened Wrappers
  import opened Pieces

  lemma ConcatAssoc(a: seq<Pos>, b: seq<Pos>, c: seq<Pos>)
    ensures (a + b) + c == a + (b + c)
  {
  }

  // ---------------------------------------------------------------------------
  // Sliders (genSliderMoves)
  // ---------------------------------------------------------------------------

  /** Shrinks by at least one per step of a non-zero direction while on the board. */
  function RayBound(nx: int, ny: int, dx: int, dy: int): nat
  {
    if dx > 0 then (if nx < SIZE then SIZE - nx else 0)
    else if dx < 0 then (if nx >= 0 then nx + 1 else 0)
    else if dy > 0 then (if ny < SIZE then SIZE - ny else 0)
    else (if ny >= 0 then ny + 1 else 0)
  }

  lemma RayBoundShrinks(nx: int, ny: int, dx: int, dy: int)
    requires InBounds(nx, ny) && (dx != 0 || dy != 0)
    ensures RayBound(nx + dx, ny + dy, dx, dy) < RayBound(nx, ny, dx, dy)
  {
  }

  /** What one direction of the slider loop emits when it starts stepping at (nx, ny). */
  function Ray(b: Board, nx: int, ny: int, dx: int, dy: int, c: Color): (r: seq<Pos>)
    requires ValidBoard(b) && (dx != 0 || dy != 0)
    ensures forall m :: m in r ==> Targetable(b, m, c)
    decreases RayBound(nx, ny, dx, dy)
  {
    if !InBounds(nx, ny) then []
    else if b[ny][nx].None? then [Pos(nx, ny)] + Ray(b, nx + dx, ny + dy, dx, dy, c)
    else if b[ny][nx].value.color != c then [Pos(nx, ny)]
    else []
  }

  // The ray is the run of consecutive squares from (nx, ny) in steps of
  // (dx, dy) (RaySteps), every one of them on the board and empty except
  // possibly the last (RayCrossesEmpty), which may then hold only an enemy
  // piece (Ray's own contract); and it stops exactly at the board's edge or
  // before a piece of the mover's own side (RayEnd).

  /** r starts at p and advances by (dx, dy) at each element. */
  predicate Stepped(r: seq<Pos>, p: Pos, dx: int, dy: int)
  {
    && (|r| > 0 ==> r[0] == p)
    && forall k :: 0 <= k < |r| - 1 ==> r[k + 1] == Pos(r[k].x + dx, r[k].y + dy)
  }

  lemma {:induction false} RaySteps(b: Board, nx: int, ny: int, dx: int, dy: int, c: Color)
    requires ValidBoard(b) && (dx != 0 || dy != 0)
    ensures Stepped(Ray(b, nx, ny, dx, dy, c), Pos(nx, ny), dx, dy)
    decreases RayBound(nx, ny, dx, dy)
  {
    if InBounds(nx, ny) && b[ny][nx].None? {
      var t := Ray(b, nx + dx, ny + dy, dx, dy, c);
      RaySteps(b, nx + dx, ny + dy, dx, dy, c);
      var r := [Pos(nx, ny)] + t;
      assert Ray(b, nx, ny, dx, dy, c) == r;
      assert forall k :: 1 <= k < |r| ==> r[k] == t[k - 1];
    }
  }

  /** An on-board empty square, which a slider passes over. */
  predicate Open(b: Board, p: Pos)
    requires ValidBoard(b)
  {
    InBounds(p.x, p.y) && b[p.y][p.x].None?
  }

  lemma {:induction false} RayCrossesEmpty(b: Board, nx: int, ny: int, dx: int, dy: int, c: Color)
    requires ValidBoard(b) && (dx != 0 || dy != 0)
    ensures forall k :: 0 <= k < |Ray(b, nx, ny, dx, dy, c)| - 1 ==> Open(b, Ray(b, nx, ny, dx, dy, c)[k])
    decreases RayBound(nx, ny, dx, dy)
  {
    if InBounds(nx, ny) && b[ny][nx].None? {
      var t := Ray(b, nx + dx, ny + dy, dx, dy, c);
      RayCrossesEmpty(b, nx + dx, ny + dy, dx, dy, c);
      var r := [Pos(nx, ny)] + t;
      assert Ray(b, nx, ny, dx, dy, c) == r;
      assert forall k :: 1 <= k < |r| ==> r[k] == t[k - 1];
    }
  }

  /** The square just past the end of r, which started at (nx, ny): where the slider stopped looking. */
  function PastEnd(r: seq<Pos>, nx: int, ny: int, dx: int, dy: int): Pos
  {
    if r == [] then Pos(nx, ny) else Pos(r[|r| - 1].x + dx, r[|r| - 1].y + dy)
  }

  /** p is off the board or holds a piece of side c. */
  predicate Blocks(b: Board, p: Pos, c: Color)
    requires ValidBoard(b)
  {
    !InBounds(p.x, p.y) || (b[p.y][p.x].Some? && b[p.y][p.x].value.color == c)
  }

  lemma {:induction false} RayEnd(b: Board, nx: int, ny: int, dx: int, dy: int, c: Color)
    requires ValidBoard(b) && (dx != 0 || dy != 0)
    ensures Ray(b, nx, ny, dx, dy, c) == [] || Open(b, Ray(b, nx, ny, dx, dy, c)[|Ray(b, nx, ny, dx, dy, c)| - 1]) ==>
      Blocks(b, PastEnd(Ray(b, nx, ny, dx, dy, c), nx, ny, dx, dy), c)
    decreases RayBound(nx, ny, dx, dy)
  {
    if InBounds(nx, ny) && b[ny][nx].None? {
      var t := Ray(b, nx + dx, ny + dy, dx, dy, c);
      RayEnd(b, nx + dx, ny + dy, dx, dy, c);
      var r := [Pos(nx, ny)] + t;
      assert Ray(b, nx, ny, dx, dy, c) == r;
      assert t != [] ==> r[|r| - 1] == t[|t| - 1];
    }
  }

  /** The ray of direction d from the slider on (x, y). */
  function DirRay(b: Board, x: int, y: int, c: Color, d: Offset): seq<Pos>
    requires ValidBoard(b) && (d.dx != 0 || d.dy != 0)
  {
    Ray(b, x + d.dx, y + d.dy, d.dx, d.dy, c)
  }

  /** `genSliderMoves`: the rays of the directions, in order, one after another. */
  function SliderMoves(b: Board, x: int, y: int, c: Color, dirs: seq<Offset>): (r: seq<Pos>)
    requires ValidBoard(b) && NonZero(dirs)
    ensures forall m :: m in r ==> Targetable(b, m, c)
  {
    if dirs == [] then []
    else SliderMoves(b, x, y, c, dirs[..|dirs| - 1]) + DirRay(b, x, y, c, dirs[|dirs| - 1])
  }

  /** A slider destination lies on the ray of one of its directions, and every ray square is one. */
  lemma SliderMovesAreRays(b: Board, x: int, y: int, c: Color, dirs: seq<Offset>, m: Pos)
    requires ValidBoard(b) && NonZero(dirs)
    ensures m in SliderMoves(b, x, y, c, dirs) <==> exists i :: 0 <= i < |dirs| && m in DirRay(b, x, y, c, dirs[i])
  {
    if m in SliderMoves(b, x, y, c, dirs) {
      var i := SliderMoveDirection(b, x, y, c, dirs, m);
    }
    if exists i :: 0 <= i < |dirs| && m in DirRay(b, x, y, c, dirs[i]) {
      var i :| 0 <= i < |dirs| && m in DirRay(b, x, y, c, dirs[i]);
      RaySquareIsSliderMove(b, x, y, c, dirs, i, m);
    }
  }

  lemma {:induction false} SliderMoveDirection(b: Board, x: int, y: int, c: Color, dirs: seq<Offset>, m: Pos) returns (i: nat)
    requires ValidBoard(b) && NonZero(dirs) && m in SliderMoves(b, x, y, c, dirs)
    ensures i < |dirs| && m in DirRay(b, x, y, c, dirs[i])
  {
    var n := |dirs| - 1;
    var pre := dirs[..n];
    assert forall k :: 0 <= k < n ==> pre[k] == dirs[k];
    if m in SliderMoves(b, x, y, c, pre) {
      i := SliderMoveDirection(b, x, y, c, pre, m);
      assert pre[i] == dirs[i];
    } else {
      i := n;
    }
  }

  lemma {:induction false} RaySquareIsSliderMove(b: Board, x: int, y: int, c: Color, dirs: seq<Offset>, i: nat, m: Pos)
    requires ValidBoard(b) && NonZero(dirs) && i < |dirs| && m in DirRay(b, x, y, c, dirs[i])
    ensures m in SliderMoves(b, x, y, c, dirs)
  {
    var n := |dirs| - 1;
    var pre := dirs[..n];
    assert forall k :: 0 <= k < n ==> pre[k] == dirs[k];
    if i < n {
      RaySquareIsSliderMove(b, x, y, c, pre, i, m);
    }
  }

  method GenSliderMoves(b: Board, x: int, y: int, c: Color, dirs: seq<Offset>) returns (moves: seq<Pos>)
    requires ValidBoard(b) && NonZero(dirs)
    ensures moves == SliderMoves(b, x, y, c, dirs)
  {
    moves := [];
    for i := 0 to |dirs|
      invariant moves == SliderMoves(b, x, y, c, dirs[..i])
    {
      var ray := GenRay(b, x, y, c, dirs[i]);
      moves := moves + ray;
      assert dirs[..i + 1][..i] == dirs[..i] && dirs[..i + 1][i] == dirs[i];
    }
    assert dirs[..|dirs|] == dirs;
  }

  method GenRay(b: Board, x: int, y: int, c: Color, d: Offset) returns (ray: seq<Pos>)
    requires ValidBoard(b) && (d.dx != 0 || d.dy != 0)
    ensures ray == DirRay(b, x, y, c, d)
  {
    var dx, dy := d.dx, d.dy;
    var nx, ny := x + dx, y + dy;
    ray := [];
    while InBounds(nx, ny)
      invariant ray + Ray(b, nx, ny, dx, dy, c) == DirRay(b, x, y, c, d)
      decreases RayBound(nx, ny, dx, dy)
    {
      var occ := b[ny][nx];
      if occ.None? {
        ConcatAssoc(ray, [Pos(nx, ny)], Ray(b, nx + dx, ny + dy, dx, dy, c));
        ray := ray + [Pos(nx, ny)];
      } else {
        if occ.value.color != c {
          ray := ray + [Pos(nx, ny)];
        }
        return;
      }
      RayBoundShrinks(nx, ny, dx, dy);
      nx, ny := nx + dx, ny + dy;
    }
  }

  // ---------------------------------------------------------------------------
  // Leapers (genLeaperMoves, genHeroMoves, the knight)
  // ---------------------------------------------------------------------------

  /** The square the jump s leads to from (x, y). */
  function Shift(x: int, y: int, s: Offset): Pos
  {
    Pos(x + s.dx, y + s.dy)
  }

  /** The jump `s` from (x, y), when it lands on the board and not on the mover's own side. */
  function LeaperTarget(b: Board, x: int, y: int, c: Color, s: Offset): seq<Pos>
    requires ValidBoard(b)
  {
    if Targetable(b, Shift(x, y, s), c) then [Shift(x, y, s)] else []
  }

  /** `genLeaperMoves` */
  function LeaperMoves(b: Board, x: int, y: int, c: Color, steps: seq<Offset>): (r: seq<Pos>)
    requires ValidBoard(b)
    ensures forall m :: m in r ==> Targetable(b, m, c)
  {
    if steps == [] then []
    else LeaperMoves(b, x, y, c, steps[..|steps| - 1]) + LeaperTarget(b, x, y, c, steps[|steps| - 1])
  }

  /**
   * A leaper destination is the source shifted by one of the listed steps,
   * on the board and empty or enemy-held, and each such square is one; so
   * with non-zero steps the source square itself is never a destination.
   */
  lemma LeaperMovesSpec(b: Board, x: int, y: int, c: Color, steps: seq<Offset>, m: Pos)
    requires ValidBoard(b)
    ensures m in LeaperMoves(b, x, y, c, steps) <==>
      Targetable(b, m, c) && exists i :: 0 <= i < |steps| && m == Shift(x, y, steps[i])
    ensures NonZero(steps) ==> Pos(x, y) !in LeaperMoves(b, x, y, c, steps)
  {
    if m in LeaperMoves(b, x, y, c, steps) {
      var i := LeaperMoveStep(b, x, y, c, steps, m);
    }
    if Targetable(b, m, c) && exists i :: 0 <= i < |steps| && m == Shift(x, y, steps[i]) {
      var i :| 0 <= i < |steps| && m == Shift(x, y, steps[i]);
      StepIsLeaperMove(b, x, y, c, steps, i);
    }
    if Pos(x, y) in LeaperMoves(b, x, y, c, steps) {
      var i := LeaperMoveStep(b, x, y, c, steps, Pos(x, y));
    }
  }

  lemma {:induction false} LeaperMoveStep(b: Board, x: int, y: int, c: Color, steps: seq<Offset>, m: Pos) returns (i: nat)
    requires ValidBoard(b) && m in LeaperMoves(b, x, y, c, steps)
    ensures i < |steps| && m == Shift(x, y, steps[i])
  {
    var n := |steps| - 1;
    var pre := steps[..n];
    if m in LeaperMoves(b, x, y, c, pre) {
      i := LeaperMoveStep(b, x, y, c, pre, m);
      assert pre[i] == steps[i];
    } else {
      i := n;
    }
  }

  lemma {:induction false} StepIsLeaperMove(b: Board, x: int, y: int, c: Color, steps: seq<Offset>, i: nat)
    requires ValidBoard(b) && i < |steps| && Targetable(b, Shift(x, y, steps[i]), c)
    ensures Shift(x, y, steps[i]) in LeaperMoves(b, x, y, c, steps)
  {
    var n := |steps| - 1;
    var pre := steps[..n];
    if i < n {
      assert pre[i] == steps[i];
      StepIsLeaperMove(b, x, y, c, pre, i);
    }
  }

  method GenLeaperMoves(b: Board, x: int, y: int, c: Color, steps: seq<Offset>) returns (moves: seq<Pos>)
    requires ValidBoard(b)
    ensures moves == LeaperMoves(b, x, y, c, steps)
  {
    moves := [];
    for i := 0 to |steps|
      invariant moves == LeaperMoves(b, x, y, c, steps[..i])
    {
      assert steps[..i + 1][..i] == steps[..i];
      var nx, ny := x + steps[i].dx, y + steps[i].dy;
      if !InBounds(nx, ny) {
        continue;
      }
      var occ := b[ny][nx];
      if occ.None? || occ.value.color != c {
        moves := moves + [Pos(nx, ny)];
      }
    }
    assert steps[..|steps|] == steps;
  }

  method GenHeroMoves(b: Board, x: int, y: int, c: Color) returns (moves: seq<Pos>)
    requires ValidBoard(b)
    ensures moves == LeaperMoves(b, x, y, c, HeroSteps)
  {
    moves := GenLeaperMoves(b, x, y, c, HeroSteps);
  }

  // ---------------------------------------------------------------------------
  // Pawns (genPawnMoves)
  // ---------------------------------------------------------------------------

  /** Yellow advances toward row 0, blue toward row 7. */
  function PawnDir(c: Color): int
  {
    if c == Yellow then -1 else 1
  }

  /** The row from which a pawn may step two squares. */
  function StartRank(c: Color): int
  {
    if c == Yellow then 6 else 1
  }

  /** The one-step push onto an empty square, then the two-step push from the start rank. */
  function PawnPushes(b: Board, x: int, y: int, c: Color): seq<Pos>
    requires ValidBoard(b)
  {
    var dir := PawnDir(c);
    var ny := y + dir;
    if InBounds(x, ny) && b[ny][x].None? then
      var ny2 := y + 2 * dir;
      [Pos(x, ny)] +
      (if y == StartRank(c) && InBounds(x, ny2) && b[ny2][x].None? && b[ny][x].None?
       then [Pos(x, ny2)] else [])
    else []
  }

  /** The diagonal capture one column to the side `dx`, onto an enemy piece only. */
  function PawnCapture(b: Board, x: int, y: int, c: Color, dx: int): seq<Pos>
    requires ValidBoard(b)
  {
    var cx, cy := x + dx, y + PawnDir(c);
    if InBounds(cx, cy) && b[cy][cx].Some? && b[cy][cx].value.color != c then [Pos(cx, cy)] else []
  }

  function PawnCaptures(b: Board, x: int, y: int, c: Color, dxs: seq<int>): (r: seq<Pos>)
    requires ValidBoard(b)
    ensures forall m :: m in r ==> Targetable(b, m, c)
  {
    if dxs == [] then []
    else PawnCaptures(b, x, y, c, dxs[..|dxs| - 1]) + PawnCapture(b, x, y, c, dxs[|dxs| - 1])
  }

  /** Trying one more capture side adds that side's capture, if any, at the end. */
  lemma PawnCapturesStep(b: Board, x: int, y: int, c: Color, dxs: seq<int>, i: int)
    requires ValidBoard(b) && 0 <= i < |dxs|
    ensures PawnCaptures(b, x, y, c, dxs[..i + 1]) == PawnCaptures(b, x, y, c, dxs[..i]) + PawnCapture(b, x, y, c, dxs[i])
  {
    assert dxs[..i + 1][..i] == dxs[..i] && dxs[..i + 1][i] == dxs[i];
  }

  /** The capture sides, in the order the source tries them. */
  const CaptureDxs: seq<int> := [-1, 1]

  function PawnMoves(b: Board, x: int, y: int, c: Color): (r: seq<Pos>)
    requires ValidBoard(b)
    ensures forall m :: m in r ==> Targetable(b, m, c)
  {
    PawnPushes(b, x, y, c) + PawnCaptures(b, x, y, c, CaptureDxs)
  }

  lemma PawnCapturesBothSides(b: Board, x: int, y: int, c: Color)
    requires ValidBoard(b)
    ensures PawnCaptures(b, x, y, c, CaptureDxs) == PawnCapture(b, x, y, c, -1) + PawnCapture(b, x, y, c, 1)
  {
    assert CaptureDxs == [-1, 1];
    assert CaptureDxs[..1] == [-1];
    assert [-1][..0] == [];
    assert PawnCaptures(b, x, y, c, [-1]) == PawnCapture(b, x, y, c, -1);
  }

  /**
   * The pawn's destinations are exactly: one square forward onto an empty
   * square; two squares forward from the start rank when both squares are
   * empty; one square diagonally forward onto an enemy piece. The piece's
   * `moved` flag plays no part.
   */
  lemma PawnMovesSpec(b: Board, x: int, y: int, c: Color, m: Pos)
    requires ValidBoard(b)
    ensures m in PawnMoves(b, x, y, c) <==>
      var dir := PawnDir(c);
      || (m == Pos(x, y + dir) && InBounds(m.x, m.y) && b[m.y][m.x].None?)
      || (m == Pos(x, y + 2 * dir) && y == StartRank(c) && InBounds(x, y + dir) && b[y + dir][x].None?
          && InBounds(m.x, m.y) && b[m.y][m.x].None?)
      || ((m == Pos(x - 1, y + dir) || m == Pos(x + 1, y + dir))
          && InBounds(m.x, m.y) && b[m.y][m.x].Some? && b[m.y][m.x].value.color != c)
  {
    PawnCapturesBothSides(b, x, y, c);
  }

  method GenPawnMoves(b: Board, x: int, y: int, c: Color) returns (moves: seq<Pos>)
    requires ValidBoard(b)
    ensures moves == PawnMoves(b, x, y, c)
  {
    ghost var pushes := PawnPushes(b, x, y, c);
    var dir := if c == Yellow then -1 else 1;
    assert dir == PawnDir(c);
    moves := [];
    var ny := y + dir;
    if InBounds(x, ny) && b[ny][x].None? {
      moves := moves + [Pos(x, ny)];
      var startRank := if c == Yellow then 6 else 1;
      var ny2 := y + 2 * dir;
      if y == startRank && InBounds(x, ny2) && b[ny2][x].None? && b[ny][x].None? {
        moves := moves + [Pos(x, ny2)];
      }
    }
    assert moves == pushes;
    var dxs := CaptureDxs;
    for i := 0 to |dxs|
      invariant moves == pushes + PawnCaptures(b, x, y, c, dxs[..i])
    {
      PawnCapturesStep(b, x, y, c, dxs, i);
      ghost var prev := moves;
      var cx, cy := x + dxs[i], y + dir;
      if InBounds(cx, cy) {
        var occ := b[cy][cx];
        if occ.Some? && occ.value.color != c {
          moves := moves + [Pos(cx, cy)];
        }
      }
      assert moves == prev + PawnCapture(b, x, y, c, dxs[i]);
      ConcatAssoc(pushes, PawnCaptures(b, x, y, c, dxs[..i]), PawnCapture(b, x, y, c, dxs[i]));
    }
    assert dxs[..|dxs|] == dxs;
  }

  // ---------------------------------------------------------------------------
  // Compound pieces (App.js:96-107)
  // ---------------------------------------------------------------------------

  predicate NoDuplicates(s: seq<Pos>)
  {
    forall i, j :: 0 <= i < j < |s| ==> s[i] != s[j]
  }

  /** The position of the first occurrence of `m` in `s`. */
  function FirstIndex(s: seq<Pos>, m: Pos): (i: nat)
    requires m in s
    ensures i < |s| && s[i] == m && m !in s[..i]
  {
    if s[0] == m then 0 else 1 + FirstIndex(s[1..], m)
  }

  /** `[...new Set(moves)]`, with squares compared by coordinates: each square once, at its first occurrence. */
  function Dedup(s: seq<Pos>): (r: seq<Pos>)
    ensures NoDuplicates(r)
    ensures forall m :: m in r <==> m in s
  {
    if s == [] then []
    else
      var rest := Dedup(s[..|s| - 1]);
      if s[|s| - 1] in s[..|s| - 1] then rest else rest + [s[|s| - 1]]
  }

  lemma FirstIndexUnique(s: seq<Pos>, m: Pos, i: nat)
    requires i < |s| && s[i] == m && m !in s[..i]
    ensures FirstIndex(s, m) == i
  {
  }

  /** The kept squares appear in the order of their first occurrences. */
  lemma {:induction false} DedupFirstOccurrenceOrder(s: seq<Pos>)
    ensures forall i, j :: 0 <= i < j < |Dedup(s)| ==> FirstIndex(s, Dedup(s)[i]) < FirstIndex(s, Dedup(s)[j])
  {
    if s != [] {
      var n := |s| - 1;
      var p := s[..n];
      DedupFirstOccurrenceOrder(p);
      var r := Dedup(s);
      forall m | m in p ensures FirstIndex(s, m) == FirstIndex(p, m) {
        var k := FirstIndex(p, m);
        assert s[..k] == p[..k];
        FirstIndexUnique(s, m, k);
      }
      if s[n] !in p {
        assert s[..n] == p;
        FirstIndexUnique(s, s[n], n);
      }
      forall i, j | 0 <= i < j < |r| ensures FirstIndex(s, r[i]) < FirstIndex(s, r[j]) {
        if j < |Dedup(p)| {
          assert r[i] == Dedup(p)[i] && r[j] == Dedup(p)[j];
        } else {
          assert r[i] == Dedup(p)[i] && r[i] in p;
        }
      }
    }
  }

  /** One part of a compound: only slider and leaper parts produce moves. */
  function PartMoves(b: Board, x: int, y: int, c: Color, part: Def): (r: seq<Pos>)
    requires ValidBoard(b) && (part.Slider? ==> NonZero(part.dirs))
    ensures forall m :: m in r ==> Targetable(b, m, c)
  {
    match part
    case Slider(dirs) => SliderMoves(b, x, y, c, dirs)
    case Leaper(steps) => LeaperMoves(b, x, y, c, steps)
    case _ => []
  }

  predicate PartsWellFormed(parts: seq<Def>)
  {
    forall i :: 0 <= i < |parts| && parts[i].Slider? ==> NonZero(parts[i].dirs)
  }

  /** The parts' moves concatenated in part order (`moves = moves.concat(...)`). */
  function CompoundConcat(b: Board, x: int, y: int, c: Color, parts: seq<Def>): (r: seq<Pos>)
    requires ValidBoard(b) && PartsWellFormed(parts)
    ensures forall m :: m in r ==> Targetable(b, m, c)
  {
    if parts == [] then []
    else CompoundConcat(b, x, y, c, parts[..|parts| - 1]) + PartMoves(b, x, y, c, parts[|parts| - 1])
  }

  function CompoundMoves(b: Board, x: int, y: int, c: Color, parts: seq<Def>): (r: seq<Pos>)
    requires ValidBoard(b) && PartsWellFormed(parts)
    ensures NoDuplicates(r)
    ensures forall m :: m in r ==> Targetable(b, m, c)
  {
    Dedup(CompoundConcat(b, x, y, c, parts))
  }

  /** As a set, a compound's moves are the union of its parts' moves. */
  lemma {:induction false} CompoundMovesUnion(b: Board, x: int, y: int, c: Color, parts: seq<Def>, m: Pos)
    requires ValidBoard(b) && PartsWellFormed(parts)
    ensures m in CompoundMoves(b, x, y, c, parts) <==>
      exists i :: 0 <= i < |parts| && m in PartMoves(b, x, y, c, parts[i])
  {
    ConcatMembers(b, x, y, c, parts, m);
  }

  lemma ConcatMembers(b: Board, x: int, y: int, c: Color, parts: seq<Def>, m: Pos)
    requires ValidBoard(b) && PartsWellFormed(parts)
    ensures m in CompoundConcat(b, x, y, c, parts) <==>
      exists i :: 0 <= i < |parts| && m in PartMoves(b, x, y, c, parts[i])
  {
    if m in CompoundConcat(b, x, y, c, parts) {
      var i := ConcatMemberPart(b, x, y, c, parts, m);
    }
    if exists i :: 0 <= i < |parts| && m in PartMoves(b, x, y, c, parts[i]) {
      var i :| 0 <= i < |parts| && m in PartMoves(b, x, y, c, parts[i]);
      PartMoveInConcat(b, x, y, c, parts, i, m);
    }
  }

  lemma {:induction false} ConcatMemberPart(b: Board, x: int, y: int, c: Color, parts: seq<Def>, m: Pos) returns (i: nat)
    requires ValidBoard(b) && PartsWellFormed(parts) && m in CompoundConcat(b, x, y, c, parts)
    ensures i < |parts| && m in PartMoves(b, x, y, c, parts[i])
  {
    var n := |parts| - 1;
    var pre := parts[..n];
    assert forall k :: 0 <= k < n ==> pre[k] == parts[k];
    if m in CompoundConcat(b, x, y, c, pre) {
      i := ConcatMemberPart(b, x, y, c, pre, m);
      assert pre[i] == parts[i];
    } else {
      i := n;
    }
  }

  lemma {:induction false} PartMoveInConcat(b: Board, x: int, y: int, c: Color, parts: seq<Def>, i: nat, m: Pos)
    requires ValidBoard(b) && PartsWellFormed(parts) && i < |parts| && m in PartMoves(b, x, y, c, parts[i])
    ensures m in CompoundConcat(b, x, y, c, parts)
  {
    var n := |parts| - 1;
    if i < n {
      ConcatSnoc(b, x, y, c, parts);
      assert parts[..n][i] == parts[i];
      PartMoveInConcat(b, x, y, c, parts[..n], i, m);
    } else {
      LastPartInConcat(b, x, y, c, parts, m);
    }
  }

  lemma LastPartInConcat(b: Board, x: int, y: int, c: Color, parts: seq<Def>, m: Pos)
    requires ValidBoard(b) && PartsWellFormed(parts) && parts != [] && m in PartMoves(b, x, y, c, parts[|parts| - 1])
    ensures m in CompoundConcat(b, x, y, c, parts)
  {
    ConcatSnoc(b, x, y, c, parts);
  }

  lemma ConcatSnoc(b: Board, x: int, y: int, c: Color, parts: seq<Def>)
    requires ValidBoard(b) && PartsWellFormed(parts) && parts != []
    ensures PartsWellFormed(parts[..|parts| - 1])
    ensures CompoundConcat(b, x, y, c, parts) ==
      CompoundConcat(b, x, y, c, parts[..|parts| - 1]) + PartMoves(b, x, y, c, parts[|parts| - 1])
  {
    var n := |parts| - 1;
    assert forall k :: 0 <= k < n ==> parts[..n][k] == parts[k];
  }

  /** The compound's moves list each destination once, in the order of first occurrence. */
  lemma CompoundFirstOccurrenceOrder(b: Board, x: int, y: int, c: Color, parts: seq<Def>)
    requires ValidBoard(b) && PartsWellFormed(parts)
    ensures var s := CompoundConcat(b, x, y, c, parts); var r := CompoundMoves(b, x, y, c, parts);
      forall i, j :: 0 <= i < j < |r| ==> FirstIndex(s, r[i]) < FirstIndex(s, r[j])
  {
    DedupFirstOccurrenceOrder(CompoundConcat(b, x, y, c, parts));
  }

  // ---------------------------------------------------------------------------
  // Dispatch (App.js:80-108, without the final legality filter)
  // ---------------------------------------------------------------------------

  function DefMoves(b: Board, x: int, y: int, c: Color, d: Def): (r: seq<Pos>)
    requires ValidBoard(b) && WellFormed(d)
    ensures forall m :: m in r ==> Targetable(b, m, c)
  {
    match d
    case SpecialDef(Pawn) => PawnMoves(b, x, y, c)
    case SpecialDef(Hero) => LeaperMoves(b, x, y, c, HeroSteps)
    case SpecialDef(Knight) => LeaperMoves(b, x, y, c, KnightSteps)
    case Slider(dirs) => SliderMoves(b, x, y, c, dirs)
    case Leaper(steps) => LeaperMoves(b, x, y, c, steps)
    case Compound(parts) => CompoundMoves(b, x, y, c, parts)
  }

  /**
   * The candidates `genMoves` computes before filtering: none for an empty
   * square or a kind missing from the catalog; otherwise the generator the
   * catalog names. No candidate is the source square or a square of the
   * mover's own side.
   */
  function PseudoMoves(b: Board, x: int, y: int): (r: seq<Pos>)
    requires ValidBoard(b) && InBounds(x, y)
    ensures b[y][x].None? ==> r == []
    ensures b[y][x].Some? && b[y][x].value.kind !in Catalog ==> r == []
    ensures b[y][x].Some? ==>
      forall m :: m in r ==> Targetable(b, m, b[y][x].value.color) && m != Pos(x, y)
  {
    match b[y][x]
    case None => []
    case Some(p) =>
      if p.kind in Catalog then
        CatalogWellFormed();
        DefMoves(b, x, y, p.color, Catalog[p.kind])
      else []
  }

  method GenPseudoMoves(b: Board, x: int, y: int) returns (moves: seq<Pos>)
    requires ValidBoard(b) && InBounds(x, y)
    ensures moves == PseudoMoves(b, x, y)
  {
    var piece := b[y][x];
    if piece.None? {
      return [];
    }
    var color := piece.value.color;
    var kind := piece.value.kind;
    if kind !in Catalog {
      return [];
    }
    var def := Catalog[kind];
    CatalogWellFormed();
    moves := [];
    match def
    case SpecialDef(Pawn) =>
      moves := GenPawnMoves(b, x, y, color);
    case SpecialDef(Hero) =>
      moves := GenHeroMoves(b, x, y, color);
    case SpecialDef(Knight) =>
      moves := GenLeaperMoves(b, x, y, color, KnightSteps);
    case Slider(dirs) =>
      moves := GenSliderMoves(b, x, y, color, dirs);
    case Leaper(steps) =>
      moves := GenLeaperMoves(b, x, y, color, steps);
    case Compound(parts) =>
      for i := 0 to |parts|
        invariant moves == CompoundConcat(b, x, y, color, parts[..i])
      {
        assert parts[..i + 1][..i] == parts[..i];
        var part := parts[i];
        var more: seq<Pos> := [];
        if part.Slider? {
          more := GenSliderMoves(b, x, y, color, part.dirs);
        } else if part.Leaper? {
          more := GenLeaperMoves(b, x, y, color, part.steps);
        }
        moves := moves + more;
      }
      assert parts[..|parts|] == parts;
      moves := Dedup(moves);
  }

  // ---------------------------------------------------------------------------
  // What the generators read of the board
  // ---------------------------------------------------------------------------

  /** Two boards with the same empty squares and the same side on every occupied square. */
  ghost predicate SameOccupancy(b1: Board, b2: Board)
    requires ValidBoard(b1) && ValidBoard(b2)
  {
    forall y, x :: 0 <= y < SIZE && 0 <= x < SIZE ==>
      b1[y][x].None? == b2[y][x].None? &&
      (b1[y][x].Some? ==> b1[y][x].value.color == b2[y][x].value.color)
  }

  lemma {:induction false} RayOccupancy(b1: Board, b2: Board, nx: int, ny: int, dx: int, dy: int, c: Color)
    requires ValidBoard(b1) && ValidBoard(b2) && SameOccupancy(b1, b2) && (dx != 0 || dy != 0)
    ensures Ray(b1, nx, ny, dx, dy, c) == Ray(b2, nx, ny, dx, dy, c)
    decreases RayBound(nx, ny, dx, dy)
  {
    if InBounds(nx, ny) && b1[ny][nx].None? {
      RayOccupancy(b1, b2, nx + dx, ny + dy, dx, dy, c);
    }
  }

  lemma {:induction false} SliderOccupancy(b1: Board, b2: Board, x: int, y: int, c: Color, dirs: seq<Offset>)
    requires ValidBoard(b1) && ValidBoard(b2) && SameOccupancy(b1, b2) && NonZero(dirs)
    ensures SliderMoves(b1, x, y, c, dirs) == SliderMoves(b2, x, y, c, dirs)
  {
    if dirs != [] {
      var d := dirs[|dirs| - 1];
      SliderOccupancy(b1, b2, x, y, c, dirs[..|dirs| - 1]);
      RayOccupancy(b1, b2, x + d.dx, y + d.dy, d.dx, d.dy, c);
      assert DirRay(b1, x, y, c, d) == DirRay(b2, x, y, c, d);
    }
  }

  lemma {:induction false} LeaperOccupancy(b1: Board, b2: Board, x: int, y: int, c: Color, steps: seq<Offset>)
    requires ValidBoard(b1) && ValidBoard(b2) && SameOccupancy(b1, b2)
    ensures LeaperMoves(b1, x, y, c, steps) == LeaperMoves(b2, x, y, c, steps)
  {
    if steps != [] {
      LeaperOccupancy(b1, b2, x, y, c, steps[..|steps| - 1]);
    }
  }

  lemma {:induction false} ConcatOccupancy(b1: Board, b2: Board, x: int, y: int, c: Color, parts: seq<Def>)
    requires ValidBoard(b1) && ValidBoard(b2) && SameOccupancy(b1, b2) && PartsWellFormed(parts)
    ensures CompoundConcat(b1, x, y, c, parts) == CompoundConcat(b2, x, y, c, parts)
  {
    if parts != [] {
      var n := |parts| - 1;
      assert PartsWellFormed(parts[..n]) by {
        forall i | 0 <= i < n && parts[..n][i].Slider? ensures NonZero(parts[..n][i].dirs) {
          assert parts[..n][i] == parts[i];
        }
      }
      ConcatOccupancy(b1, b2, x, y, c, parts[..n]);
      match parts[n]
      case Slider(dirs) => SliderOccupancy(b1, b2, x, y, c, dirs);
      case Leaper(steps) => LeaperOccupancy(b1, b2, x, y, c, steps);
      case _ =>
    }
  }

  lemma PawnOccupancy(b1: Board, b2: Board, x: int, y: int, c: Color)
    requires ValidBoard(b1) && ValidBoard(b2) && SameOccupancy(b1, b2)
    ensures PawnMoves(b1, x, y, c) == PawnMoves(b2, x, y, c)
  {
    PawnCapturesBothSides(b1, x, y, c);
    PawnCapturesBothSides(b2, x, y, c);
    PawnPushesOccupancy(b1, b2, x, y, c);
    PawnCaptureOccupancy(b1, b2, x, y, c, -1);
    PawnCaptureOccupancy(b1, b2, x, y, c, 1);
  }

  lemma PawnPushesOccupancy(b1: Board, b2: Board, x: int, y: int, c: Color)
    requires ValidBoard(b1) && ValidBoard(b2) && SameOccupancy(b1, b2)
    ensures PawnPushes(b1, x, y, c) == PawnPushes(b2, x, y, c)
  {
    var dir := PawnDir(c);
    if InBounds(x, y + dir) {
      assert b1[y + dir][x].None? == b2[y + dir][x].None?;
    }
    if InBounds(x, y + 2 * dir) {
      assert b1[y + 2 * dir][x].None? == b2[y + 2 * dir][x].None?;
    }
  }

  lemma PawnCaptureOccupancy(b1: Board, b2: Board, x: int, y: int, c: Color, dx: int)
    requires ValidBoard(b1) && ValidBoard(b2) && SameOccupancy(b1, b2)
    ensures PawnCapture(b1, x, y, c, dx) == PawnCapture(b2, x, y, c, dx)
  {
    var dir := PawnDir(c);
    if InBounds(x + dx, y + dir) {
      assert b1[y + dir][x + dx].None? == b2[y + dir][x + dx].None?;
    }
  }

  /**
   * The candidates of a piece depend only on its kind and side and on which
   * squares are occupied by which side: not on the other pieces' kinds and
   * not on any `moved` flag.
   */
  lemma PseudoMovesOccupancy(b1: Board, b2: Board, x: int, y: int)
    requires ValidBoard(b1) && ValidBoard(b2) && InBounds(x, y) && SameOccupancy(b1, b2)
    requires b1[y][x].Some? && b2[y][x].Some?
    requires b1[y][x].value.kind == b2[y][x].value.kind
    ensures PseudoMoves(b1, x, y) == PseudoMoves(b2, x, y)
  {
    var p := b1[y][x].value;
    if p.kind in Catalog {
      CatalogWellFormed();
      match Catalog[p.kind]
      case SpecialDef(Pawn) => PawnOccupancy(b1, b2, x, y, p.color);
      case SpecialDef(Hero) => LeaperOccupancy(b1, b2, x, y, p.color, HeroSteps);
      case SpecialDef(Knight) => LeaperOccupancy(b1, b2, x, y, p.color, KnightSteps);
      case Slider(dirs) => SliderOccupancy(b1, b2, x, y, p.color, dirs);
      case Leaper(steps) => LeaperOccupancy(b1, b2, x, y, p.color, steps);
      case Compound(parts) => ConcatOccupancy(b1, b2, x, y, p.color, parts);
    }
  }

  /** `genPawnMoves` is handed the piece but never consults its `moved` flag. */
  lemma MovedFlagIgnored(b: Board, x: int, y: int, moved: bool)
    requires ValidBoard(b) && InBounds(x, y) && b[y][x].Some?
    ensures var b' := b[y := b[y][x := Some(b[y][x].value.(moved := moved))]];
      ValidBoard(b') && PseudoMoves(b', x, y) == PseudoMoves(b, x, y)
  {
    var b' := b[y := b[y][x := Some(b[y][x].value.(moved := moved))]];
    assert ValidBoard(b');
    PseudoMovesOccupancy(b', b, x, y);
  }

  // ---------------------------------------------------------------------------
  // The first candidates of a leaper and of the hero, and the hero's reach
  // ---------------------------------------------------------------------------

  /** A leaper's moves over concatenated step lists are the concatenation of its moves over each. */
  lemma {:induction false} LeaperMovesAppend(b: Board, x: int, y: int, c: Color, s: seq<Offset>, t: seq<Offset>)
    requires ValidBoard(b)
    ensures LeaperMoves(b, x, y, c, s + t) == LeaperMoves(b, x, y, c, s) + LeaperMoves(b, x, y, c, t)
    decreases |t|
  {
    if t == [] {
      assert s + t == s;
    } else {
      var p, k := t[..|t| - 1], t[|t| - 1];
      assert t == p + [k];
      assert s + t == (s + p) + [k];
      LeaperMovesSnoc(b, x, y, c, s + p, k);
      LeaperMovesSnoc(b, x, y, c, p, k);
      LeaperMovesAppend(b, x, y, c, s, p);
      ConcatAssoc(LeaperMoves(b, x, y, c, s), LeaperMoves(b, x, y, c, p), LeaperTarget(b, x, y, c, k));
    }
  }

  /** One more step adds that step's target, if any, at the end. */
  lemma LeaperMovesSnoc(b: Board, x: int, y: int, c: Color, v: seq<Offset>, k: Offset)
    requires ValidBoard(b)
    ensures LeaperMoves(b, x, y, c, v + [k]) == LeaperMoves(b, x, y, c, v) + LeaperTarget(b, x, y, c, k)
  {
    assert (v + [k])[..|v|] == v;
  }

  /** A leaper tries its first two steps, in order, before all others. */
  lemma LeaperFirstTwo(b: Board, x: int, y: int, c: Color, steps: seq<Offset>)
    requires ValidBoard(b) && |steps| >= 2
    ensures Targetable(b, Shift(x, y, steps[0]), c) ==>
      LeaperMoves(b, x, y, c, steps) != [] && LeaperMoves(b, x, y, c, steps)[0] == Shift(x, y, steps[0])
    ensures !Targetable(b, Shift(x, y, steps[0]), c) && Targetable(b, Shift(x, y, steps[1]), c) ==>
      LeaperMoves(b, x, y, c, steps) != [] && LeaperMoves(b, x, y, c, steps)[0] == Shift(x, y, steps[1])
  {
    var first := steps[..2];
    assert steps == first + steps[2..];
    LeaperMovesAppend(b, x, y, c, first, steps[2..]);
    assert first[..1] == [steps[0]] && first[1] == steps[1];
    assert [steps[0]][..0] == [];
    assert LeaperMoves(b, x, y, c, [steps[0]]) == LeaperTarget(b, x, y, c, steps[0]);
    assert LeaperMoves(b, x, y, c, first) == LeaperTarget(b, x, y, c, steps[0]) + LeaperTarget(b, x, y, c, steps[1]);
  }

  /**
   * The hero's first candidate: one square to the right when that square
   * is open to it, else one square to the left when that one is open (the
   * source tries the steps (1, 0) and then (-1, 0) first).
   */
  lemma HeroFirstCandidate(b: Board, x: int, y: int)
    requires ValidBoard(b) && InBounds(x, y) && b[y][x].Some? && b[y][x].value.kind == "H"
    ensures Targetable(b, Pos(x + 1, y), b[y][x].value.color) ==>
      PseudoMoves(b, x, y) != [] && PseudoMoves(b, x, y)[0] == Pos(x + 1, y)
    ensures !Targetable(b, Pos(x + 1, y), b[y][x].value.color) && Targetable(b, Pos(x - 1, y), b[y][x].value.color) ==>
      PseudoMoves(b, x, y) != [] && PseudoMoves(b, x, y)[0] == Pos(x - 1, y)
  {
    HeroPseudoMoves(b, x, y);
    HeroStepsStart();
    LeaperFirstTwo(b, x, y, b[y][x].value.color, HeroSteps);
  }

  lemma HeroPseudoMoves(b: Board, x: int, y: int)
    requires ValidBoard(b) && InBounds(x, y) && b[y][x].Some? && b[y][x].value.kind == "H"
    ensures PseudoMoves(b, x, y) == LeaperMoves(b, x, y, b[y][x].value.color, HeroSteps)
  {
    assert Catalog["H"] == SpecialDef(Hero);
  }

  lemma HeroStepsStart()
    ensures |HeroSteps| == 8 && HeroSteps[0] == Offset(1, 0) && HeroSteps[1] == Offset(-1, 0)
  {
  }

  /** A hero never reaches a square more than one step away in either coordinate. */
  lemma HeroReach(b: Board, x: int, y: int, m: Pos)
    requires ValidBoard(b) && InBounds(x, y) && b[y][x].Some? && b[y][x].value.kind == "H"
    requires m.x - x > 1 || x - m.x > 1 || m.y - y > 1 || y - m.y > 1
    ensures m !in PseudoMoves(b, x, y)
  {
    HeroPseudoMoves(b, x, y);
    HeroStepsSmall();
    if m in PseudoMoves(b, x, y) {
      var i := LeaperMoveStep(b, x, y, b[y][x].value.color, HeroSteps, m);
      assert false;
    }
  }

  lemma HeroStepsSmall()
    ensures forall j :: 0 <= j < |HeroSteps| ==> -1 <= HeroSteps[j].dx <= 1 && -1 <= HeroSteps[j].dy <= 1
  {
  }
}
