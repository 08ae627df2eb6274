# Chess+ rules engine in Dafny

A model of the rules engine of Chess+, a small two-player chess variant
on an 8×8 board (yellow against blue), kept in `App.js`. The engine:

- describes pieces as data: sliders, leapers, compounds of the two, and
  three specials (pawn, hero, knight);
- generates pseudo-legal destinations for the piece on a square;
- filters them so that no move leaves the mover's hero attacked;
- builds the opening position;
- applies a chosen move, including pawn promotion.

Modules, following the source's structure:

| module | file | what it models |
|---|---|---|
| `Wrappers` | `wrappers.dfy` | `Option` |
| `Pieces` | `pieces.dfy` | colours, pieces, boards, the piece catalog `PIECE_DEFS` as a map from kind to descriptor, `inBounds`, `enemyColor` |
| `Generators` | `generators.dfy` | `genSliderMoves`, `genLeaperMoves`, `genHeroMoves`, `genPawnMoves`, the compound union with its de-duplication, and the dispatch of `genMoves` on the descriptor (the pseudo-legal candidates) |
| `Legality` | `legality.dfy` | `isHeroInCheck`, `isMoveLegal`, the legality filter of `genMoves`, with a depth bound |
| `Mutator` | `mutator.dfy` | the board update that executes a move (App.js:302-308) |
| `Setup` | `setup.dfy` | `makeStartBoard` |
| `AsWritten` | `as_written.dfy` | the unbounded recursion between `genMoves` and `isHeroInCheck`, exactly as the code writes it |

Each source function built from loops that push onto an array becomes a
`method` with `while`/`for` loops. Each such method is proved equal to a
recursive specification function, and the properties are lemmas about
those functions. Examples are `GenSliderMoves` and `SliderMoves`, and
`IsHeroInCheck` and `HeroInCheck`.

Boards are values (`seq<seq<Cell>>`). `cloneBoard` is a deep copy, and
every write in the engine goes to a fresh clone. So value semantics is
exact, and "the caller's board is not modified" holds by construction.
The piece field `type` is named `kind`, because `type` is a keyword in
Dafny.

The legality recursion is cut by a depth `fuel`:

- `Moves(b, x, y, 0)` is the unfiltered candidate list.
- `Moves(b, x, y, f + 1)` keeps the candidates after which no enemy
  piece's `Moves(.., f)` reaches the mover's hero.
- `LegalMoves = Moves(.., 1)`: attacks are judged by the enemy's
  pseudo-legal moves.

`LegalMoves` is the rule the game states in its help text (App.js:342:
moves that put your hero in check are blocked). The code itself calls the
filtering `genMoves` for every enemy piece (App.js:61-62), with no bound.
`AsWritten` follows the code. It shows that this recursion does not
return on some boards (see Findings). It also shows that wherever the
code's recursion does return within f nested calls, its answer is
`Moves(.., F)` for every F >= f.

## Model

| member | source | states |
|---|---|---|
| Pieces.EnemyColor | App.js:38-40 | the enemy of a side is the other side |
| Pieces.EnemyColorInvolution | App.js:313 | passing the turn twice gives it back to the same side |
| Pieces.InBoundsIndexes | App.js:32 | `inBounds` (the predicate Pieces.InBounds): on a board, a square is in bounds iff it indexes a cell |
| Pieces.CatalogEntries | App.js:14-29 | `PIECE_DEFS` (the constant Pieces.Catalog): the catalog has exactly the kinds P, R, B, Q, N, H, W, L; the queen slides along the rook's directions, then the bishop's; the W is the bishop's slider, then the knight's eight jumps of length √5; P, N and H are the pawn, knight and hero specials |
| Pieces.CatalogWellFormed | App.js:14-29 | every slide direction in the catalog, also inside compounds, is non-zero, and so is every hero, knight and leaper step |
| Generators.Ray | App.js:116-126 | every square on a ray is on the board and empty or enemy-held |
| Generators.RaySteps | App.js:116-125 | a ray starts at the first square in the direction and advances one step at a time |
| Generators.RayCrossesEmpty | App.js:117-121 | every square of a ray except the last is empty |
| Generators.RayEnd | App.js:117-124 | when a ray is empty or ends on an empty square, the next square is off the board or holds a piece of the mover's own side |
| Generators.SliderMoves | App.js:113-129 | every slider destination is on the board and empty or enemy-held |
| Generators.SliderMovesAreRays | App.js:113-129 | a square is a slider move iff it lies on the ray of one of the listed directions |
| Generators.SliderMoveDirection | App.js:115-126 | every slider move lies on the ray of some listed direction |
| Generators.RaySquareIsSliderMove | App.js:115-126 | every square on the ray of a listed direction is a slider move |
| Generators.GenSliderMoves | App.js:113-129 | the loop over the directions computes SliderMoves |
| Generators.GenRay | App.js:116-126 | the inner walk of one direction computes that direction's ray: empty squares up to the first piece, and that piece when it is an enemy |
| Generators.LeaperMoves | App.js:131-140 | every leaper destination is on the board and empty or enemy-held |
| Generators.LeaperMovesSpec | App.js:131-140 | a square is a leaper move iff it is open to the mover and is the source shifted by one of the steps; with non-zero steps the source square is never a move |
| Generators.LeaperMoveStep | App.js:133-137 | every leaper move comes from one of the steps |
| Generators.StepIsLeaperMove | App.js:133-137 | every step that lands on an open square gives a leaper move |
| Generators.GenLeaperMoves | App.js:131-140 | the loop over the steps computes LeaperMoves |
| Generators.GenHeroMoves | App.js:142-148 | the hero moves like a leaper with the eight one-square steps, in the source's order |
| Generators.LeaperMovesAppend | App.js:133-138 | the leaper loop over a concatenation of step lists gives the concatenation of the moves |
| Generators.LeaperFirstTwo | App.js:133-138 | a leaper's first move comes from its first step when that one lands on an open square, and from the second step when the first does not land on an open square and the second does |
| Generators.HeroFirstCandidate | App.js:143-147 | the hero's first candidate is the square to its right when that square is open to it, else the square to its left when that square is open to it |
| Generators.HeroReach | App.js:142-148 | a hero never reaches a square two or more steps away |
| Generators.PawnCaptures | App.js:166-174 | every pawn capture lands on the board on a square that is open to the mover |
| Generators.PawnMoves | App.js:150-176 | every pawn destination is on the board and empty or enemy-held |
| Generators.PawnCapturesBothSides | App.js:166-174 | the capture loop tries the left diagonal first, then the right |
| Generators.PawnMovesSpec | App.js:150-176 | a square is a pawn move iff: it is the empty square ahead; or it is two ahead, from the start rank, across two empty squares; or it is a forward diagonal holding an enemy piece |
| Generators.GenPawnMoves | App.js:150-176 | the imperative pawn generator computes PawnMoves |
| Generators.FirstIndex | App.js:104 | the first position of a square in a list |
| Generators.Dedup | App.js:104-107 | the de-duplicated list has no repeated square and has the same members as the input |
| Generators.FirstIndexUnique | App.js:104 | a position holding a square with no earlier copy is its first position |
| Generators.DedupFirstOccurrenceOrder | App.js:104-107 | de-duplication keeps the order of first occurrences, as insertion into a Set does |
| Generators.PartMoves | App.js:97-101 | every destination of one part of a compound is open to the mover |
| Generators.CompoundConcat | App.js:96-103 | every square of the concatenated parts is open to the mover |
| Generators.CompoundMoves | App.js:96-107 | a compound's moves have no repeated square and are open to the mover |
| Generators.CompoundMovesUnion | App.js:96-107 | a square is a compound move iff it is a move of one of the parts |
| Generators.ConcatMembers | App.js:96-103 | a square is in the concatenation iff it is a move of one of the parts |
| Generators.ConcatMemberPart | App.js:96-103 | every square of the concatenation comes from some part |
| Generators.PartMoveInConcat | App.js:96-103 | every move of a part is in the concatenation |
| Generators.CompoundFirstOccurrenceOrder | App.js:96-107 | a compound lists its moves in the order of their first appearance across the parts |
| Generators.DefMoves | App.js:88-108 | every candidate of a descriptor is open to the mover |
| Generators.PseudoMoves | App.js:80-108 | no candidates for an empty square or an unknown kind; otherwise every candidate is on the board, empty or enemy-held, and not the source square |
| Generators.GenPseudoMoves | App.js:80-108 | the dispatch of genMoves on the descriptor computes PseudoMoves |
| Generators.RayOccupancy | App.js:117-124 | a ray depends only on which squares hold which side, not on the kinds of the pieces |
| Generators.SliderOccupancy | App.js:113-129 | slider moves depend only on occupancy |
| Generators.LeaperOccupancy | App.js:131-140 | leaper moves depend only on occupancy |
| Generators.ConcatOccupancy | App.js:96-103 | compound moves depend only on occupancy |
| Generators.PawnOccupancy | App.js:150-176 | pawn moves depend only on occupancy |
| Generators.PseudoMovesOccupancy | App.js:80-108 | the candidates of a piece depend only on the occupancy and on the kind of the piece itself |
| Generators.MovedFlagIgnored | App.js:159-161 | the `moved` flag never changes a piece's candidates: the pawn double step is decided by the rank |
| Legality.Simulate | App.js:72-75 | the what-if board: the piece moves unchanged to the target, the source is cleared, all else is equal |
| Legality.FindHero | App.js:44-54 | the row-major search returns the first hero of the side at or after the start square, or None when there is none |
| Legality.HeroSquare | App.js:44-55 | the hero found is on the board, belongs to the side, and no hero of the side comes earlier in row-major order; None means the side has no hero |
| Legality.HeroSquareUnique | App.js:44-54 | the first hero in row-major order is the one the search finds |
| Legality.AttackerFrom | App.js:57-68 | the scan from a square on finds an attacker iff some enemy piece at or after that square reaches the hero |
| Legality.HeroInCheck | App.js:43-70 | no hero means not in check; otherwise in check iff some enemy piece's moves include the hero's square |
| Legality.MoveIsLegal | App.js:72-77 | a move after which the mover has no hero is legal |
| Legality.MoveIsLegalSpec | App.js:72-77 | when the mover still has a hero after the move, the move is legal iff no enemy piece on the what-if board attacks that hero |
| Legality.FilterLegal | App.js:110 | the filter keeps an in-order sub-list of the candidates, and a square is kept iff it is a legal candidate |
| Legality.FilterLegalCounts | App.js:110 | each legal candidate is kept as many times as it appears among the candidates, and an illegal one not at all |
| Legality.Moves | App.js:80-110 | the result is an in-order sub-list of the pseudo-legal candidates; a candidate is kept iff (above depth 0) the move leaves the mover's hero safe |
| Legality.LegalMoves | App.js:342 | a square is offered iff it is a pseudo-legal candidate after which no enemy pseudo-legal move reaches the mover's hero |
| Legality.IsHeroInCheck | App.js:43-70 | the two loops (hero search, enemy scan with early return) compute HeroInCheck |
| Legality.IsMoveLegal | App.js:72-77 | clone, move, clear, and negate the check test: MoveIsLegal |
| Legality.GenMoves | App.js:80-111 | the whole of genMoves (dispatch, compound de-duplication, legality filter) computes Moves |
| Legality.CompoundLegalUnion | App.js:96-110 | a compound piece's move is a move of one of its parts that passes the legality filter |
| Mutator.BackRank | App.js:305 | the promotion rank is on the board, has no square beyond it in the pawn's direction, and is six ranks from the pawn's start rank |
| Mutator.PromotedKind | App.js:304-306 | only a pawn changes kind: into a queen iff it arrives on its back rank; no piece becomes or stops being a hero |
| Mutator.MovedBoard | App.js:302-308 | after a move the source is empty, the target holds the mover's piece (promoted, marked as moved), and every other square is unchanged |
| Mutator.ApplyMove | App.js:302-308 | the update on a cloned board computes MovedBoard |
| Mutator.HeroSquareSame | App.js:44-54 | boards with the same heroes of a side give the same hero square |
| Mutator.CheckInvariance | App.js:57-68 | check by pseudo-legal moves (depth 0) depends only on occupancy, on where the side's heroes are, and on the kinds of the enemy pieces |
| Mutator.MovedBoardAsSimulated | App.js:302-308 | the board a move produces and the what-if board agree on whether the mover's hero is attacked |
| Mutator.LegalMoveKeepsHeroSafe | App.js:301-308 | every offered move lands on the board, away from the source, and leaves the mover's hero unattacked by enemy pseudo-legal moves, promotion included |
| Setup.StartBoard | App.js:179-195 | the opening position: blue back rank and pawns on rows 0 and 1, yellow pawns and back rank on rows 6 and 7, rows 2 to 5 empty, nothing moved |
| Setup.MakeStartBoard | App.js:179-195 | the loops that fill the empty board compute StartBoard |
| Setup.StartHeroes | App.js:188-192 | each side has exactly one hero: yellow's on (4, 7), blue's on (4, 0) |
| Setup.BackRankHeroes | App.js:188-191 | in both back ranks the hero is on the fifth file and nowhere else |
| Setup.StartHeroSquares | App.js:188-192 | the hero search finds (4, 7) for yellow and (4, 0) for blue |
| Setup.StartPiecesKnown | App.js:183-192 | every piece of the opening position has a catalog entry, and none has moved |
| AsWritten.AWMoves | App.js:80-110 | genMoves as written, within a budget of nested calls: an answer, when there is one, is an in-order sub-list of the candidates |
| AsWritten.AWFilter | App.js:110 | the unbounded filter, when it returns, keeps an in-order sub-list of the candidates |
| AsWritten.AWLegal | App.js:72-77 | isMoveLegal as written: a move after which the mover has no hero is legal |
| AsWritten.AWCheck | App.js:43-70 | isHeroInCheck as written: a side without a hero is not in check |
| AsWritten.MovesAgree | App.js:80-110 | when genMoves as written returns within f nested calls, it returns Moves(.., F) for every F >= f |
| AsWritten.FilterAgree | App.js:110 | when the filter as written returns within f nested calls, it returns FilterLegal(.., F) for every F >= f |
| AsWritten.LegalAgree | App.js:72-77 | when isMoveLegal as written returns within f nested calls, it returns MoveIsLegal(.., F) for every F >= f |
| AsWritten.CheckAgree | App.js:43-70 | when isHeroInCheck as written returns within f nested calls, it returns HeroInCheck(.., F) for every F >= f |
| AsWritten.ScanAgree | App.js:58-68 | the enemy scan as written (AsWritten.AWScan): when it returns within f nested calls, its answer is AttackerFrom(.., F) for every F >= f |
| AsWritten.FilterFirstNone | App.js:110 | when the test of the first candidate does not return, the filter does not return |
| AsWritten.ScanSkips | App.js:57-60 | the enemy scan passes over squares that hold no enemy piece |
| AsWritten.FirstCallDiverges | App.js:61-110 | when the first recursive genMoves call does not return, the outer genMoves does not either |
| AsWritten.CornerHeroesNeverReturn | App.js:61-110 | on the board with only a yellow hero on (7, 7) and a blue hero on (7, 0), genMoves for the yellow hero returns within no budget |
| AsWritten.CornerHeroesLegal | App.js:342 | on that board, the bounded rule answers, and the step to (6, 7) is among its moves |

## Left out

- The React Native user interface is not modelled. This covers components, styles, images, `Dimensions`, board flipping, the help `Alert` and the debug `console.log` calls. They produce no rules behaviour.
- The session state in `handleSquarePress` is not modelled: the selection, the highlighted moves and `setBoard`/`setSel`/`setMoves`. The board update it makes (App.js:302-308) is `Mutator.ApplyMove`. Its turn toggle (App.js:313) is `Pieces.EnemyColor`.
- The `useMemo` wrapper around `genMoves` is left out. It returns `genMoves` itself.
- Legality.Moves: the source's check filter has no depth bound. The model indexes it by `fuel`. `AsWritten` models the unbounded evaluation.
- Legality.LegalMoves: it is the corrected rule, in which attacks are pseudo-legal enemy moves. The code at App.js:61-62 filters the enemy's moves recursively instead (see Findings).
- Generators.Ray: it requires a non-zero direction, because its termination measure `RayBound` shrinks only along a non-zero direction. Every direction in the catalog is non-zero (`Pieces.CatalogWellFormed`). In the source a zero direction would do no harm either: the walk's first square is the slider's own square, which holds the mover's piece, so the loop stops at once and adds no move.
- Generators.SliderMoves: requires non-zero directions, for the same reason.
- Generators.GenSliderMoves: requires non-zero directions, for the same reason. The inner walk of one direction is the separate method `GenRay`, so that its loop invariant stands alone.
- Generators.GenPawnMoves: the source's unused `piece` argument is dropped.
- Generators.Dedup: the source de-duplicates through a `Set` of `"x,y"` strings and parses them back. For integer coordinates this is the same as de-duplicating the positions, and that is what is modelled.
- Piece objects' identity and aliasing are not modelled. `cloneBoard` copies every piece, and the what-if board in `isMoveLegal` moves the copied object, so no shared object is ever written.
- AsWritten.CornerHeroesNeverReturn: proved for one board only. The opening position appears to lead to a similar cycle through shuttling pieces, but that case is not proved here.

## Findings

| source | as written | input that shows it | evidently intended | confidence | as-written member | corrected member |
|---|---|---|---|---|---|---|
| App.js:61-62 | `isHeroInCheck` asks the filtering `genMoves` for every enemy piece. That call runs `isMoveLegal`, which calls `isHeroInCheck` again, and nothing bounds the depth. | A board with only a yellow hero on (7, 7) and a blue hero on (7, 0), and `genMoves` for the yellow hero. The first candidates make the heroes shuttle between columns 6 and 7, and the what-if boards repeat every four nested calls, so the call stack overflows. | Attacks are judged by the enemy's pseudo-legal moves, and the filter is applied once (App.js:342: moves that put your hero in check are blocked). | not executed | AsWritten.CornerHeroesNeverReturn | Legality.LegalMoves |
