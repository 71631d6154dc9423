# Reversi rules and players, modelled in Dafny

This project models the core of a Kotlin 8×8 Reversi (Othello) program. Each part is described here, and the modules follow the program's files:

- **Values.** The geometry is the `Color`, `Direction`, `Point` and `Move` values. A point is its row-major ordinal 0..63, with the names "a1".."h8" and a neighbour in each of the eight directions.
- **Board.** The board is a map from points to colours. The immutable `plus` builds a new board. `MutableBoard.apply` changes the board in place.
- **Rules** (`Rules.kt`):
  - the per-direction flip scan (`reversibles`);
  - placement and move legality (`canPut`, `canApply`);
  - the end of the game (`isGameOngoing`);
  - `winner`.
- **Stability.** The stable-stone classifier of `players/Utils.kt`.
- **Players** (each a `choosePoint`):
  - random;
  - simplest (first legal point);
  - rule based (corner, then stability gain, then fixed good cells, then random);
  - exhaustive depth-first search;
  - breadth-first game tree with integer evaluators;
  - Monte Carlo playouts;
  - mixed (dispatch on the number of empty cells).
- **`Record`.** The wins/losses/draws tally.

## How the model reads

**Form.** `MutableBoard` and the width-first `SearchTree` are classes whose methods update their fields. The other players are functions or methods over values.

**Loops.** The source's loops are methods with loop invariants. Each is proved against a specification function. The breadth-first queue is described after this list; the others are:
- the flip scan, `Rules.ScanDirection`;
- the stability sweep, `Stability.StablePoints`;
- the playout, `MonteCarlo.PlayOut1`;
- the win tally, `MonteCarlo.Accumulate` and `MonteCarlo.Simulate`;
- the observer cascade, `WidthFirst.SearchTree.Propagate`.

The breadth-first queue is the `do`-`while` loop of `WidthFirst.ExpandRounds`. The queue is the range of arena indices not yet expanded. The loop is proved equal to the specification function `WidthFirst.Expanded`: from a given head index, expand the next node, then expand from the following index, for a given number of passes. `WidthFirst.ExpandedFifo` shows that these passes append children in first-in first-out order: every appended node's parent lies in the expanded window, and parents never decrease along the arena. The invariants also keep:
- the tree well formed: parent links point backwards (`Arena`), every best child is a child (`BestLinks`), and every score comes from the node's subtree (`ScoresFromSubtree`);
- the root's children made by the root's own moves (`RootKids`);
- a best child at the root once the root has a move;
- the root's board and mover.

`WidthFirst.Search` adds the exact one-ply answer for a search that runs no further round.

**Specification functions.** The depth-first player is proved against `DepthFirst.Value`, the exact minimax value of a position. The Monte Carlo player's playouts are proved against `MonteCarlo.Play`, the board reached from a move list with alternating colours.

**Random choice** (`random()`) is a number `rnd` that selects an element, or an arbitrary `:|` choice inside methods. Contracts claim only membership, or maximality where the source takes a maximum.

**Wall-clock deadlines** (`Instant.now()`) are modelled as follows:
- depth first: an arbitrary time-out at every searched node;
- Monte Carlo: a number of rounds;
- width first: a number of expansions.

The integer budget arithmetic of the three `deadline` functions is modelled exactly, with Kotlin's truncating division.

**Errors.** The source's failures are values of `Wrappers.Error`:
- `require(canApply(move))` becomes `InvalidMove`;
- `check(!isGameOngoing())` in `winner` becomes `IllegalState`;
- the depth-first `TimeUpException` becomes `TimeUp`;
- `root.bestChild!!` on a finished game becomes `NoBestChild`;
- the width-first `deadline`'s division by zero on a full board becomes `DivisionByZero`.

**Helpers that the players and the tests call but no source file shown defines** are defined as those callers use them:
- `Board.puttables(c)` is `Rules.Puttables`: the legal points in ordinal order.
- `canPutAt` is `canPut(color, point)`.
- `Direction.opposite` and unary minus are the direction with negated offsets.
- `Point - d` is `p + d.opposite`.

**`stablePoints` as written.** The loop repeats while any point is unclear (`players/Utils.kt:17-18`), even after a round that resolves nothing. The model follows the code (`Stability.Sweep`, `Stability.StablePoints`), and the non-termination is under Findings.

## Model

Source paths are relative to the repository root.

| member | source | states |
|---|---|---|
| Colors.Color.Reversed | src/main/kotlin/xyz.hotchpotch.reversi/Color.kt:17 | the reversed colour is never the colour itself: Black gives White and White gives Black |
| Colors.Color.Symbol | src/main/kotlin/xyz.hotchpotch.reversi/Color.kt:6-21 | the glyph `toString` prints, ● for black and ○ for white; `Colors.SymbolsDistinct` states that the two differ |
| Colors.ReversedInvolution | src/main/kotlin/xyz.hotchpotch.reversi/Color.kt:17 | reversing twice gives back the colour |
| Colors.SymbolsDistinct | src/main/kotlin/xyz.hotchpotch.reversi/Color.kt:9-21 | Black's glyph is "●" and White's is "○", and they differ |
| Directions.Direction.Opposite | src/test/kotlin/xyz.hotchpotch.reversi/DirectionTest.kt:9-17 | the opposite direction has both offsets negated |
| Directions.Direction.Di | src/main/kotlin/xyz.hotchpotch.reversi/Direction.kt:6-30 | the row offset of each of the eight directions; `Directions.OffsetsAreUnitVectors` and `Directions.OffsetsInjective` state what the offset pairs are |
| Directions.Direction.Dj | src/main/kotlin/xyz.hotchpotch.reversi/Direction.kt:6-30 | the column offset, stated by the same two lemmas |
| Directions.FindByOffsets | src/test/kotlin/xyz.hotchpotch.reversi/DirectionTest.kt:21-29 | the lookup returns a listed direction with exactly the requested offsets, or None only when no listed direction has them |
| Directions.Negate | src/test/kotlin/xyz.hotchpotch.reversi/DirectionTest.kt:21-29 | unary minus, the direction with the negated offsets; `Directions.NegateIsOpposite` states that it is always `opposite` |
| Directions.AllDirectionsComplete | src/main/kotlin/xyz.hotchpotch.reversi/Direction.kt:6-30 | `values()` lists eight pairwise distinct directions, and every direction is among them |
| Directions.OffsetsAreUnitVectors | src/main/kotlin/xyz.hotchpotch.reversi/Direction.kt:6-30 | some direction has offsets (di, dj) exactly when both lie in -1..1 and they are not both 0 |
| Directions.OffsetsInjective | src/main/kotlin/xyz.hotchpotch.reversi/Direction.kt:6-30 | two directions with the same offsets are the same direction |
| Directions.OppositeInvolution | src/test/kotlin/xyz.hotchpotch.reversi/DirectionTest.kt:9-17 | the opposite of the opposite is the direction itself, and no direction is its own opposite |
| Directions.NegateIsOpposite | src/test/kotlin/xyz.hotchpotch.reversi/DirectionTest.kt:21-29 | unary minus yields, for every direction, the same direction as `opposite` |
| Points.At | src/main/kotlin/xyz.hotchpotch.reversi/Point.kt:44-47 | for (i, j) on the grid, `Point[i, j]` is the point with row i and column j |
| Points.IsValidIdx | src/main/kotlin/xyz.hotchpotch.reversi/Point.kt:7-8 | (i, j) lies on the 8×8 grid; `Points.At` needs it, and `Points.Plus` gives None exactly when a step leaves it |
| Points.IdxToOrdinal | src/main/kotlin/xyz.hotchpotch.reversi/Point.kt:11 | the ordinal i × 8 + j; `Points.At` states that the point it names has row i and column j |
| Points.I | src/main/kotlin/xyz.hotchpotch.reversi/Point.kt:63 | the row of a point, always in 0..7 |
| Points.J | src/main/kotlin/xyz.hotchpotch.reversi/Point.kt:66 | the column of a point, always in 0..7 |
| Points.CoordinatesDetermine | src/main/kotlin/xyz.hotchpotch.reversi/Point.kt:63-66 | two points with the same row and column are the same point |
| Points.Values | src/main/kotlin/xyz.hotchpotch.reversi/Point.kt:33 | `values` has 64 entries and entry k is the point of ordinal k |
| Points.Pos | src/main/kotlin/xyz.hotchpotch.reversi/Point.kt:69 | the point's name, column letter then row digit; `Points.ParsePos` states that `Point[pos]` gives the point back, so names identify points |
| Points.Parse | src/main/kotlin/xyz.hotchpotch.reversi/Point.kt:53 | a name lookup succeeds only with a point whose name is the string, and fails only when no point has that name |
| Points.ParsePos | src/main/kotlin/xyz.hotchpotch.reversi/Point.kt:38 | looking up a point's name gives back that point |
| Points.ParseExamples | src/test/kotlin/xyz.hotchpotch.reversi/PointTest.kt:21-28 | "", "A1", "a0", "`1", "i8", "h9" and "xxxx" are rejected; "a1" is (0, 0) and "h8" is (7, 7) |
| Points.Plus | src/main/kotlin/xyz.hotchpotch.reversi/Point.kt:72-77 | `p + d` is None exactly when (i + di, j + dj) is off the grid, and otherwise is the point with those coordinates, one step nearer the edge |
| Points.Minus | src/test/kotlin/xyz.hotchpotch.reversi/PointTest.kt:101-107 | `p - d`; `Points.MinusIsPlusOpposite` states that it equals `p + d.opposite` |
| Points.MinusIsPlusOpposite | src/test/kotlin/xyz.hotchpotch.reversi/PointTest.kt:101-107 | `p - d == p + d.opposite` for every point and direction |
| Points.PlusOppositeInverse | src/main/kotlin/xyz.hotchpotch.reversi/Point.kt:72-77 | a step in d followed by a step in d's opposite returns to the start |
| Points.PlusExamples | src/test/kotlin/xyz.hotchpotch.reversi/PointTest.kt:69-98 | the corner and centre neighbour cases of the tests, off-grid steps included |
| Points.CompareTo | src/main/kotlin/xyz.hotchpotch.reversi/Point.kt:81 | `compareTo` by ordinal; `Points.CompareToIsRowMajor` states that it orders points row by row |
| Points.CompareToIsRowMajor | src/main/kotlin/xyz.hotchpotch.reversi/Point.kt:81 | `compareTo` is negative exactly when p comes first in row-major order, zero exactly for equal points, and antisymmetric |
| Moves.Move.ToString | src/main/kotlin/xyz.hotchpotch.reversi/Move.kt:14 | the text is the colour's glyph, then ": ", then "PASS" for a pass or the point's name; its content is fixed by `Moves.ToStringExamples` and, for the point's name, by `Points.ParsePos` |
| Moves.Move.IsPass | src/main/kotlin/xyz.hotchpotch.reversi/Move.kt:12 | a move is a pass exactly when it carries no point; `Moves.NonPassHasPoint` states the other direction |
| Moves.NonPassHasPoint | src/main/kotlin/xyz.hotchpotch.reversi/Move.kt:12 | a move is not a pass exactly when it carries a point |
| Moves.ToStringExamples | src/test/kotlin/xyz.hotchpotch.reversi/MoveTest.kt:19-25 | "●: a1", "○: b1" and "○: h8" for placements, and "●: PASS" for a pass |
| Boards.EmptiesAndStones | src/main/kotlin/xyz.hotchpotch.reversi/Board.kt:36 | empty cells plus stones make 64, and the two colours' counts add up to the stones |
| Boards.Board.Get | src/main/kotlin/xyz.hotchpotch.reversi/Board.kt:108 | `board[p]`, None for an empty cell; `BoardMoves.BoardEquality` states that boards are equal exactly when `Get` agrees everywhere |
| Boards.Board.Count | src/main/kotlin/xyz.hotchpotch.reversi/Board.kt:36 | `count(color)`; `Boards.EmptiesAndStones` states that the two colours' counts and the empty cells add up to 64 |
| Boards.Board.Empties | src/main/kotlin/xyz.hotchpotch.reversi/players/DepthFirstPlayer.kt:69 | the number of empty cells, stated by `Boards.EmptiesAndStones` as 64 minus the stones |
| Boards.InitialBoard | src/main/kotlin/xyz.hotchpotch.reversi/Board.kt:78-83 | the start has d4 and e5 white, d5 and e4 black and nothing else, so two stones each and 60 empty cells |
| Boards.Initial | src/main/kotlin/xyz.hotchpotch.reversi/Board.kt:78-83 | the starting position, stated cell by cell by `Boards.InitialBoard` |
| Rules.ScanDirection | src/main/kotlin/xyz.hotchpotch.reversi/Rules.kt:46-59 | the walking loop returns exactly the stones flipped in that direction (`DirFlips`) |
| Rules.Walk | src/main/kotlin/xyz.hotchpotch.reversi/Rules.kt:46-59 | the walk of the directional `reversibles` as a recursion; `Rules.WalkFlipsOpponents` states that it collects only opponent stones |
| Rules.DirFlips | src/main/kotlin/xyz.hotchpotch.reversi/Rules.kt:46-59 | the stones flipped in one direction; `Rules.DirFlipsSpec` states them in terms of the ray from p to the edge |
| Rules.DirFlipsSpec | src/main/kotlin/xyz.hotchpotch.reversi/Rules.kt:46-59 | when the ray holds k opponent stones followed by an own stone, the flips are those k cells; when no such closing stone comes before an empty cell or the edge, there are none |
| Rules.WalkFlipsOpponents | src/main/kotlin/xyz.hotchpotch.reversi/Rules.kt:53 | every stone the walk collects holds the opponent's colour |
| Rules.Reversibles | src/main/kotlin/xyz.hotchpotch.reversi/Rules.kt:41-44 | nothing is flipped at an occupied cell, and every flipped stone holds the opponent's colour before the move |
| Rules.CanPutAt | src/main/kotlin/xyz.hotchpotch.reversi/Rules.kt:25-26 | `canPut(color, point)`; `Rules.CanPutAtIffFlips` states that it holds exactly when p is empty and something flips |
| Rules.Puttables | src/main/kotlin/xyz.hotchpotch.reversi/players/MonteCarloPlayer.kt:40 | the legal points in the order of `Point.values`; `Rules.PuttablesSpec` states that it lists exactly those, each once, ordinal-increasing |
| Rules.CanPut | src/main/kotlin/xyz.hotchpotch.reversi/Rules.kt:18 | `canPut(color)`; `Rules.CanPutIffSomePoint` states that it holds exactly when the legal-point list is not empty |
| Rules.IsGameOngoing | src/main/kotlin/xyz.hotchpotch.reversi/Rules.kt:12 | `isGameOngoing`, some colour can put; `Rules.GameOverRejectsEverything` and `WidthFirst.ChildMovesSpec` state what a finished game allows |
| Rules.CanApply | src/main/kotlin/xyz.hotchpotch.reversi/Rules.kt:32-33 | `canApply(move)`; `Rules.CanApplyCases` states when a pass and when a placement is accepted |
| Rules.CanPutAtIffFlips | src/main/kotlin/xyz.hotchpotch.reversi/Rules.kt:25-26 | `canPut(c, p)` holds exactly when p is empty and `reversibles(c, p)` is not empty |
| Rules.PuttablesSpec | src/main/kotlin/xyz.hotchpotch.reversi/Rules.kt:18 | the legal-point list holds exactly the points where c can put, each once, in increasing ordinal order |
| Rules.CanPutIffSomePoint | src/main/kotlin/xyz.hotchpotch.reversi/Rules.kt:18 | `canPut(c)` holds exactly when the legal-point list is not empty |
| Rules.GameOverRejectsEverything | src/main/kotlin/xyz.hotchpotch.reversi/Rules.kt:32-33 | once the game is over, no placement and no pass can be applied |
| Rules.CanApplyCases | src/main/kotlin/xyz.hotchpotch.reversi/Rules.kt:32-33 | a pass is legal exactly when the game goes on and the mover has no legal point; a placement exactly when the point is legal for the mover |
| Rules.Leader | src/main/kotlin/xyz.hotchpotch.reversi/Rules.kt:67-73 | the result is the colour with strictly more stones, and None exactly on equal counts |
| Rules.Winner | src/main/kotlin/xyz.hotchpotch.reversi/Rules.kt:65-74 | `winner` fails with an illegal-state error exactly while the game goes on, and otherwise returns the leader |
| BoardMoves.Place | src/main/kotlin/xyz.hotchpotch.reversi/Board.kt:115-119 | a placement puts the mover's colour at p and at every reversible point, and leaves every other cell as it was |
| BoardMoves.PlusMove | src/main/kotlin/xyz.hotchpotch.reversi/Board.kt:110-121 | `plus` rejects exactly the moves `canApply` rejects; a legal pass returns an equal board, and a legal placement returns the placed board |
| BoardMoves.BoardEquality | src/main/kotlin/xyz.hotchpotch.reversi/Board.kt:123-127 | two boards are equal exactly when they hold the same colour, or none, at every point |
| BoardMoves.PlaceMoverStones | src/main/kotlin/xyz.hotchpotch.reversi/Board.kt:115-119 | after a placement the mover's stones are the old ones plus the flipped points plus p |
| BoardMoves.PlaceOpponentStones | src/main/kotlin/xyz.hotchpotch.reversi/Board.kt:115-119 | after a placement on an empty cell the opponent's stones are the old ones minus the flipped points |
| BoardMoves.PlaceCounts | src/main/kotlin/xyz.hotchpotch.reversi/Board.kt:36 | a placement raises the mover's count by 1 + the flips, lowers the opponent's count by the flips, and fills one empty cell |
| BoardMoves.PlacementChangesBoard | src/main/kotlin/xyz.hotchpotch.reversi/Board.kt:115-119 | a legal placement yields a different board with the mover's stone at the point |
| BoardMoves.MutableBoard.constructor | src/main/kotlin/xyz.hotchpotch.reversi/Board.kt:101-106 | `mutableBoardOf(original)` starts equal to the original |
| BoardMoves.MutableBoard.ToBoard | src/main/kotlin/xyz.hotchpotch.reversi/Board.kt:26 | the read-only copy holds the same cells as the mutable board |
| BoardMoves.MutableBoard.Paint | src/main/kotlin/xyz.hotchpotch.reversi/Board.kt:155-156 | the `forEach` writes colour c at every given point and leaves the rest of the map as it was |
| BoardMoves.MutableBoard.Apply | src/main/kotlin/xyz.hotchpotch.reversi/Board.kt:151-158 | an illegal move is rejected before any change; a legal one leaves the board equal to what `plus` returns, so a pass changes nothing |
| Stability.EmptyAheadOnRay | src/main/kotlin/xyz.hotchpotch.reversi/players/Utils.kt:92-94 | the scan ahead finds an empty cell exactly when some cell on the ray from the stone to the edge is empty |
| Stability.EmptyAhead | src/main/kotlin/xyz.hotchpotch.reversi/players/Utils.kt:92-95 | the `hasEmpty` scan; `Stability.EmptyAheadOnRay` states that it is true exactly when some cell ahead on the ray is empty |
| Stability.DirVerdict | src/main/kotlin/xyz.hotchpotch.reversi/players/Utils.kt:81-116 | the directional verdict; `Stability.DirVerdictCases` states it case by case |
| Stability.PointVerdict | src/main/kotlin/xyz.hotchpotch.reversi/players/Utils.kt:43-60 | the verdict for a point; `Stability.PointVerdictCases` states it in terms of the eight directions |
| Stability.Occupied | src/main/kotlin/xyz.hotchpotch.reversi/players/Utils.kt:14-15 | the initial unclear set, the occupied points; `Stability.StablePointsOccupied` states that only such points are reported |
| Stability.NewlyStable | src/main/kotlin/xyz.hotchpotch.reversi/players/Utils.kt:19-23 | the points a round adds to the stable set; `Stability.RoundStep` states what a round changes |
| Stability.Resolved | src/main/kotlin/xyz.hotchpotch.reversi/players/Utils.kt:19-26 | the points a round removes from the unclear set; stated by `Stability.RoundStep` |
| Stability.Sweep | src/main/kotlin/xyz.hotchpotch.reversi/players/Utils.kt:17-27 | the loop as written, None where it never ends; `Stability.StablePoints` computes it and `Stability.StablePointsDiverges` shows the None case on a real board |
| Stability.SweepFixed | src/main/kotlin/xyz.hotchpotch.reversi/players/Utils.kt:17-27 | the loop corrected to stop at a round without progress; `Stability.SweepFixedBounds` states that it agrees with `Sweep` whenever that one returns |
| Stability.StablePointsFixed | src/main/kotlin/xyz.hotchpotch.reversi/players/Utils.kt:7-29 | `stablePoints` corrected; `Stability.StablePointsOccupied`, `Stability.FullBoardAllStable` and `Stability.StablePointsFixedStops` state what it returns |
| Stability.DirVerdictCases | src/main/kotlin/xyz.hotchpotch.reversi/players/Utils.kt:81-116 | a direction is stable with no empty cell ahead or no cell behind; unstable when the cell behind is empty or the other colour; and for an own stone behind, stable, unclear or unstable as that stone is known to be |
| Stability.PointVerdictCases | src/main/kotlin/xyz.hotchpotch.reversi/players/Utils.kt:43-60 | an empty cell is unstable; a stone is stable exactly when all eight directions are, and unstable exactly when some direction is |
| Stability.StablePoints | src/main/kotlin/xyz.hotchpotch.reversi/players/Utils.kt:8-29 | the imperative loop computes the sweep as written: the stable set when the rounds resolve every occupied point, and None, standing for a loop that never ends, when a round resolves nothing |
| Stability.RoundStep | src/main/kotlin/xyz.hotchpotch.reversi/players/Utils.kt:19-26 | a round keeps the stable and unclear sets disjoint, never removes a stable point, and removes from unclear exactly the points judged true or false |
| Stability.SweepFixedBounds | src/main/kotlin/xyz.hotchpotch.reversi/players/Utils.kt:18-27 | the corrected sweep keeps every known stable point, adds only points that were unclear, and equals the loop as written whenever that one returns |
| Stability.StablePointsOccupied | src/main/kotlin/xyz.hotchpotch.reversi/players/Utils.kt:14-15 | only occupied points are ever reported stable |
| Stability.FullBoardAllStable | src/main/kotlin/xyz.hotchpotch.reversi/players/Utils.kt:92-95 | on a full board every stone is stable, and the loop as written returns that set |
| Stability.StablePointsDiverges | src/main/kotlin/xyz.hotchpotch.reversi/players/Utils.kt:18-27 | on the board of the finding below, the loop as written reaches a round that resolves nothing, so it never stops |
| Stability.StablePointsFixedStops | src/main/kotlin/xyz.hotchpotch.reversi/players/Utils.kt:18-27 | on that board the corrected sweep returns, and the three stones that wait on each other are not reported stable |
| Deadlines.KotlinDiv | src/main/kotlin/xyz.hotchpotch.reversi/players/DepthFirstPlayer.kt:70 | `Long` division truncates toward zero: the remainder has the dividend's sign and is smaller than the divisor |
| Deadlines.RemainingTurns | src/main/kotlin/xyz.hotchpotch.reversi/players/DepthFirstPlayer.kt:69 | `(empties + 1) / 2` is the player's share of the remaining moves: twice it is empties or empties + 1 |
| Deadlines.RemainingTurnsPositive | src/main/kotlin/xyz.hotchpotch.reversi/players/DepthFirstPlayer.kt:69 | the divisor is at least 1 exactly when some cell is empty |
| Deadlines.Budget | src/main/kotlin/xyz.hotchpotch.reversi/players/DepthFirstPlayer.kt:68-71 | the time for this turn plus the margin is at most the per-turn limit and at most the game time divided by the remaining turns, and equals one of them |
| Deadlines.BudgetLastTurn | src/main/kotlin/xyz.hotchpotch.reversi/players/MonteCarloPlayer.kt:65-71 | with one or two empty cells the whole remaining game time is available, capped by the per-turn limit, less the margin |
| Deadlines.KotlinDivExamples | src/main/kotlin/xyz.hotchpotch.reversi/players/WidthFirstPlayer.kt:48 | -7 / 2 is -3 in Kotlin (not -4), and the other sign cases |
| DepthFirst.PlacementsShrink | src/main/kotlin/xyz.hotchpotch.reversi/players/DepthFirstPlayer.kt:98 | every legal placement fills exactly one empty cell |
| DepthFirst.PassHandsOver | src/main/kotlin/xyz.hotchpotch.reversi/players/DepthFirstPlayer.kt:91 | when the game goes on and the mover cannot place, the opponent can |
| DepthFirst.Value | src/main/kotlin/xyz.hotchpotch.reversi/players/DepthFirstPlayer.kt:82-112 | the outcome of perfect play; `DepthFirst.ValueIsMaximal`, `DepthFirst.ValueOver` and `DepthFirst.ValuePass`/`ValueWin`/`ValueDraw`/`ValueLoss` state it case by case, and `DepthFirst.Search` computes it |
| DepthFirst.ChildValue | src/main/kotlin/xyz.hotchpotch.reversi/players/DepthFirstPlayer.kt:98 | the value after the mover places at p, with the opponent to move; `DepthFirst.ValueWin` and `DepthFirst.ValueIsMaximal` are stated through it |
| DepthFirst.ValueIsMaximal | src/main/kotlin/xyz.hotchpotch.reversi/players/DepthFirstPlayer.kt:93-111 | no placement gives the mover a better outcome (win over draw over loss) than the position's value |
| DepthFirst.ValueOver | src/main/kotlin/xyz.hotchpotch.reversi/players/DepthFirstPlayer.kt:83 | a finished game is worth its leader |
| DepthFirst.ValuePass | src/main/kotlin/xyz.hotchpotch.reversi/players/DepthFirstPlayer.kt:91 | a pass position is worth the opponent's turn on the same board |
| DepthFirst.ValueWin | src/main/kotlin/xyz.hotchpotch.reversi/players/DepthFirstPlayer.kt:98-101 | one winning placement makes the position a win for the mover |
| DepthFirst.ValueDraw | src/main/kotlin/xyz.hotchpotch.reversi/players/DepthFirstPlayer.kt:104-110 | with no winning placement, one drawing placement makes it a draw |
| DepthFirst.ValueLoss | src/main/kotlin/xyz.hotchpotch.reversi/players/DepthFirstPlayer.kt:111 | when every placement loses, the position is lost |
| DepthFirst.Search | src/main/kotlin/xyz.hotchpotch.reversi/players/DepthFirstPlayer.kt:82-112 | `search` answers (null, winner) on a finished board and otherwise the exact minimax value, with a point exactly when the mover can place, and that point is legal and attains the value; the only failure is the time-out |
| DepthFirst.SearchChild | src/main/kotlin/xyz.hotchpotch.reversi/players/DepthFirstPlayer.kt:98 | the search below a placement answers that child's value, or times out |
| DepthFirst.ScanComplete | src/main/kotlin/xyz.hotchpotch.reversi/players/DepthFirstPlayer.kt:93-105 | after scanning every placement without a win, the collected draw points are exactly drawing placements, and with none every placement loses |
| DepthFirst.SearchPlacements | src/main/kotlin/xyz.hotchpotch.reversi/players/DepthFirstPlayer.kt:93-111 | the placement loop returns a legal point that attains the value: a winning answer is the first winning placement in the order of the legal points, else a draw point, else any legal point |
| DepthFirst.ChoosePoint | src/main/kotlin/xyz.hotchpotch.reversi/players/DepthFirstPlayer.kt:32-65 | None exactly when no placement is legal, the only one when there is one, otherwise a legal point, which attains the value whenever the search finished in time |
| Evaluators.WeightsSymmetric | src/main/kotlin/xyz.hotchpotch.reversi/players/WidthFirstPlayer.kt:168-178 | the weight table is 8×8 and symmetric top-bottom, left-right and about the diagonal |
| Evaluators.Evaluate1 | src/main/kotlin/xyz.hotchpotch.reversi/players/WidthFirstPlayer.kt:141-142 | `evaluateBoard1`, the stone difference; `Evaluators.EvaluatorsAntisymmetric` states that it changes sign with the colour |
| Evaluators.Evaluate2 | src/main/kotlin/xyz.hotchpotch.reversi/players/WidthFirstPlayer.kt:145-146 | `evaluateBoard2`, the mobility difference; antisymmetric, and 0 on a full board (`Evaluators.FullBoardEvaluations`) |
| Evaluators.Evaluate3Numerator | src/main/kotlin/xyz.hotchpotch.reversi/players/WidthFirstPlayer.kt:153-159 | the numerator of `evaluateBoard3`; antisymmetric, and 64 × the stone difference on a full board |
| Evaluators.Evaluate4 | src/main/kotlin/xyz.hotchpotch.reversi/players/WidthFirstPlayer.kt:162 | `evaluateBoard4`, 0 for every board, as `Evaluators.EvaluatorsAntisymmetric` states |
| Evaluators.WeightIn | src/main/kotlin/xyz.hotchpotch.reversi/players/WidthFirstPlayer.kt:168-178 | `weights[it.i][it.j]`, read from the table passed in; `Evaluators.WeightsSymmetric` states the shape and the symmetries of the table |
| Evaluators.WeightedSum | src/main/kotlin/xyz.hotchpotch.reversi/players/WidthFirstPlayer.kt:179-186 | `myScore` and `hisScore`; `Evaluators.WeightFromNoStones` states that a colour without stones scores 0, and `Evaluators.FullBoardWeights` states that on a full board the two colours' sums add up to 216 |
| Evaluators.Evaluate5 | src/main/kotlin/xyz.hotchpotch.reversi/players/WidthFirstPlayer.kt:165-188 | `evaluateBoard5`, the weighted difference; `Evaluators.EvaluatorsAntisymmetric` states that it changes sign with the colour |
| Evaluators.WeightFromNoStones | src/main/kotlin/xyz.hotchpotch.reversi/players/WidthFirstPlayer.kt:179-186 | a colour with no stone has weighted sum 0 |
| Evaluators.TableFrom | src/main/kotlin/xyz.hotchpotch.reversi/players/WidthFirstPlayer.kt:168-178 | the sum of the weight table from an ordinal on; `Evaluators.TableTotal` states its value |
| Evaluators.TableTotal | src/main/kotlin/xyz.hotchpotch.reversi/players/WidthFirstPlayer.kt:168-178 | the 64 weights of the table sum to 216 |
| Evaluators.FullWeightFrom | src/main/kotlin/xyz.hotchpotch.reversi/players/WidthFirstPlayer.kt:179-186 | where every cell from an ordinal on holds a stone, the two colours' weighted sums over those cells make up the table's sum over them |
| Evaluators.FullBoardWeights | src/main/kotlin/xyz.hotchpotch.reversi/players/WidthFirstPlayer.kt:165-188 | on a full board `myScore + hisScore` is 216, so `evaluateBoard5` is twice the own weighted sum less 216 |
| Evaluators.EvaluatorsAntisymmetric | src/main/kotlin/xyz.hotchpotch.reversi/players/WidthFirstPlayer.kt:141-188 | evaluators 1, 2, 5 and the numerator of 3 change sign when the colour is reversed, and evaluator 4 is always 0 |
| Evaluators.FullBoardEvaluations | src/main/kotlin/xyz.hotchpotch.reversi/players/WidthFirstPlayer.kt:153-159 | on a full board the mobility score is 0 and the mixed score's numerator is 64 times the stone difference |
| Evaluators.NoPuttablesWhenFull | src/main/kotlin/xyz.hotchpotch.reversi/players/WidthFirstPlayer.kt:145-146 | a board without empty cells has no legal placement |
| RuleBased.Legal | src/main/kotlin/xyz.hotchpotch.reversi/players/RuleBasedPlayer.kt:87 | `filter { puttables.contains(it) }` keeps exactly the listed points that are legal |
| RuleBased.PickOneRandom | src/main/kotlin/xyz.hotchpotch.reversi/players/RuleBasedPlayer.kt:86-89 | the pick is None exactly when no listed point is legal, and otherwise a listed legal point |
| RuleBased.CellsNamed | src/main/kotlin/xyz.hotchpotch.reversi/players/RuleBasedPlayer.kt:32-72 | the corners are a1, a8, h1 and h8, and the diagonal cells are c3, f3, c6 and f6 |
| RuleBased.RingsAvoidCorners | src/main/kotlin/xyz.hotchpotch.reversi/players/RuleBasedPlayer.kt:55-84 | the three ring sets contain no corner and do not overlap |
| RuleBased.Rule1 | src/main/kotlin/xyz.hotchpotch.reversi/players/RuleBasedPlayer.kt:32-38 | `rule1PutCorner`; `RuleBased.CascadeSpec` and `RuleBased.ChoosePointCorner` state that a legal corner is always taken |
| RuleBased.StableCount | src/main/kotlin/xyz.hotchpotch.reversi/players/RuleBasedPlayer.kt:42-44 | `countStables`, the own stones the corrected classifier reports stable |
| RuleBased.Gain | src/main/kotlin/xyz.hotchpotch.reversi/players/RuleBasedPlayer.kt:46 | the stable count after placing at p; `RuleBased.Rule2Spec` states rule 2 through it |
| RuleBased.Scored | src/main/kotlin/xyz.hotchpotch.reversi/players/RuleBasedPlayer.kt:46 | each legal point is paired, in order, with its own-stable count after the move |
| RuleBased.Above | src/main/kotlin/xyz.hotchpotch.reversi/players/RuleBasedPlayer.kt:47 | the filter keeps exactly the pairs whose count is above the current one |
| RuleBased.MaxBy | src/main/kotlin/xyz.hotchpotch.reversi/players/RuleBasedPlayer.kt:48 | `maxBy` is None exactly on an empty list, and otherwise a listed pair with no larger count listed |
| RuleBased.Rule2Spec | src/main/kotlin/xyz.hotchpotch.reversi/players/RuleBasedPlayer.kt:41-49 | rule 2 gives null exactly when no move raises the own-stable count; otherwise a legal point that raises it and that no other legal point beats |
| RuleBased.Rule2 | src/main/kotlin/xyz.hotchpotch.reversi/players/RuleBasedPlayer.kt:41-49 | `rule2ExtendStableArea`; `RuleBased.Rule2Spec` states when it answers and that its answer gains the most |
| RuleBased.Rule3 | src/main/kotlin/xyz.hotchpotch.reversi/players/RuleBasedPlayer.kt:52-94 | `rule3PutEffectivePoint`; `RuleBased.Rule3Spec` states which ring it takes |
| RuleBased.Cascade | src/main/kotlin/xyz.hotchpotch.reversi/players/RuleBasedPlayer.kt:24-27 | the rule cascade; `RuleBased.CascadeSpec` states that it always answers a legal point, a corner first, then the best gain; `RuleBased.CascadeRule3` states that with no corner and no gain it answers rule 3's pick, or else the random fallback |
| RuleBased.Rule3Spec | src/main/kotlin/xyz.hotchpotch.reversi/players/RuleBasedPlayer.kt:52-94 | rule 3 picks a legal point from the first ring with a legal member, and gives null only when no ring has one |
| RuleBased.CascadeSpec | src/main/kotlin/xyz.hotchpotch.reversi/players/RuleBasedPlayer.kt:24-27 | with two or more legal points the cascade always answers a legal point: a corner when one is legal, else the best stability gain when some move gains |
| RuleBased.CascadeRule3 | src/main/kotlin/xyz.hotchpotch.reversi/players/RuleBasedPlayer.kt:24-27 | with two or more legal points, none a corner and none gaining stable stones, the cascade answers rule 3's pick when rule 3 has one and `puttables.random()` otherwise; when a ring-1 point is legal the answer is in ring 1 |
| RuleBased.ChoosePointLegal | src/main/kotlin/xyz.hotchpotch.reversi/players/RuleBasedPlayer.kt:19-29 | None exactly when no placement is legal, the only one when there is one, otherwise a legal point |
| RuleBased.ChoosePoint | src/main/kotlin/xyz.hotchpotch.reversi/players/RuleBasedPlayer.kt:19-29 | `choosePoint`; `RuleBased.ChoosePointLegal`, `RuleBased.ChoosePointCorner`, `RuleBased.SingleCandidate`, `RuleBased.ChoosePointGain` and `RuleBased.ChoosePointRing` state its answers |
| RuleBased.ChoosePointCorner | src/main/kotlin/xyz.hotchpotch.reversi/players/RuleBasedPlayer.kt:32-38 | when a corner is legal, the answer is a corner |
| RuleBased.SingleCandidate | src/main/kotlin/xyz.hotchpotch.reversi/players/RuleBasedPlayer.kt:23 | with one legal point the answer is that point, whatever the random choice |
| RuleBased.ChoosePointGain | src/main/kotlin/xyz.hotchpotch.reversi/players/RuleBasedPlayer.kt:41-49 | with no corner legal and some move that gains stable stones, the answer gains the most |
| RuleBased.ChoosePointRing | src/main/kotlin/xyz.hotchpotch.reversi/players/RuleBasedPlayer.kt:19-29 | with two or more legal points, none a corner and none gaining stable stones, `choosePoint` answers rule 3's pick or else a random legal point; when a ring-1 point is legal the answer is in ring 1 |
| RandomPlayer.Pick | src/main/kotlin/xyz.hotchpotch.reversi/players/RandomPlayer.kt:18 | `random()` returns an element of the list |
| RandomPlayer.PickReachesAll | src/main/kotlin/xyz.hotchpotch.reversi/players/RandomPlayer.kt:18 | every element of the list can be the one picked |
| RandomPlayer.ChoosePoint | src/main/kotlin/xyz.hotchpotch.reversi/players/RandomPlayer.kt:16-19 | None exactly when no point is legal, otherwise a legal point, which is an empty cell |
| RandomPlayer.ChoosePointReachesAll | src/main/kotlin/xyz.hotchpotch.reversi/players/RandomPlayer.kt:17-18 | every legal point is a possible answer |
| SimplestPlayer.FirstFrom | src/main/kotlin/xyz.hotchpotch.reversi/players/SimplestPlayer.kt:17 | the scan from ordinal k answers the first legal point from k on, or None when there is none |
| SimplestPlayer.ChoosePoint | src/main/kotlin/xyz.hotchpotch.reversi/players/SimplestPlayer.kt:16-17 | None exactly when no point is legal, otherwise a legal point |
| SimplestPlayer.ChoosePointFirst | src/main/kotlin/xyz.hotchpotch.reversi/players/SimplestPlayer.kt:17 | no point before the answer in ordinal order is legal |
| Records.Record.CompareTo | src/main/kotlin/xyz.hotchpotch.reversi/framework/Record.kt:33-40 | the comparison answers -1, 0 or 1 |
| Records.ZeroHasNoPlays | src/main/kotlin/xyz.hotchpotch.reversi/framework/Record.kt:9-13 | the default record has no plays |
| Records.Record.TotalPlays | src/main/kotlin/xyz.hotchpotch.reversi/framework/Record.kt:12-13 | `totalPlays`; `Records.PlusLaws` states that `plus` adds totals |
| Records.Record.WinsRatio | src/main/kotlin/xyz.hotchpotch.reversi/framework/Record.kt:16-17 | `winsRatio`, exact; `Records.CompareToRatios` states that `compareTo` orders by it first |
| Records.Record.LossesRatio | src/main/kotlin/xyz.hotchpotch.reversi/framework/Record.kt:20-21 | `lossesRatio`, exact; `Records.CompareToRatios` states that it breaks ties inversely |
| Records.Record.Reversed | src/main/kotlin/xyz.hotchpotch.reversi/framework/Record.kt:28 | `reversed()`; `Records.ReversedInvolution` states that reversing twice gives the record back |
| Records.Record.Plus | src/main/kotlin/xyz.hotchpotch.reversi/framework/Record.kt:30-31 | `plus(other)`; `Records.PlusLaws` states its algebra |
| Records.ReversedInvolution | src/main/kotlin/xyz.hotchpotch.reversi/framework/Record.kt:28 | reversing twice gives back the record, and reversing keeps the draws and the total |
| Records.PlusLaws | src/main/kotlin/xyz.hotchpotch.reversi/framework/Record.kt:30-31 | `plus` is commutative and associative, has the zero record as identity, adds totals and commutes with `reversed` |
| Records.CompareToRatios | src/main/kotlin/xyz.hotchpotch.reversi/framework/Record.kt:33-40 | the cross-multiplied comparison is the comparison of the exact win ratios, and when they are equal the inverse comparison of the loss ratios |
| Records.CompareToAntisymmetric | src/main/kotlin/xyz.hotchpotch.reversi/framework/Record.kt:33-40 | swapping the records negates the result, and a record compares equal to itself |
| Records.CompareToScaled | src/main/kotlin/xyz.hotchpotch.reversi/framework/Record.kt:33-40 | a record compares equal to any positive multiple of itself |
| MixedPlayer.BlankCells | src/main/kotlin/xyz.hotchpotch.reversi/players/MixedPlayer.kt:28 | the blank count plus the stones, and plus both colours' counts, make 64 |
| MixedPlayer.Select | src/main/kotlin/xyz.hotchpotch.reversi/players/MixedPlayer.kt:30-43 | random exactly above 50 blanks, rule based for 36..50, Monte Carlo for 11..35, depth first for 10 or fewer; `MixedPlayer.SelectPhases` states what the ranges mean: the delegates come in order as the board fills |
| MixedPlayer.SelectPhases | src/main/kotlin/xyz.hotchpotch.reversi/players/MixedPlayer.kt:30-43 | fewer blanks never select an earlier delegate, and the boundary values select as the `when` says |
| MixedPlayer.ChoosePoint | src/main/kotlin/xyz.hotchpotch.reversi/players/MixedPlayer.kt:27-45 | None exactly when no point is legal, otherwise a legal point, and the random and rule-based delegates' answers are returned unchanged |
| MonteCarlo.Turn | src/main/kotlin/xyz.hotchpotch.reversi/players/MonteCarloPlayer.kt:109 | the colour to move after n moves alternates from the first mover |
| MonteCarlo.Play | src/main/kotlin/xyz.hotchpotch.reversi/players/MonteCarloPlayer.kt:104-110 | the board a sequence of alternating legal moves reaches; `MonteCarlo.PlayOut1` states that the playout reaches its board this way |
| MonteCarlo.MeasureDrops | src/main/kotlin/xyz.hotchpotch.reversi/players/MonteCarloPlayer.kt:104-110 | every applied move lowers the termination measure of the next turn, so the tail recursion ends |
| MonteCarlo.PlayOut1 | src/main/kotlin/xyz.hotchpotch.reversi/players/MonteCarloPlayer.kt:104-110 | the playout reaches its board by legal moves of alternating colours, ends on a finished game, and returns its leader |
| MonteCarlo.PlayOutN | src/main/kotlin/xyz.hotchpotch.reversi/players/MonteCarloPlayer.kt:82-94 | 25 playouts, each a finished game reached from the board after the candidate with the opponent to move; the result is how many of them the player's colour won, at most 25 |
| MonteCarlo.PlayRound | src/main/kotlin/xyz.hotchpotch.reversi/players/MonteCarloPlayer.kt:53 | one round gives every candidate, in order, a win count that its 25 playouts can give, at most 25 |
| MonteCarlo.AddedSpec | src/main/kotlin/xyz.hotchpotch.reversi/players/MonteCarloPlayer.kt:54 | adding a round adds each candidate's count to its total (missing totals count as 0), keeps other totals, and never lowers a total |
| MonteCarlo.Added | src/main/kotlin/xyz.hotchpotch.reversi/players/MonteCarloPlayer.kt:54 | one round's update of the totals; `MonteCarlo.AddedSpec` states it entry by entry |
| MonteCarlo.Totals | src/main/kotlin/xyz.hotchpotch.reversi/players/MonteCarloPlayer.kt:46-55 | the totals after a history of rounds; `MonteCarlo.Simulate` states that the loop computes them |
| MonteCarlo.Accumulate | src/main/kotlin/xyz.hotchpotch.reversi/players/MonteCarloPlayer.kt:54 | the `forEach` update computes the added totals |
| MonteCarlo.FirstMax | src/main/kotlin/xyz.hotchpotch.reversi/players/MonteCarloPlayer.kt:59 | the choice is a candidate with the largest total, and every candidate before it has a smaller one |
| MonteCarlo.RoundBound | src/main/kotlin/xyz.hotchpotch.reversi/players/MonteCarloPlayer.kt:53-54 | after n rounds no total exceeds 25 n |
| MonteCarlo.Simulate | src/main/kotlin/xyz.hotchpotch.reversi/players/MonteCarloPlayer.kt:46-55 | one possible result per round per candidate; the totals are their sums, keyed by exactly the candidates once a round ran, at most 25 per round, and empty when none ran |
| MonteCarlo.MostWins | src/main/kotlin/xyz.hotchpotch.reversi/players/MonteCarloPlayer.kt:57-59 | with at least one round the answer has the largest total and is the first in ordinal order among equals, which is the entry `maxBy` keeps: `availables` is in ordinal order (line 40) and so is the insertion-ordered `mutableMapOf()` filled from it (lines 46, 54); with no round there is no answer |
| MonteCarlo.ChoosePoint | src/main/kotlin/xyz.hotchpotch.reversi/players/MonteCarloPlayer.kt:36-62 | None exactly when no point is legal, the only one when there is one, the random proxy's answer when no round ran, and otherwise a candidate with the most simulated wins |
| WidthFirst.ChildMovesSpec | src/main/kotlin/xyz.hotchpotch.reversi/players/WidthFirstPlayer.kt:111-128 | a node has children exactly while the game goes on: a placement child for exactly the legal points, and only pass children when the mover cannot put |
| WidthFirst.ChildMoves | src/main/kotlin/xyz.hotchpotch.reversi/players/WidthFirstPlayer.kt:111-128 | the moves `search` makes children for; `WidthFirst.ChildMovesSpec` states them |
| WidthFirst.ChildBoard | src/main/kotlin/xyz.hotchpotch.reversi/players/WidthFirstPlayer.kt:117-123 | `currBoard + Move(currColor, it)`, or the same board for a pass; `WidthFirst.ChildMovesBoards` states the resulting boards |
| WidthFirst.ChildMovesBoards | src/main/kotlin/xyz.hotchpotch.reversi/players/WidthFirstPlayer.kt:117-123 | each child's board is what `plus` gives for its move, and placement children are on empty cells |
| WidthFirst.Adopt | src/main/kotlin/xyz.hotchpotch.reversi/players/WidthFirstPlayer.kt:81-84 | a parent adopting a child records it as best child and takes over its score |
| WidthFirst.Prefers | src/main/kotlin/xyz.hotchpotch.reversi/players/WidthFirstPlayer.kt:102-108 | the `updateParentBest` test; `WidthFirst.ClimbStep` states how the cascade uses it |
| WidthFirst.Climb | src/main/kotlin/xyz.hotchpotch.reversi/players/WidthFirstPlayer.kt:81-108 | the observers' cascade; `WidthFirst.ClimbShape`, `WidthFirst.ClimbLinks`, `WidthFirst.ClimbStep` and `WidthFirst.ClimbKeepsScores` state it |
| WidthFirst.ClimbShape | src/main/kotlin/xyz.hotchpotch.reversi/players/WidthFirstPlayer.kt:81-91 | the observers' cascade keeps every node's parent, move, board and mover, changes no node from the starting one on, keeps parents before children, and never clears a best child |
| WidthFirst.ClimbLinks | src/main/kotlin/xyz.hotchpotch.reversi/players/WidthFirstPlayer.kt:81-84 | after the cascade every best child is still a child of its node |
| WidthFirst.ClimbStep | src/main/kotlin/xyz.hotchpotch.reversi/players/WidthFirstPlayer.kt:102-108 | a parent whose mover is the player adopts only a strictly higher score, any other parent only a strictly lower one, and a parent without a best child adopts its first child; otherwise nothing changes |
| WidthFirst.ClimbKeepsScores | src/main/kotlin/xyz.hotchpotch.reversi/players/WidthFirstPlayer.kt:86-91 | after the cascade every node's score is still the evaluation of some board in its own subtree |
| WidthFirst.AddNode | src/main/kotlin/xyz.hotchpotch.reversi/players/WidthFirstPlayer.kt:93-100 | a new child lengthens the tree by one and keeps every parent before its children |
| WidthFirst.NewChild | src/main/kotlin/xyz.hotchpotch.reversi/players/WidthFirstPlayer.kt:93-100 | the new node for move m is a child of k reached by m, has no best child yet, and is scored by the evaluator on its own board; `WidthFirst.AddNodeShape` states its board and mover |
| WidthFirst.AddNodeShape | src/main/kotlin/xyz.hotchpotch.reversi/players/WidthFirstPlayer.kt:93-100 | the new node has the given parent, move, reversed mover and resulting board, and a parent without a best child gets it as best child |
| WidthFirst.AddNodeLinks | src/main/kotlin/xyz.hotchpotch.reversi/players/WidthFirstPlayer.kt:96-99 | adding a node keeps every best child a child of its node |
| WidthFirst.AddNodeScores | src/main/kotlin/xyz.hotchpotch.reversi/players/WidthFirstPlayer.kt:88-91 | adding a node keeps every score the evaluation of a board in its subtree |
| WidthFirst.Spawn | src/main/kotlin/xyz.hotchpotch.reversi/players/WidthFirstPlayer.kt:117-118 | expanding adds one node per move and keeps the tree's shape |
| WidthFirst.SpawnShape | src/main/kotlin/xyz.hotchpotch.reversi/players/WidthFirstPlayer.kt:111-128 | the new nodes are children of the expanded node, one per move in order, and the node has a best child after any child was added |
| WidthFirst.SpawnBoards | src/main/kotlin/xyz.hotchpotch.reversi/players/WidthFirstPlayer.kt:117-123 | each new child holds the board after its move and the reversed colour |
| WidthFirst.SpawnLinks | src/main/kotlin/xyz.hotchpotch.reversi/players/WidthFirstPlayer.kt:96-108 | expansion keeps every best child a child of its node |
| WidthFirst.SpawnScores | src/main/kotlin/xyz.hotchpotch.reversi/players/WidthFirstPlayer.kt:86-108 | expansion keeps every score the evaluation of a board in its subtree |
| WidthFirst.SearchTree.constructor | src/main/kotlin/xyz.hotchpotch.reversi/players/WidthFirstPlayer.kt:32 | the tree starts as the root alone, scored by the evaluator, with no best child |
| WidthFirst.SearchTree.Propagate | src/main/kotlin/xyz.hotchpotch.reversi/players/WidthFirstPlayer.kt:102-108 | the loop performs the observers' cascade from the given node |
| WidthFirst.SearchTree.AddChild | src/main/kotlin/xyz.hotchpotch.reversi/players/WidthFirstPlayer.kt:93-100 | constructing a child appends it and runs its `init` block |
| WidthFirst.SearchTree.Expand | src/main/kotlin/xyz.hotchpotch.reversi/players/WidthFirstPlayer.kt:111-128 | `search()` appends the node's children and returns their indices, keeping the tree valid |
| WidthFirst.SearchTree.AddChildren | src/main/kotlin/xyz.hotchpotch.reversi/players/WidthFirstPlayer.kt:117-119 | one child per move is added in order, and the tree stays valid |
| WidthFirst.RootExpanded | src/main/kotlin/xyz.hotchpotch.reversi/players/WidthFirstPlayer.kt:32-39 | expanding the root gives it exactly the children of its moves and a best child as soon as it has one |
| WidthFirst.ExpandedBelowRoot | src/main/kotlin/xyz.hotchpotch.reversi/players/WidthFirstPlayer.kt:37-40 | expanding any other node adds no child of the root and keeps the root's best child |
| WidthFirst.AddLeaf | src/main/kotlin/xyz.hotchpotch.reversi/players/WidthFirstPlayer.kt:93-108 | adding a leaf under the root keeps every other node, and the root keeps as best child the first child of highest score, with that score |
| WidthFirst.AddLeafCascade | src/main/kotlin/xyz.hotchpotch.reversi/players/WidthFirstPlayer.kt:93-108 | under a root whose mover is the player, the `init` cascade of a new child stops at the root: the root adopts the child, score and all, exactly when it had no best child or the child scores strictly higher (`WidthFirst.LeafAdded`) |
| WidthFirst.LeafAddedOverLeaves | src/main/kotlin/xyz.hotchpotch.reversi/players/WidthFirstPlayer.kt:102-108 | that adoption keeps the root's best child the first child of highest score, and changes no other node |
| WidthFirst.SpawnLeaves | src/main/kotlin/xyz.hotchpotch.reversi/players/WidthFirstPlayer.kt:111-128 | expanding the root adds one leaf per move, each scored by the evaluator on its board, and the root keeps the first highest-scoring child |
| WidthFirst.RootOnePly | src/main/kotlin/xyz.hotchpotch.reversi/players/WidthFirstPlayer.kt:31-42 | after the root's expansion alone, the root's best child is the child of the first move whose board the evaluator scores highest |
| WidthFirst.LoneRootSpawn | src/main/kotlin/xyz.hotchpotch.reversi/players/WidthFirstPlayer.kt:111-128 | expanding a lone root by any list of moves leaves as child scores the evaluations of the boards those moves lead to, with the first highest one as best child |
| WidthFirst.LeafScoresMatch | src/main/kotlin/xyz.hotchpotch.reversi/players/WidthFirstPlayer.kt:86-87 | children scored by the evaluator on the boards their moves lead to from the root carry, in order, the leaf scores of those moves |
| WidthFirst.RootAnswer | src/main/kotlin/xyz.hotchpotch.reversi/players/WidthFirstPlayer.kt:42 | `root.bestChild` is null exactly when the root has no move, and otherwise is a child of the root reached by one of its moves |
| WidthFirst.ExpandRounds | src/main/kotlin/xyz.hotchpotch.reversi/players/WidthFirstPlayer.kt:37-40 | the do-while leaves exactly the arena `Expanded` specifies: each pass expands the node at the head of the queue and queues its children, in first-in first-out order; the tree stays valid, the root keeps its board and mover and its best child; with no pass left the tree is unchanged |
| WidthFirst.ExpandHead | src/main/kotlin/xyz.hotchpotch.reversi/players/WidthFirstPlayer.kt:38-39 | one pass removes the head of the queue, expands that node as `ExpandAt` does, and queues the new children behind the rest |
| WidthFirst.ExpandAt | src/main/kotlin/xyz.hotchpotch.reversi/players/WidthFirstPlayer.kt:111-128 | expanding one node of the arena keeps the arena well formed and never shrinks it |
| WidthFirst.ExpandAtShape | src/main/kotlin/xyz.hotchpotch.reversi/players/WidthFirstPlayer.kt:111-128 | expanding a node keeps every earlier node in its slot and gives every appended node that node as parent |
| WidthFirst.PassAppendsChildren | src/main/kotlin/xyz.hotchpotch.reversi/players/WidthFirstPlayer.kt:111-128 | the pass used by the player, `Pass`, is one that only appends children of the expanded node |
| WidthFirst.ExpandedPass | src/main/kotlin/xyz.hotchpotch.reversi/players/WidthFirstPlayer.kt:37-40 | one more pass of `Expanded` is the expansion of the head node followed by the passes from the next index |
| WidthFirst.ExpandedFifo | src/main/kotlin/xyz.hotchpotch.reversi/players/WidthFirstPlayer.kt:31-40 | for any pass that only appends children, the passes from a head index keep every earlier node, give every appended node a parent in the window of expanded indices, and append children parent by parent in queue order |
| WidthFirst.FifoJoin | src/main/kotlin/xyz.hotchpotch.reversi/players/WidthFirstPlayer.kt:37-40 | the children of the head node followed by the later passes' nodes are still in queue order |
| WidthFirst.Search | src/main/kotlin/xyz.hotchpotch.reversi/players/WidthFirstPlayer.kt:31-42 | the arena is exactly `Expanded` from the lone root, for the root's pass plus the given rounds; the first-in first-out expansion ends with a tree that keeps every best child a child of its node and every score the evaluation of a board in that node's subtree; the answer is the move of the root's best child, one of the root's moves, and there is none exactly when the root has no child move; with no expansion past the root's, the answer is the first root move whose board the evaluator scores highest |
| WidthFirst.ChoosePoint | src/main/kotlin/xyz.hotchpotch.reversi/players/WidthFirstPlayer.kt:31-43 | the player fails exactly when the game is over: on a full board with the division by zero of `deadline` (line 48), otherwise on `bestChild!!`; else it answers a legal point, or a pass exactly when the mover cannot put, and with no expansion past the root's the first best-scored move |

## Left out

- Console input and output, the tournament framework (`Game`, `Match`, `League`, `Playable`, `Player` factories) and the manual player are not part of this model.
- `toString` is left out for `Board` and `Record`, which only render text. `hashCode` is left out because equality of the map datatype is structural.
- Clocks: `Instant.now()` and the deadlines are modelled as an arbitrary time-out (depth first) or as a number of rounds or expansions supplied by the caller (Monte Carlo, width first). The integer budget is modelled, but is not connected to those counts.
- Randomness: `random()` is modelled as an index parameter or an arbitrary choice. No distribution is claimed.
- The parallel stream of `playOutN` is modelled as a sequential loop, since the count does not depend on the order.
- Floating point:
  - `evaluateBoard3` is modelled by its integer numerator, without the division by 64.
  - Evaluator scores are integers.
  - `Record` ratios are exact rationals.
  - `drawRatio` is only used by `toString`.
- Integer width: counters, `Long` millisecond budgets and win totals are unbounded integers. No 32-bit or 64-bit overflow is modelled; on a 64-cell board and real clocks none can occur.
- `Record` is a value in this model. Its `var` fields, incremented in place by the tournament code, are not modelled.
- Point.At: the off-grid case is modelled as a precondition rather than as the `require` exception.
- Records.Record.CompareTo: requires both records to have plays. With none, the source divides by zero and compares `NaN` ratios. The model states that ordering only through `Records.CompareToRatios`.
- Deadlines.Budget: requires at least one empty cell. With none, the source divides by zero. The depth-first and Monte Carlo players call it only after finding at least two legal points. The width-first player calls it first, and `WidthFirst.ChoosePoint` models that division's failure. The tournament loop calls `choosePoint` only while the game goes on (`framework/Game.kt:84`).
- MixedPlayer.ChoosePoint: the Monte Carlo and depth-first delegates are methods, so the contract states their shared legality rather than equating the answer with theirs. Their own contracts give the rest.
- WidthFirst.ChoosePoint: with expansions past the root's, states only that the answer is the root's best child's move. The minimax value of a deeper tree is not stated as a whole; its update rule is stated one step at a time by `WidthFirst.ClimbStep`.
- The concrete fixtures of the rules tests, such as Black's four opening moves and the 16-stone flip, are not restated as lemmas. The flip and legality rules they exercise are proved for every board.
- `RuleBased` uses the corrected `Stability.StablePointsFixed` for its stable counts, so that it is a total function. On boards where the loop as written returns, the two agree (`Stability.SweepFixedBounds`).

## Findings

| source | as written | input that shows it | evidently intended | confidence | as-written member | corrected member |
|---|---|---|---|---|---|---|
| src/main/kotlin/xyz.hotchpotch.reversi/players/Utils.kt:18-27 | `while (unclearPoints.isNotEmpty())` repeats a round even when that round resolved no point, and since nothing changed, every later round is the same | an all-black board whose only empty cells are c1, d3 and a4: the stones at b3, c2 and c3 each wait on an unclear neighbour behind an empty ray, so after the other stones are resolved a round resolves nothing and the loop never ends | `stablePoints` is documented as returning the stones that can never be flipped (`players/Utils.kt:7`), so it must return: stop when a round makes no progress and return the stable set found so far | not executed | Stability.StablePointsDiverges | Stability.StablePointsFixedStops |
