# Tetris with a genetic-algorithm player, in Dafny

This project models the game core of a browser Tetris with an AI mode in
which a population of linear players is evolved by a genetic algorithm
(`script.js`). It covers:

- the seven piece shapes, the collision test `isValid`, the clockwise
  `rotate` and `spawnPiece`;
- `placePiece`, `clearLines` and `die`: writing a piece into the board,
  removing full rows, scoring and levels, and fitness when a game ends;
- `aiMove` and `evaluateState`: the exhaustive greedy search over four
  orientations and every column from -2, scored by the four-feature linear
  evaluator (aggregate height, complete lines, holes, bumpiness);
- the genome: random creation, `clone` and `mutate`;
- the controller: `createPopulation`, `evolve` with elitism and two-way
  tournament selection (`pickOne`), one `runStep` of the AI loop, the
  player's `humanDrop` and `handleInput`, and the clamping in
  `saveAiSettings`.

Layout, one module per file:

| file | module | what it holds |
|---|---|---|
| `wrappers.dfy` | `Wrappers` | `Option` |
| `shapes.dfy` | `Shapes` | shape table, rotation |
| `board.dfy` | `Board` | grid, collision test, resting row, painting, line clearing, score table |
| `evaluator.dfy` | `Evaluator` | board features and the weighted score; the scan the game runs |
| `search.dfy` | `Search` | the AI move search, its specification and its optimality |
| `genetics.dfy` | `Genetics` | `Genome` class, mutation, tournament, fittest member |
| `tetris.dfy` | `Tetris` | the game state and its rules; `Game` class |
| `controller.dfy` | `Controller` | population, generations, settings; `Session` class |

The game rules are written twice. First, as functions on a `State` value
(`Placed`, `AfterClear`, `AfterAiMove`, `AfterInput`, `AfterHumanDrop`, ...)
with lemmas showing that they keep the game invariant `Inv`. Second, as
the `Game` class, whose methods update its fields in place as the source
does. Each method is proved to move the state exactly as the
corresponding function says. The search and the evaluator are methods
with the source's loops, proved equal to the specification functions
`BestPlacement` and `Evaluate`. Lemmas then prove what the AI move
promises: it ends the game without placing exactly when nothing fits,
the chosen placement rests on the stack, nothing scores higher, and ties
go to the earliest candidate.

Every call to `Math.random` becomes a parameter:

- a piece id in 1..7 for `spawnPiece`;
- four uniform draws for a new genome;
- a coin and a step per gene for `mutate`;
- two indices for `pickOne`.

A `Draw` bundles those one new game consumes. Board dimensions are
parameters, with at least 2 rows and 4 columns, instead of the fixed
20 by 10. Weights are `real`. The `-Infinity` starting values of the
search and of `evolve` become `Option`.

## Model

| member | source | states |
|---|---|---|
| Shapes.ShapeOf | script.js:13-22 | each of the seven table shapes is rectangular, 1 or 2 rows by at most 4, and has a filled cell |
| Shapes.Rotate | script.js:177-187 | an N-by-M shape becomes M-by-N and cell (x, j) of the result is cell (N-1-j, x) of the input |
| Shapes.RotateN | script.js:245-261 | every orientation the search steps through stays rectangular and keeps a filled cell |
| Shapes.RotatePreservesWellFormed | script.js:177-187 | a quarter turn keeps a shape within 4 by 4 and keeps a filled cell |
| Shapes.RotateTwiceAt | script.js:177-187 | two quarter turns send cell (y, x) to (N-1-y, M-1-x) |
| Shapes.RotateFourIsIdentity | script.js:177-187 | four quarter turns give back the original shape |
| Shapes.RotateNFour | script.js:245-261 | after the search's four rotations the shape is the one it started from |
| Board.IsValid | script.js:163-175 | the position is legal iff every filled cell is inside the side walls, above the floor, and on an empty cell unless above the top row |
| Board.FitsAboveFloor | script.js:169 | a legal position of a shape with a filled cell has its top row above the floor |
| Board.RestRow | script.js:248-251 | the drop from a legal row ends on a legal row from which one lower is illegal, every row passed being legal |
| Board.KeepProperties | script.js:214-221 | removing full rows loses exactly as many rows as were full and keeps only non-full rows of the board |
| Board.Keep | script.js:214-221 | the rows that survive the clear: their number plus the full-row count is the board height |
| Board.Cleared | script.js:214-221 | the board after clearing keeps its height; its first k rows are empty, k being the number of full rows, and the rest are the non-full rows in their original order |
| Board.FullCountConcat | script.js:214-221 | the full-row count of two stacked boards is the sum of their counts |
| Board.KeepConcat | script.js:214-221 | removing full rows from two stacked boards removes them from each |
| Board.FullCountWithin | script.js:198 | a counting helper: when every full row lies in rows [lo, hi), at most hi - lo rows are full; it gives `AfterClear` its bound k ≤ 4 after one piece is written |
| Board.ClearedWithoutFullRows | script.js:214-221 | clearing a board without full rows changes nothing |
| Board.ClearedIsGrid | script.js:214-221 | clearing keeps the board's dimensions and cell values and leaves no full row |
| Board.ClearIdempotent | script.js:214-221 | clearing twice is clearing once |
| Board.PaintOutsideRows | script.js:191-201 | writing a piece changes only the rows the piece spans |
| Board.PaintedCellwise | script.js:191-201 | a board that agrees cell by cell with the written one after the full scan is the written board |
| Board.Paint | script.js:191-201 | the written board keeps rows×cols; every on-board cell under a filled shape cell holds the piece's value and every other cell keeps its old value; off-board cells are skipped as at script.js:284 |
| Board.LineScore | script.js:225 | clearing no rows scores nothing, and more rows at once always score more |
| Board.LevelFor | script.js:226 | the level is at least 1 |
| Evaluator.TopFrom | script.js:293-295 | the first occupied cell of a column at or below row r, with every cell above it empty |
| Evaluator.ColumnHeight | script.js:291-295 | a column's height is 0 iff the column is empty; otherwise rows minus the row of its topmost occupied cell, with nothing above it |
| Evaluator.ColumnHoles | script.js:292-299 | an empty column has no holes; otherwise fewer holes than its height |
| Evaluator.EvaluateState | script.js:274-320 | the score the evaluator returns is the weighted sum of the four features of the board with the piece merged in, `Evaluate` |
| Evaluator.ScanColumns | script.js:290-303 | the column loop yields every column's height, their sum and the total number of holes |
| Evaluator.MergePiece | script.js:280-288 | the merged board has 1 under every filled on-board cell of the piece and the old value elsewhere |
| Evaluator.ScanColumn | script.js:291-301 | one pass down a column gives its height and its hole count |
| Evaluator.SumBumpiness | script.js:305-307 | the loop sums the absolute differences of neighbouring heights |
| Evaluator.CountFullRows | script.js:309-311 | the loop counts the full rows of the merged board |
| Evaluator.SumAtMost | script.js:302 | a summing helper: n entries each at most b sum to at most n * b; it gives `FeatureBounds` its aggregate-height bound |
| Evaluator.SumMonotone | script.js:302 | a summing helper: entry-wise smaller sequences have a smaller sum; it gives `FeatureBounds` holes ≤ height |
| Evaluator.BumpinessAtMost | script.js:305-307 | with heights at most b, bumpiness is at most (n - 1) * b |
| Evaluator.FeatureBounds | script.js:290-311 | aggregate height is at most rows * cols, lines at most rows, holes at most the aggregate height, bumpiness at most rows * (cols - 1) |
| Evaluator.Evaluate | script.js:274-320 | the score is w0·height + w1·lines + w2·holes + w3·bumpiness of the board with the candidate merged in, with height ≤ rows·cols, lines ≤ rows and holes ≤ height |
| Search.SlotsOf | script.js:246 | one orientation is tried at the cols + 2 columns from -2 upwards, in order |
| Search.SlotsUpToLength | script.js:245-261 | n orientations give n * (cols + 2) candidates |
| Search.SlotsUpToAt | script.js:245-261 | candidate r * (cols + 2) + x + 2 is orientation r at column x |
| Search.SlotsUpToMembers | script.js:245-261 | every candidate is some orientation r < n at a column in [-2, cols) |
| Search.ScoreOf | script.js:247-253 | a candidate has a score iff its shape fits at the piece's row |
| Search.FirstMaxIsFirstMaximum | script.js:254-257 | the kept candidate is the first one of highest score; none is kept iff no candidate has a score |
| Search.DropAndScore | script.js:248-253 | the drop ends at the resting row, and the score is that candidate's `Evaluate` |
| Search.ScanSlot | script.js:247-258 | one loop body keeps what the specification of the search keeps after one more candidate |
| Search.SearchOrientation | script.js:246-259 | the column loop for one orientation extends the kept best over all its columns |
| Search.SearchBest | script.js:241-261 | the search loop returns `BestPlacement`, the first best-scoring resting candidate |
| Search.TracksStep | script.js:254-257 | a strictly greater score replaces the kept candidate, a tie does not |
| Search.BestPlacementNone | script.js:245-261 | the search finds nothing iff no orientation fits at any column at the piece's row |
| Search.BestPlacementIsCandidate | script.js:245-261 | the chosen placement is one of the four orientations at a searched column |
| Search.BestPlacementRests | script.js:248-251 | the chosen placement fits, one row lower does not, and it is not above the piece's row |
| Search.RestIsResting | script.js:248-251 | a dropped candidate lands on its resting row |
| Search.BestPlacementIsOptimal | script.js:253-257 | no fitting candidate evaluates higher than the chosen one |
| Search.EarlierSlotIndex | script.js:245-246 | a candidate visited earlier has a smaller index in the search order |
| Search.SlotOfIndex | script.js:245-246 | every index of the search order names an orientation and a column |
| Search.BestPlacementIsEarliest | script.js:254-257 | ties go to the earliest candidate: every fitting candidate visited before the chosen one scores strictly lower |
| Search.BestPlacement | script.js:241-261 | the placement the search commits to, if any, fits on the board at or below the piece's row; the lemmas above prove it optimal, resting and earliest |
| Genetics.InitialGenes | script.js:74 | each gene is its draw minus 0.5, so in [-0.5, 0.5) for a draw in [0, 1) |
| Genetics.Step | script.js:86 | a mutation step lies in [-0.2, 0.2) for a draw in [0, 1) and is 0 only for the draw 0.5 |
| Genetics.Mutated | script.js:83-89 | a gene whose coin falls below the rate moves by its step; every other gene is kept |
| Genetics.MutatedAtZeroRate | script.js:83-89 | when no coin falls below the rate, mutation changes nothing |
| Genetics.MutatedIsBounded | script.js:83-89 | no gene moves by 0.2 or more in one mutation |
| Genetics.Genome.constructor | script.js:72-75 | a new genome's genes are its four draws minus 0.5 |
| Genetics.Genome.Clone | script.js:77-81 | the clone is a new object with the same genes |
| Genetics.Genome.Mutate | script.js:83-89 | the in-place loop leaves the genes `Mutated` from the old ones |
| Genetics.PickOne | script.js:484-489 | nothing for an empty population; otherwise one of the two drawn entrants, at least as fit as both, the second on a tie |
| Genetics.FirstMaxUnique | script.js:458-460 | a fitness list has one first maximum |
| Genetics.FittestIn | script.js:455-461 | nothing for an empty population; otherwise the first member of maximum fitness |
| Genetics.Fittest | script.js:455-461 | the scan for the fittest member returns `FittestIn`: none iff the population is empty, else the first maximum |
| Tetris.SpawnFitsEmptyBoard | script.js:151-160 | a new piece fits on an empty board |
| Tetris.Spawn | script.js:151-160 | a new piece has the given id and its table shape, sits on row 0, lies inside the columns when cols ≥ 4, and is centred to within one column |
| Tetris.InitialInv | script.js:136-149 | a new game satisfies the game invariant |
| Tetris.FitnessOf | script.js:234 | fitness is score + 1000 * lines + moves, so at least each of them |
| Tetris.Died | script.js:231-235 | the game is dead with fitness score + 1000·lines + moves, and nothing else changes |
| Tetris.PaintedFullCount | script.js:198-203 | writing one piece into a board without full rows makes at most as many full rows as the piece has rows |
| Tetris.PlacedKeepsInv | script.js:189-210 | placing keeps the invariant; the board becomes the written board with its full rows cleared, lines grow by their number (at most 4), moves are unchanged, and a game that dies gets its fitness |
| Tetris.Placed | script.js:189-210 | placing leaves moves unchanged and never lowers score or lines; a surviving game has the old next piece as current and a new spawn as next; a game that dies has its fitness set |
| Tetris.AfterClearWithoutFullRows | script.js:223-228 | when no row is full, clearing leaves score, lines, level and board alone |
| Tetris.AfterClear | script.js:212-228 | clearing keeps the board height, adds the full-row count to lines, never lowers the score, recomputes the level when rows were cleared, and changes no other field |
| Tetris.MoveKeepsInv | script.js:264-266 | moving the live piece to a legal position keeps the invariant |
| Tetris.AiPlacedFacts | script.js:263-268 | committing a placement keeps the invariant and adds one move; a game that dies on it has fitness one less than its final moves give |
| Tetris.AiMoveFacts | script.js:238-272 | the AI move keeps the invariant; it ends the game without placing (exactly `Died`) iff the search finds nothing, and otherwise adds one move, the placement itself possibly ending the game |
| Tetris.AiPlaced | script.js:263-268 | committing a placement adds exactly one move and never lowers score or lines; a surviving game has the old next piece as current |
| Tetris.AfterAiMove | script.js:238-272 | a dead game or one without genes is unchanged; otherwise score and lines never drop and moves grow by at most one |
| Tetris.RotationColumn | script.js:608-621 | the rotated shape is tried in the current column, then one left, then one right; none iff it fits in none |
| Tetris.ShiftKeepsInv | script.js:594-607 | a left, right or down move keeps the invariant and changes only the piece's position |
| Tetris.RotationKeepsInv | script.js:608-621 | a rotation keeps the invariant and changes only the piece's shape, to the rotated one, and its column, by at most one |
| Tetris.InputKeepsInv | script.js:590-629 | every key keeps the invariant; every key but space moves only the current piece |
| Tetris.Shifted | script.js:594-607 | only the current piece may change; it keeps its id and shape, and either stays or moves by (dx, dy) to a position that fits |
| Tetris.Rotated | script.js:608-621 | only the current piece may change; it keeps its id and row, and if it changes it takes the rotated shape in a fitting column at most one away |
| Tetris.HardDropped | script.js:622-628 | a hard drop leaves moves unchanged, never lowers score or lines, and a surviving game has the old next piece as current |
| Tetris.AfterInput | script.js:590-629 | a dead game or an unknown key changes nothing; no key changes moves or lowers score or lines |
| Tetris.HumanDropKeepsInv | script.js:436-443 | the timed drop keeps the invariant and moves the piece one row down whenever that fits |
| Tetris.AfterHumanDrop | script.js:436-443 | moves are unchanged and score and lines never drop; the piece goes one row down, or the next piece becomes current, or the game is over |
| Tetris.Game.constructor | script.js:136-149 | a new game is the initial state: empty board, score 0, lines 0, level 1, alive; it plays with a clone of the parent's genes, else random genes in AI mode, else none |
| Tetris.Game.Die | script.js:231-235 | the game is over and its fitness is fixed; nothing else changes |
| Tetris.Game.WritePiece | script.js:191-201 | a piece with a filled cell above the top row kills the game and leaves the board; otherwise its id is written under each filled cell |
| Tetris.Game.ClearLines | script.js:212-229 | the board loses its full rows, and lines, score and level change as `AfterClear` says |
| Tetris.Game.PlacePiece | script.js:189-210 | the game moves to `Placed` of its old state and keeps the invariant |
| Tetris.Game.AiMove | script.js:238-272 | the game moves to `AfterAiMove` of its old state with its own genes and keeps the invariant |
| Tetris.Game.CommitPlacement | script.js:263-268 | the piece takes the placement, is placed, and the move is counted, as `AiPlaced` says |
| Tetris.Game.HumanDrop | script.js:436-443 | the game moves to `AfterHumanDrop` of its old state and keeps the invariant |
| Tetris.Game.HandleInput | script.js:590-629 | the game moves to `AfterInput` of its old state for the key and keeps the invariant |
| Tetris.Game.Shift | script.js:594-607 | the piece moves by the offset exactly when it fits there |
| Tetris.Game.RotatePiece | script.js:608-621 | the piece rotates in the column `RotationColumn` gives, or stays |
| Tetris.Game.HardDrop | script.js:622-628 | the piece falls to its resting row and is placed |
| Tetris.TurnPiece | script.js:608-621 | the rotation tries the three columns in order and returns the piece `Rotated` gives |
| Tetris.WriteCells | script.js:191-201 | the cell loop reports a death iff some filled cell is above the top row, and then has written nothing; otherwise the board has the id written under the piece |
| Tetris.RemoveFullRows | script.js:212-222 | the bottom-up scan returns the cleared board and the number of rows that were full |
| Tetris.ScanEnds | script.js:214-221 | when the scan passes the top row, the board is the cleared board and the count is the number of full rows |
| Controller.ClampPopSize | script.js:679 | the population size is kept in [10, 500]: unchanged inside, 10 below, 500 above |
| Controller.ClampMutationRate | script.js:680 | the mutation rate is kept in [0.01, 0.5]: unchanged inside, 0.01 below, 0.5 above |
| Controller.NextSize | script.js:463-478 | the next generation has popSize games, or elitismCount when that is larger and there is a fittest game |
| Controller.Unparented | script.js:146 | a game made without a parent has genes iff in AI mode |
| Controller.ElitesCopyFittest | script.js:455-466 | the first elitismCount games of a non-empty population's successor carry the genes of its first game of maximum fitness |
| Controller.OffspringNearParent | script.js:468-474 | every later game carries its tournament winner's genes, each moved by less than 0.2; the winner is at least as fit as the other entrant |
| Controller.ChildWeights | script.js:463-477 | the genes game i of the next generation starts with; whenever it has genes there are four of them; the lemmas beside it state what elites and offspring carry |
| Controller.RaisedBest | script.js:455-461 | the best fitness never falls, is at least every fitness of the finished generation, and is either the old record or one of them |
| Controller.NewGameIsValid | script.js:136-149 | a new game with four genes or none is a valid game |
| Controller.BredGamesValid | script.js:463-478 | every game of a new generation is a valid game of the session's size |
| Controller.NewGames | script.js:445-448 | popSize distinct new games, each started on its own draw with unparented genes |
| Controller.NewUnparented | script.js:447 | a new game without a parent, on the given draw |
| Controller.NextGeneration | script.js:452-481 | the new best fitness and a new generation of distinct valid games of size `NextSize`, game i carrying `ChildWeights` of the old genes and fitnesses |
| Controller.MoveAll | script.js:499-505 | every game makes its AI move (dead games stay as they are); the result is true iff every game was already dead |
| Controller.Session.constructor | script.js:2-11 | the default settings (20 by 10, 50 games, rate 0.1, elitism 2), no population, generation 0, best fitness 0 |
| Controller.Session.CreatePopulation | script.js:445-450 | popSize new unparented games and generation 1 |
| Controller.Session.Evolve | script.js:452-482 | generation one higher, best fitness `RaisedBest`, and a new population bred by elitism and tournament with mutation |
| Controller.Session.StepAll | script.js:499-505 | every game makes its AI move; true iff every game was already dead |
| Controller.Session.RunStep | script.js:498-510 | while some game is alive, every live game moves and the population, generation and best fitness stay; once all are dead, the next generation is bred, the generation goes up by one and the best fitness becomes `RaisedBest` of the finished generation |
| Controller.Session.SaveAiSettings | script.js:675-686 | both settings are clamped, the best fitness is reset, and in AI mode the population is popSize new unparented games at generation 1; otherwise the generation is 0 and the population stays |

## Left out

- Drawing, the dashboard, the draggable panel, audio and the graphics
  toggle are left out. They do not change the game state.
- The animation-frame loops are left out: `humanLoop`, the drop-interval
  timer, `aiLoop` and its speed multiplier. The model covers one step of
  each (`HumanDrop`, `RunStep`).
- Mode switching, `gameOver` and the human-mode restart are left out.
  The mode is a parameter (`aiMode`).
- The `game.mode !== 'normal' || !game.activeGame` guard of
  `handleInput` is left out. The model keeps only its dead-game check.
- `Math.random` is left out. Its results are parameters, and whatever
  the draws, the model does not claim they follow a uniform distribution.
- IEEE floating point is not modelled. Weights, draws and the mutation
  rate are exact reals, so rounding in the weighted score is not
  captured.
- ClampPopSize: the input is an integer, so the `NaN` that `parseInt`
  gives for a non-numeric entry, which `Math.max`/`Math.min` would pass
  through, is not modelled.
- ClampMutationRate: likewise, a `NaN` from `parseFloat` is not modelled.
- Tetris.Game.constructor: the genome is held as an immutable value
  (`Option<seq<real>>`) rather than a shared `Genome` object. `clone`
  copies the genes into a new object, so no two games share genes
  anyway; `Genetics.Genome` models the object itself.
- The board size is not fixed at 20 by 10: any board of at least 2 rows
  and 4 columns is allowed, so that every piece spawns inside it.
- A game that ends during an AI move has its fitness fixed before that
  move is counted, so fitness lacks the final move
  (`Tetris.AiPlacedFacts`). The model keeps this behaviour of the source.
