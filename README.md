# BlockFallerPi game engine in Dafny

BlockFallerPi is a Tetris-style arcade game for a Raspberry Pi cabinet, written
in Processing (Java). The repository holds two versions of the program:

- `docs/TetrisArcadeWithComments.java`, the documented copy;
- `application.linux64/source/TetrisPi.java`, the deployed build.

This project models the game engine the two versions share and proves
properties of that model:

- the 10 x 24 grid of blocks and the falling piece (`GridManager`, `Piece`,
  `PieceType`, `Direction`);
- collisions, moves, rotations, locking, line detection, line clearing,
  scoring, levels and the per-frame update;
- the AI that plays when nobody touches the controls: its four board metrics,
  its 40-candidate placement search, and the one-step-per-frame steering
  towards the chosen target;
- the input repeat machine (`InputManager`);
- the session around the grid (`GameManager`): start, reset, the cheat names,
  the high-score table and its de-duplicated view, and the routing of one input
  to the grid or to the pause menu;
- the pause menu (`MenuManager`): moving along rows and options, editing the
  name, choosing the start level, and closing.

## Modules

| Module | File | Contents |
|---|---|---|
| `Optional` | `option.dfy` | `Option`. |
| `Pieces` | `pieces.dfy` | Piece kinds and shapes, and the `Piece` class. |
| `Boards` | `board.dfy` | The board and the engine's pure rules. |
| `Metrics` | `metrics.dfy` | The AI's board measures. |
| `Search` | `search.dfy` | Piece moves as functions, and the AI search as a specification. |
| `Input` | `input.dfy` | `InputType` and the `InputManager` class. |
| `Grid` | `grid.dfy` | The `GridManager` class and the AI's imperative search over cloned grids. |
| `Scores` | `scores.dfy` | The score table, name characters, name trimming and the cheat names. |
| `Game` | `game.dfy` | The `MenuManager` and `GameManager` classes. |

Representation choices:

- Piece shapes are half-integer offsets. They are stored in half-cell units,
  and Java's `Math.round` is `floor(v + 1/2)`.
- A board cell is `Option<PieceType>`. A block's colour is derived from its
  kind and the level.
- Randomly drawn piece kinds are parameters.
- The game-over call back into `gameManager.reset()` is a returned flag, and
  the caller resets.

The classes keep the source's in-place state:

- `GridManager.blocks` is an `array2`;
- a piece's offsets are an `array`;
- the `InputManager` flags and timers are arrays.

Each method is proved against a function on values, and the properties are
proved about those functions:

- the grid's methods against `Boards` and `Search` (the board, moves,
  rotations and the search) and against the `GridFields` steps in `Grid`
  (`DownMove`, `AfterClear`, `AfterPush`, `FreshFields`);
- the input manager against `Tick` and `Charged` in `Input`;
- the score table against `Scores`;
- the game and menu methods against `MenuStep` and the `GameState`
  transitions in `Game` (`Played`, `PlayedTurn`, `MenuTurn`, `Closed`,
  `Edited`, `NewGameIn`, `Restarted`, `Active`). A `GameState` holds the
  session values, the grid, its board, piece and fields, the input arrays
  and the menu, so each of these contracts states the whole new state.

Where the two versions differ, the documented copy is followed. The
exception is the AI's starting score: the documented one never lets the AI
choose a move (see Findings), so the imperative model uses the deployed one.
Both versions also compare the name by reference when the menu closes; the
model compares it by value (`Game.Restarts`), and models the reference
comparison beside it (`Game.RestartsAsWritten`, see Findings).
Each deployed difference that matters is modelled beside the documented
behaviour:

- `Search.DeployedScan` and `Search.DeployedCheckAgrees` model the deployed
  `checkCollisions`, which locks internally.
- `Boards.TopLine` models the deployed `calculateTopLine`.

## Model

| member | source | states |
|---|---|---|
| Pieces.PieceIndex | docs/TetrisArcadeWithComments.java:4682-4712 | Every piece kind has an index in 0..6. |
| Pieces.PieceTypeOf | docs/TetrisArcadeWithComments.java:4698-4704 | `PieceType.get` finds a kind exactly for the indices 0..6, and the kind found has that index, so it inverts `PieceIndex`. |
| Pieces.Shape | docs/TetrisArcadeWithComments.java:4408-4449 | Every kind is built from four blocks. |
| Pieces.RotateAll | docs/TetrisArcadeWithComments.java:4470-4491 | Rotating the offsets keeps their number. |
| Pieces.RotateAllInverse | docs/TetrisArcadeWithComments.java:4470-4491 | Rotating all offsets one way and then the other restores them. |
| Pieces.FourQuarterTurns | docs/TetrisArcadeWithComments.java:4470-4491 | Four quarter turns of a shape give back the shape. |
| Pieces.TurnForward | docs/TetrisArcadeWithComments.java:4470-4491 | A clockwise turn of the shape at orientation o gives the shape at orientation (o+1)%4. |
| Pieces.TurnBackward | docs/TetrisArcadeWithComments.java:4470-4491 | A counter-clockwise turn of the shape at orientation o gives the shape at orientation (o+3)%4. |
| Pieces.TurnedSmall | docs/TetrisArcadeWithComments.java:4408-4449 | Every orientation of every shape has four offsets, each within two half-cells of the centre. |
| Pieces.RoundHalf | docs/TetrisArcadeWithComments.java:4455-4462 | Rounding a half-cell coordinate gives the cell whose doubled index is the coordinate or one above it, as `Math.round` does. |
| Pieces.Cells | docs/TetrisArcadeWithComments.java:4455-4462 | `updateBlocks` gives each block the rounded position of centre plus offset, one block per offset. |
| Pieces.Spawned | docs/TetrisArcadeWithComments.java:4376-4387 | A new piece is consistent: its offsets are its kind's shape turned to its orientation, and it has four blocks. |
| Pieces.Cloned | docs/TetrisArcadeWithComments.java:4394-4400 | A clone keeps the kind, row and lock flag but restarts at column 5 in orientation 0. |
| Pieces.RotatedConsistent | docs/TetrisArcadeWithComments.java:4470-4491 | `rotate` keeps offsets and orientation in step. |
| Pieces.RotationRoundTrip | docs/TetrisArcadeWithComments.java:4470-4491 | Rotating one way and then the other restores the piece exactly. |
| Pieces.Rotated | docs/TetrisArcadeWithComments.java:4470-4491 | A rotation changes only the offsets and the orientation, keeps the number of offsets, and leaves the orientation in 0..3. |
| Pieces.FourRotations | docs/TetrisArcadeWithComments.java:4470-4491 | Four rotations the same way restore the piece exactly. |
| Pieces.ConsistentSmall | docs/TetrisArcadeWithComments.java:4455-4462 | A consistent piece's blocks lie within two cells of its centre. |
| Pieces.TurnOffsets | docs/TetrisArcadeWithComments.java:4473-4484 | The in-place loop over the offset array leaves exactly the rotated offsets. |
| Pieces.Piece.constructor | docs/TetrisArcadeWithComments.java:4376-4387 | A new piece has the given position, kind and lock flag, orientation 0 and its kind's shape. |
| Pieces.Piece.Rotate | docs/TetrisArcadeWithComments.java:4470-4491 | The piece's state becomes its rotation, and it stays consistent. |
| Pieces.Piece.SetPos | docs/TetrisArcadeWithComments.java:4553-4557 | Only the centre changes. |
| Pieces.Piece.SetX | docs/TetrisArcadeWithComments.java:4569-4572 | Only the column changes. |
| Pieces.Piece.SetY | docs/TetrisArcadeWithComments.java:4584-4587 | Only the row changes. |
| Pieces.Piece.Clone | docs/TetrisArcadeWithComments.java:4394-4400 | The clone is a fresh, valid piece whose state is `Cloned` of the original: column 5, orientation 0. |
| Boards.EmptyBoard | docs/TetrisArcadeWithComments.java:1862-1901 | A new grid has no blocks. |
| Boards.UnblockedInBounds | docs/TetrisArcadeWithComments.java:2148-2202 | Cells that pass the collision test after a shift are inside the board, except that they may be above the top. |
| Boards.Lock | docs/TetrisArcadeWithComments.java:2246-2266 | Locking writes the piece's kind into each of its cells that is on the board and leaves every other cell as it was. |
| Boards.RowCount | docs/TetrisArcadeWithComments.java:2276-2288 | The count of a row's occupied cells equals n exactly when all n are occupied, and is positive exactly when one is occupied. |
| Boards.FullRowsSpec | docs/TetrisArcadeWithComments.java:2272-2288 | `checkLines` records exactly the rows with all ten cells occupied, in increasing order. |
| Boards.FullRows | docs/TetrisArcadeWithComments.java:2272-2288 | Every recorded row is a row of the board. |
| Boards.ClearLine | docs/TetrisArcadeWithComments.java:2374-2386 | Rows below the cleared line keep their blocks, and the cleared line receives the row above it. |
| Boards.ClearRows | docs/TetrisArcadeWithComments.java:2318-2367 | Cells below every cleared row keep their blocks. |
| Boards.ClearRowsSnoc | docs/TetrisArcadeWithComments.java:2318-2367 | Clearing a list of rows is clearing them one at a time in order. |
| Boards.ClearFullRowsRemovesThem | docs/TetrisArcadeWithComments.java:2374-2386 | With row 0 empty, clearing the full rows in increasing order removes exactly those rows. The other rows keep their order and move down, and empty rows fill the top. |
| Boards.ClearLineKeepsTopRow | docs/TetrisArcadeWithComments.java:2374-2386 | As written, `clearLine` leaves row 0 unchanged and copies it into row 1. |
| Boards.JavaRound | docs/TetrisArcadeWithComments.java:2324-2340 | The result is the integer within half a unit of the value, ties upward, as `Math.round` does. |
| Boards.LineClearPoints | docs/TetrisArcadeWithComments.java:2324-2340 | A clear of one to four rows is worth 100 to 1000 base points, in hundreds. |
| Boards.ScoreAfterClear | docs/TetrisArcadeWithComments.java:2324-2340 | The rounded score `round(points * (1 + 0.8 * level))` is exactly points + (points/5)·4·level: 100+80L, 300+240L, 600+480L or 1000+800L. |
| Boards.MorePointsForMoreRows | docs/TetrisArcadeWithComments.java:2324-2340 | Clearing more rows at once never earns fewer points, and any clear earns some. |
| Boards.LevelAfterClear | docs/TetrisArcadeWithComments.java:2343-2345 | The level rises by at most one per clear, and never past 16. It rises exactly when the total lines reach 5·(level+1) and the level is not 16. |
| Boards.FallRate | docs/TetrisArcadeWithComments.java:2408-2411 | The frames per fall step are in 0..45, and intense mode is never slower. |
| Boards.FallRateNonIncreasing | docs/TetrisArcadeWithComments.java:1808-1812 | A higher level never falls more slowly. |
| Boards.ColorSlot | docs/TetrisArcadeWithComments.java:2420-2443 | Each kind takes one of three colour slots. |
| Boards.ColorOfPiece | docs/TetrisArcadeWithComments.java:2420-2443 | The intense colour is the same for every kind and level. |
| Boards.ColorsRepeat | docs/TetrisArcadeWithComments.java:2420-2443 | Kinds sharing a colour slot get the same colours, and the colour scheme repeats every five levels. |
| Boards.TopLine | application.linux64/source/TetrisPi.java:1383-1392 | `calculateTopLine` returns the first row holding a block: every row above it is empty. With an empty board it returns the last row. |
| Boards.TopLineFrom | application.linux64/source/TetrisPi.java:1383-1392 | The same, for the scan that starts at row y. |
| Metrics.TopFrom | docs/TetrisArcadeWithComments.java:286-299 | The first occupied row of a column at or below row y: the rows before it are empty. |
| Metrics.ColHeight | docs/TetrisArcadeWithComments.java:286-299 | `getColHeight` returns the column's top-block row (24 when the column is empty), or its height from the floor (0 when empty). The rows above the top are empty and the top cell is occupied. |
| Metrics.TotalHeightFrom | docs/TetrisArcadeWithComments.java:214-220 | The summed column heights are non-negative and at most 24 per column. |
| Metrics.LinesUpTo | docs/TetrisArcadeWithComments.java:227-242 | The count of full rows among the first n rows is between 0 and n. |
| Metrics.EmptyBelow | docs/TetrisArcadeWithComments.java:249-262 | The empty cells of a column from a given row down are non-negative and bounded by the rows left. |
| Metrics.HolesFrom | docs/TetrisArcadeWithComments.java:249-262 | The holes are non-negative and at most 24 per column. |
| Metrics.Abs | docs/TetrisArcadeWithComments.java:274 | `Math.abs` on an int. |
| Metrics.RoughnessFrom | docs/TetrisArcadeWithComments.java:270-278 | The roughness is non-negative and at most 24 per adjacent pair. |
| Metrics.TotalHeight | docs/TetrisArcadeWithComments.java:214-220 | The summed column heights lie between 0 and 24 per column. |
| Metrics.Lines | docs/TetrisArcadeWithComments.java:227-242 | The full rows number between 0 and 24. |
| Metrics.Holes | docs/TetrisArcadeWithComments.java:249-262 | The holes lie between 0 and 24 per column. |
| Metrics.Roughness | docs/TetrisArcadeWithComments.java:270-278 | The roughness lies between 0 and 24 per adjacent pair of columns. |
| Metrics.Evaluate | docs/TetrisArcadeWithComments.java:192-195 | The board score never exceeds the reward for its full rows minus the penalty for its height; holes and roughness only lower it. |
| Metrics.LinesCountsFullRows | docs/TetrisArcadeWithComments.java:227-242 | `calcLines` counts exactly the rows `checkLines` records. |
| Metrics.ColumnCoversFullRows | docs/TetrisArcadeWithComments.java:286-299 | Every column is at least as high as the number of full rows. |
| Metrics.TotalHeightCoversFullRows | docs/TetrisArcadeWithComments.java:214-242 | The total height is at least ten times the number of full rows. |
| Metrics.ScoreNeverPositive | docs/TetrisArcadeWithComments.java:192-195 | With the AI's weights, no board ever scores above zero. |
| Metrics.ScoreBoundedBelow | docs/TetrisArcadeWithComments.java:192-195 | No board scores -250 or less, so every board beats the deployed starting score. |
| Search.TranslatedCells | docs/TetrisArcadeWithComments.java:2067-2101 | Moving the centre one step moves every block one step the same way. |
| Search.Move | docs/TetrisArcadeWithComments.java:2067-2101 | A move changes only the centre. A collision leaves the piece exactly where it was, and a non-move direction never moves or collides. |
| Search.MoveLandsFree | docs/TetrisArcadeWithComments.java:2067-2101 | A move that does not collide leaves the piece on free cells inside the board and keeps it consistent. |
| Search.MoveInBounds | docs/TetrisArcadeWithComments.java:2067-2101 | Moving, or failing to move, never takes a piece that was inside the board out of it. |
| Search.Drop | docs/TetrisArcadeWithComments.java:178-180 | The AI's fall loop changes only the row, and lowers the piece. It stops at the first row from which a step down collides. |
| Search.DropInBounds | docs/TetrisArcadeWithComments.java:178-180 | A dropped piece stays inside the board. |
| Search.TurnKeeps | docs/TetrisArcadeWithComments.java:2112-2136 | An unchecked turn changes only offsets and orientation, and keeps S, Z and I in orientations 0 and 1. |
| Search.TurnUndone | docs/TetrisArcadeWithComments.java:2212-2239 | `checkRotationCollision`'s turn and turn back restore the piece exactly, for every kind. |
| Search.Turn | docs/TetrisArcadeWithComments.java:2112-2136 | An unchecked turn changes only the offsets and the orientation. |
| Search.Rotate | docs/TetrisArcadeWithComments.java:2112-2136 | A checked rotation either leaves the piece exactly as it was or is the unchecked turn; `RotateCommits` says which. |
| Search.RotateCommits | docs/TetrisArcadeWithComments.java:2104-2136 | A checked rotation turns the piece exactly when it is not an O and the turned piece collides with nothing, and otherwise leaves it as it was. A piece that turned lands on free cells inside the walls and above the floor. |
| Search.RotateKeeps | docs/TetrisArcadeWithComments.java:2112-2136 | A checked rotation keeps the centre and kind, keeps the piece two-way, and keeps it inside the board. |
| Search.RotateTimes | docs/TetrisArcadeWithComments.java:164-165 | The AI's n clockwise turns keep the centre and kind and keep the piece inside the board. |
| Search.RotateTimesStep | docs/TetrisArcadeWithComments.java:164-165 | One more turn is one more checked clockwise rotation. |
| Search.MoveTimes | docs/TetrisArcadeWithComments.java:168-173 | The AI's n sideways moves keep the kind, orientation and row, and keep the piece inside the board. |
| Search.MoveTimesStep | docs/TetrisArcadeWithComments.java:168-173 | One more move is one more `moveCurrentPiece`, and a bump in any move is remembered. |
| Search.Candidate | docs/TetrisArcadeWithComments.java:158-195 | A candidate's orientation is in 0..3 and its score is in (-250, 0]. |
| Search.Placed | docs/TetrisArcadeWithComments.java:183-195 | Writing the landed piece into a copy of the board and scoring it gives a score in (-250, 0]. |
| Search.Landing | docs/TetrisArcadeWithComments.java:164-180 | Turning, sliding to the wall, stepping right and dropping leaves a consistent piece with orientation in 0..3. |
| Search.Outcomes | application.linux64/source/TetrisPi.java:77-132 | The forty candidates, rotation-major then column-minor, each from its own clone. |
| Search.OutcomesExist | application.linux64/source/TetrisPi.java:77-132 | Some sequence enumerates the forty candidates. |
| Search.EnumeratesUnique | application.linux64/source/TetrisPi.java:77-132 | It is the only one. |
| Search.OutcomesBounded | application.linux64/source/TetrisPi.java:77-132 | Every candidate has an orientation in 0..3 and a non-positive score. |
| Search.BumpsSpec | docs/TetrisArcadeWithComments.java:2067-2101 | The search charges LEFT (or RIGHT) exactly when some candidate bumped the left (or right) wall. |
| Search.Best | application.linux64/source/TetrisPi.java:77-132 | The best score kept is at least the start and at least the score of every candidate looked at. |
| Search.SearchMoves | docs/TetrisArcadeWithComments.java:153-207 | The search answers (-1, -1) exactly when no candidate scores above the start. |
| Search.BestSpec | application.linux64/source/TetrisPi.java:77-132 | Keeping a candidate only on a strictly higher score yields the first candidate of maximal score above the start, or (-1, -1) when none beats the start. |
| Search.BestResult | application.linux64/source/TetrisPi.java:77-132 | `getAIResponse` returns (-1, -1) exactly when no candidate beats the start, and otherwise the first best candidate's column and orientation. |
| Search.Pow2 | docs/TetrisArcadeWithComments.java:154 | The starting score `Double.MIN_VALUE`, 2^-1074, is built from a power of two that is at least 1, so it is positive: the fact that makes the documented search keep no candidate. |
| Search.DocumentedSearchNeverChooses | docs/TetrisArcadeWithComments.java:153-207 | As documented, the search returns (-1, -1) on every board. |
| Search.DeployedSearchChooses | application.linux64/source/TetrisPi.java:77-132 | As deployed, the search always returns the column and orientation of the first best of the forty candidates. |
| Search.AiStepFor | docs/TetrisArcadeWithComments.java:1931-1942 | `moveToAITarget` takes exactly one action. It turns exactly when the orientation is wrong, and falls exactly when both orientation and column are right. |
| Search.DocumentedAiOnlyTurns | docs/TetrisArcadeWithComments.java:1931-1942 | After any documented search the target is (-1, -1), so toward it the AI only turns the piece: every piece pushed while the AI plays is only turned. |
| Grid.FirstAiPieceStepsLeft | docs/TetrisArcadeWithComments.java:1885-1886 | The piece in play when the AI takes over still has a new grid's target (0, 0): from its spawn it steps left, never turns, and drops once at column 0. |
| Search.SpawnInBounds | docs/TetrisArcadeWithComments.java:1993-1996 | A piece spawned at column 5, row 0 lies inside the board. |
| Search.DeployedScan | application.linux64/source/TetrisPi.java:1277-1328 | The deployed scan reports a collision exactly when a shifted block is blocked, and locks only on a collision with handling on. |
| Search.DeployedScanLocks | application.linux64/source/TetrisPi.java:1301-1316 | The deployed scan locks exactly on a downward collision with handling on. |
| Search.DeployedCheckAgrees | application.linux64/source/TetrisPi.java:1277-1328 | The deployed `checkCollisions` agrees with the documented test, and locks exactly on a handled downward collision. |
| Search.DeployedCheck | application.linux64/source/TetrisPi.java:1277-1328 | The deployed `checkCollisions` reports exactly the documented collision test, and locks only with handling on and a piece not yet locked. |
| Input.InputIndex | docs/TetrisArcadeWithComments.java:3243-3275 | Each input has an index in 0..6, and 6 is NULL. |
| Input.InputOf | docs/TetrisArcadeWithComments.java:3261-3267 | `InputType.get` finds an input exactly for 0..6, and the input found has that index. |
| Input.InputIndexRoundTrip | docs/TetrisArcadeWithComments.java:3243-3275 | Looking up an input's index gives back the input. |
| Input.Tick | docs/TetrisArcadeWithComments.java:3057-3072 | An input that is not held is untouched. A held input triggers when its timer equals the delay or has run out. Otherwise it counts down, and an expired timer restarts at the repeat interval. |
| Input.ReleasedStaysQuiet | docs/TetrisArcadeWithComments.java:3057-3072 | A released input never triggers. |
| Input.QuietCountdown | docs/TetrisArcadeWithComments.java:3057-3072 | Between the first trigger and the delay's end a held input only counts down. |
| Input.HeldKeyRepeats | docs/TetrisArcadeWithComments.java:3057-3072 | A held key triggers at once and again after `delay` frames, then every `repeat + 1` frames. |
| Input.Shift | docs/TetrisArcadeWithComments.java:3057-3072 | m frames then n frames are m + n frames. |
| Input.DownFiresInPairs | docs/TetrisArcadeWithComments.java:3026-3028 | In play, DOWN (delay 0, repeat 2) triggers on two frames in a row, then rests two frames, and keeps that rhythm. |
| Input.ChargedNothing | docs/TetrisArcadeWithComments.java:1360-1362 | Charging nothing changes no timer. |
| Input.ChargedThen | docs/TetrisArcadeWithComments.java:1360-1362 | Two rounds of wall-bump charging are one round charging what either bumped. |
| Input.ChargedFires | docs/TetrisArcadeWithComments.java:1360-1362 | A charged, held input triggers on the next frame. |
| Input.InputManager.constructor | docs/TetrisArcadeWithComments.java:3039-3050 | Every input starts released, with the game's delays and repeat intervals. |
| Input.InputManager.UpdateInputTriggers | docs/TetrisArcadeWithComments.java:3057-3072 | Every input slot advances by exactly one `Tick`. |
| Input.InputManager.ChargeInput | docs/TetrisArcadeWithComments.java:1360-1362 | Only the input's own timer is zeroed. |
| Input.InputManager.Release | docs/TetrisArcadeWithComments.java:1303-1313 | Only the slot's held and trigger flags are cleared; every other slot and every timer is untouched. |
| Input.InputManager.ChangeDelays | docs/TetrisArcadeWithComments.java:3080-3088 | Only DOWN's delay and repeat change: 18/4 in the menu, 0/2 in play. |
| Input.InputManager.SetMatching | docs/TetrisArcadeWithComments.java:3097-3112 | Every slot whose code matches is pressed (held, triggered, timer = delay) or released (all cleared), and the others are untouched. |
| Input.InputManager.SetPressInput | docs/TetrisArcadeWithComments.java:3131-3140 | The inputs bound to the key are pressed, and the others are untouched. |
| Input.InputManager.SetReleaseInput | docs/TetrisArcadeWithComments.java:3145-3153 | The inputs bound to the key are released, and the others are untouched. |
| Input.InputManager.SetControllerInput | docs/TetrisArcadeWithComments.java:3097-3112 | The inputs on the pin are pressed or released, and the others are untouched. |
| Grid.SpawnFallThroughHarmless | docs/TetrisArcadeWithComments.java:2451-2462 | `getPieceSpawnY`'s fall-through loses the 0.5 meant for S, Z and O, yet row 0.5 would round to the same cells as row 0. |
| Grid.GridManager.constructor | docs/TetrisArcadeWithComments.java:1862-1901 | A new grid is empty, with the current piece spawned at column 5 and the next kind given. Its other fields are `FreshFields`: the start level's fall rate, no lines and no drought. |
| Grid.GridManager.OccupiedAt | docs/TetrisArcadeWithComments.java:2000 | The board test for one cell agrees with the board value. |
| Grid.GridManager.CheckCollisions | docs/TetrisArcadeWithComments.java:2148-2202 | Returns exactly whether the piece is locked, or a block shifted one step would be below the floor, beyond a wall or on a block. |
| Grid.GridManager.RowIsFull | docs/TetrisArcadeWithComments.java:2276-2288 | The row scan answers exactly whether all ten cells of the row are occupied. |
| Grid.GridManager.CellBlocked | docs/TetrisArcadeWithComments.java:2148-2202 | One cell is below the floor, beyond a wall or occupied. |
| Grid.GridManager.AnyCellBlocked | docs/TetrisArcadeWithComments.java:2212-2239 | Some cell of the list is blocked. |
| Grid.GridManager.CheckRotationCollision | docs/TetrisArcadeWithComments.java:2212-2239 | Returns whether the turned piece would be blocked, and leaves the piece exactly as it was. |
| Grid.GridManager.RotateCurrentPiece | docs/TetrisArcadeWithComments.java:2112-2136 | The piece becomes its checked rotation, which the search lemmas show keeps it consistent, two-way and inside the board. |
| Grid.GridManager.CheckLines | docs/TetrisArcadeWithComments.java:2272-2310 | The lines to clear are exactly the full rows, in increasing order. |
| Grid.GridManager.ScanFullRows | docs/TetrisArcadeWithComments.java:2276-2288 | The nested scan returns the full rows. |
| Grid.GridManager.CopyRowDown | docs/TetrisArcadeWithComments.java:2376-2384 | Row y is copied into row y+1, and every other cell is unchanged. |
| Grid.GridManager.ClearLine | docs/TetrisArcadeWithComments.java:2374-2386 | The board becomes the value-level `ClearLine`, and the lines cleared go up by one. |
| Grid.GridManager.PlaceBlocks | docs/TetrisArcadeWithComments.java:2249-2256 | The board becomes the piece locked into it, and the flag says whether a block is above the top. |
| Grid.GridManager.Land | docs/TetrisArcadeWithComments.java:164-180 | On a clone, the AI's turns, moves and fall land the piece where `Landing` says. The board is untouched, and the shared timers are charged for the walls bumped. |
| Grid.GridManager.PlaceAndScore | docs/TetrisArcadeWithComments.java:183-195 | Writing the landed piece into the clone's board and scoring it gives `Placed`. |
| Grid.GridManager.RunCandidate | docs/TetrisArcadeWithComments.java:161-195 | One candidate on a clone gives exactly the outcome `Candidate` specifies, and charges the bumped walls' timers. |
| Grid.GridManager.HandleCollision | docs/TetrisArcadeWithComments.java:2246-2266 | The piece's cells are locked into the board and the piece is marked locked. It signals game over exactly when a cell is above the top. The full rows are recorded and the spawn delay is set to 10. |
| Grid.GridManager.MoveCurrentPiece | docs/TetrisArcadeWithComments.java:2067-2101 | Without a collision the piece moves one step and nothing else changes. A handled downward collision locks. Any other collision leaves everything, and a sideways one zeroes that input's timer. |
| Grid.GridManager.MoveOrCharge | docs/TetrisArcadeWithComments.java:2067-2101 | An unhandled move is exactly `Move`, and a sideways collision charges its input. |
| Grid.GridManager.MoveDown | docs/TetrisArcadeWithComments.java:1323-1325 | A handled step down leaves board, piece and fields at `DownMove` of the old ones, charges no timer, and signals game over exactly when it locks above the top. |
| Grid.GridManager.ShiftCurrent | docs/TetrisArcadeWithComments.java:2082-2095 | A move with nothing in the way translates the piece one cell. |
| Grid.GridManager.ClearLines | docs/TetrisArcadeWithComments.java:2318-2367 | The recorded rows are cleared and counted, and the score gains the level-scaled points. The level rises once when due, with the new fall rate. No lines remain pending, and the fields become `AfterClear`. |
| Grid.GridManager.LevelUp | docs/TetrisArcadeWithComments.java:2391-2412 | The level goes up by one, and the fall rate becomes the new level's, from the intense table in intense mode. |
| Grid.GridManager.TurnTimes | docs/TetrisArcadeWithComments.java:164-165 | n clockwise rotations leave the piece at `RotateTimes`. |
| Grid.GridManager.MoveTimesOver | docs/TetrisArcadeWithComments.java:168-173 | n unhandled sideways moves leave the piece at `MoveTimes` and the board untouched, and charge the bumped wall's timer. |
| Grid.GridManager.DropDown | docs/TetrisArcadeWithComments.java:178-180 | The fall loop leaves the piece at `Drop`, the lowest row it can reach, and the board untouched. |
| Grid.GridManager.AnyOccupied | docs/TetrisArcadeWithComments.java:1999-2009 | Returns exactly whether some cell of the list is occupied. |
| Grid.GridManager.SpawnNext | docs/TetrisArcadeWithComments.java:1995-2009 | The next kind spawns at column 5, row 0, and game over is signalled exactly when a spawned cell is occupied. |
| Grid.GridManager.PushPiece | docs/TetrisArcadeWithComments.java:1993-2037 | The next kind spawns, and game over is exactly an occupied spawn cell, in which case no field or timer changes. Otherwise the fields become `AfterPush`: the drawn kind next, the drought counted, and, when the AI plays, the deployed search's target with the bumped walls charged. |
| Grid.GridManager.PlanNext | docs/TetrisArcadeWithComments.java:2011-2024 | After a successful spawn the fields become `AfterPush`: the drawn kind next, the droughts counted, and the AI target planned with its wall charges. |
| Grid.GridManager.PlanTarget | docs/TetrisArcadeWithComments.java:2014-2016 | The AI target changes only when the AI plays, and then it is the first best of the forty candidates. |
| Grid.GridManager.CountDrought | docs/TetrisArcadeWithComments.java:2019-2024 | An I piece ends the drought and records its length; any other piece lengthens it. |
| Grid.GridManager.Update | docs/TetrisArcadeWithComments.java:1947-1965 | Each frame does exactly one of four things, each with every field stated: count the fall timer down; fall (the step `DownMove`, locking on a collision) and restart the fall timer; count the spawn delay down; or clear the pending rows and spawn as `Pushed` says. Score and level change only when rows are cleared. |
| Grid.GridManager.Fall | docs/TetrisArcadeWithComments.java:1953-1956 | A handled step down: the piece one row lower, or locked into the board with the full rows recorded and the spawn delay set. Then the fall timer restarts; nothing else changes. |
| Grid.GridManager.ClearAndPush | docs/TetrisArcadeWithComments.java:1961-1964 | The pending rows are cleared and scored, the level rises when due, then the next piece spawns; the fields become `Pushed` of the old ones. |
| Grid.GridManager.MoveToAITarget | docs/TetrisArcadeWithComments.java:1931-1942 | Exactly the one action `AiStepFor` picks happens, with its full effect on piece, board, pending rows, spawn delay and timers. Only a handled fall can lock the piece. |
| Grid.GridManager.CopyColumn | docs/TetrisArcadeWithComments.java:1912-1918 | The clone's column x receives every block of the original's column, and other columns are untouched. |
| Grid.GridManager.Clone | docs/TetrisArcadeWithComments.java:1909-1923 | The clone is a fresh grid with the same board, and its piece is `Cloned` of the original's piece. |
| Grid.DroughtCounts | docs/TetrisArcadeWithComments.java:2019-2024 | After a run of pieces, the drought counts the pieces since the last I: none of them is an I, and the piece before them is. |
| Grid.DroughtAfter | docs/TetrisArcadeWithComments.java:2019-2024 | An I piece, and only an I piece, ends a drought, and only an I piece records a new drought length. |
| Grid.TryCandidate | docs/TetrisArcadeWithComments.java:160-195 | Candidate (r, c) on a fresh clone gives exactly the r-th rotation's c-th outcome. |
| Grid.GetAIResponse | application.linux64/source/TetrisPi.java:77-132 | The nested loops return exactly the first best candidate above the deployed start, and charge the walls any candidate bumped. |
| Grid.TryRotation | application.linux64/source/TetrisPi.java:81-130 | After one rotation's ten candidates, the best so far covers ten more candidates. |
| Grid.KeepBetter | docs/TetrisArcadeWithComments.java:197-202 | Keeping only a strictly better candidate extends the best so far by one candidate. |
| Grid.PassToGrid | docs/TetrisArcadeWithComments.java:306-310 | The grid's AI target becomes the search's answer, and the only other writes are the charged timers. |
| Scores.Rank | docs/TetrisArcadeWithComments.java:1206-1220 | The place for a score in a sorted table: every row before it scores at least as much, and the row at it scores less. |
| Scores.InsertRow | docs/TetrisArcadeWithComments.java:1206-1220 | Reference insertion: the table with one row more. |
| Scores.InsertKeepsSorted | docs/TetrisArcadeWithComments.java:1206-1220 | Reference insertion keeps a table sorted by decreasing score. |
| Scores.InsertIsPermutation | docs/TetrisArcadeWithComments.java:1206-1220 | Reference insertion adds exactly the new row. |
| Scores.SinkPoint | docs/TetrisArcadeWithComments.java:1207-1219 | The bubbling stops after the last row that scores at least as much, and every row it passed scored less. |
| Scores.SaveRow | docs/TetrisArcadeWithComments.java:1199-1220 | `saveScore` makes the table one row longer. |
| Scores.SaveRowIsPermutation | docs/TetrisArcadeWithComments.java:1199-1220 | `saveScore` adds exactly the new row to the table's rows. |
| Scores.SaveRowInserts | docs/TetrisArcadeWithComments.java:1206-1220 | On a sorted table and a positive score, the bubbling is the reference insertion. |
| Scores.SaveRowKeepsSorted | docs/TetrisArcadeWithComments.java:1199-1220 | A sorted table stays sorted when the new score is positive or no higher than the last row's. |
| Scores.FirstRows | docs/TetrisArcadeWithComments.java:1234-1248 | The de-duplicated view has no more rows than the table. |
| Scores.FirstRowsSource | docs/TetrisArcadeWithComments.java:1240-1245 | Every kept row is the first row of its name in the table. |
| Scores.FirstRowsFrom | docs/TetrisArcadeWithComments.java:1240-1245 | The same, for every kept row. |
| Scores.FirstRowsDistinct | docs/TetrisArcadeWithComments.java:1234-1248 | No name appears twice in the view. |
| Scores.FirstRowsKeeps | docs/TetrisArcadeWithComments.java:1240-1245 | The first row of each name is kept. |
| Scores.FirstRowsComplete | docs/TetrisArcadeWithComments.java:1234-1248 | The first row of every name is kept. |
| Scores.FirstOfNameIsBest | docs/TetrisArcadeWithComments.java:1227-1234 | In a sorted table the first row of a name is that name's best score. |
| Scores.NameAlphabetChars | docs/TetrisArcadeWithComments.java:3632-3647 | The name characters are exactly space, A to Z and 0 to 9, 37 in all. |
| Scores.NameCharCycle | docs/TetrisArcadeWithComments.java:3632-3647 | A press of A moves a name character to the next of the 37 in the cycle space, A..Z, 0..9. |
| Scores.StepNameCharCycle | docs/TetrisArcadeWithComments.java:3632-3647 | n presses move n places round the cycle. |
| Scores.StepNameCharPeriod | docs/TetrisArcadeWithComments.java:3632-3647 | Any multiple of 37 presses gives back the character. |
| Scores.NextNameChar | docs/TetrisArcadeWithComments.java:3630-3647 | Space goes to A, Z to 0 and 9 to space; any other character below the surrogates goes to its successor, and U+FFFF wraps to U+0000. |
| Scores.SkipLeading | docs/TetrisArcadeWithComments.java:3723-3734 | The first non-blank position from i on. |
| Scores.SkipTrailing | docs/TetrisArcadeWithComments.java:3723-3734 | The position after the last non-blank character before j. |
| Scores.TrimSpec | docs/TetrisArcadeWithComments.java:3723-3734 | The trimmed name is a slice with only blanks outside it, and does not begin or end with a blank. |
| Scores.TrimIdempotent | docs/TetrisArcadeWithComments.java:3723-3734 | Trimming twice is trimming once. |
| Scores.Trim | docs/TetrisArcadeWithComments.java:3723-3734 | Trimming never lengthens the name, and gives the empty name exactly when every character is blank. |
| Scores.CheatsForPlainName | docs/TetrisArcadeWithComments.java:1070-1101 | A name outside the cheat table starts at the chosen level with no cheat. |
| Scores.CheatsKeepLevel | docs/TetrisArcadeWithComments.java:1070-1101 | Whatever the name, the start level stays in 0..16. |
| Scores.CheatsFor | docs/TetrisArcadeWithComments.java:1070-1101 | The start level is the chosen one, the one before, 15 or 16. The top-ten flags reset exactly for JEFF. Every name but JEFF and JOSEPH keeps Jeff mode only for the always-intense names, and turns it off for any other. |
| Game.OptionIndex | docs/TetrisArcadeWithComments.java:3920-3961 | Each menu option has an index in 0..3. |
| Game.OptionLength | docs/TetrisArcadeWithComments.java:3921 | Every option row has at least two buttons. |
| Game.OptionAt | docs/TetrisArcadeWithComments.java:3940-3946 | `MenuOptions.get` returns the option with the given index. |
| Game.MenuStep | docs/TetrisArcadeWithComments.java:3523-3662 | A menu input changes a name character only when it is A on the name row, and changes the start level only on the level row. |
| Game.MenuStepKeeps | docs/TetrisArcadeWithComments.java:3523-3662 | A menu input keeps the option and highlighted button in range, and keeps a start level in 0..16 there. The level moves by one at most, and only on the level row. |
| Game.MenuStepChars | docs/TetrisArcadeWithComments.java:3630-3651 | Only A on the name row changes a name character, and only the highlighted one, to its successor. |
| Game.MenuStepAlphabet | docs/TetrisArcadeWithComments.java:3630-3651 | A name spelt in the name alphabet stays in it. |
| Game.MenuSteps | docs/TetrisArcadeWithComments.java:3523-3716 | n presses of one input are `MenuStep` applied n times, and the menu keeps its invariant after every press. |
| Game.NamePresses | docs/TetrisArcadeWithComments.java:3630-3651 | n presses of A on the name row step only the highlighted character n places. |
| Game.FullCircle | docs/TetrisArcadeWithComments.java:3630-3651 | 37 presses of A on a name character give back the menu exactly. |
| Game.Padded | docs/TetrisArcadeWithComments.java:3481-3488 | The name editor holds the name's characters followed by spaces, ten in all. |
| Game.PaddedName | docs/TetrisArcadeWithComments.java:3481-3488 | Reading back a padded trimmed name gives the name. |
| Game.SkipTrailingPast | docs/TetrisArcadeWithComments.java:3723-3734 | Trimming trailing blanks stops at the last non-blank character. |
| Game.Restarts | docs/TetrisArcadeWithComments.java:3736-3742 | Closing the menu restarts exactly when the start level or the name differs by value. |
| Game.RestartsAsWritten | docs/TetrisArcadeWithComments.java:3742 | As written, closing restarts whenever the name was rebuilt, and otherwise exactly when the start level changed. |
| Game.RetypedNameRestarts | docs/TetrisArcadeWithComments.java:3742 | As written, a name typed back to what it was still restarts the game. |
| Game.NewGameIn | docs/TetrisArcadeWithComments.java:1155-1165 | A reset into a new grid keeps the game state well formed: six slots per input array, the menu in range, and the levels in 0..16. |
| Game.NewGameForgets | docs/TetrisArcadeWithComments.java:1155-1165 | A reset does not depend on the board, piece or grid fields it replaces. |
| Game.ShiftPlayed | docs/TetrisArcadeWithComments.java:1303-1313 | LEFT or RIGHT in play keeps the game state well formed. |
| Game.TurnPlayed | docs/TetrisArcadeWithComments.java:1327-1334 | A or B in play keeps the game state well formed. |
| Game.PausePlayed | docs/TetrisArcadeWithComments.java:1315-1321 | UP in play keeps the game state well formed. |
| Game.DropPlayed | docs/TetrisArcadeWithComments.java:1323-1325 | DOWN in play, including the reset after a lock above the top, keeps the game state well formed. |
| Game.Played | docs/TetrisArcadeWithComments.java:1301-1338 | Every input in play keeps the game state well formed. |
| Game.Restarted | docs/TetrisArcadeWithComments.java:1342-1348 | Restarting the AI's game into the menu keeps the game state well formed. |
| Game.RestartForgetsGrid | docs/TetrisArcadeWithComments.java:1342-1348 | The restart does not depend on which grid the played input left. |
| Game.PlayedTurn | docs/TetrisArcadeWithComments.java:1300-1348 | The play branch of `executeFunction` keeps the game state well formed. |
| Game.Edited | docs/TetrisArcadeWithComments.java:3523-3662 | Any menu input but B keeps the game state well formed, the start level included. |
| Game.Closed | docs/TetrisArcadeWithComments.java:3739-3747 | Closing the menu keeps the game state well formed. |
| Game.MenuTurn | docs/TetrisArcadeWithComments.java:3523-3716 | Every menu input keeps the game state well formed. |
| Game.MenuManager.constructor | docs/TetrisArcadeWithComments.java:3474-3488 | The menu opens on the name row's first button with the name padded to ten characters. |
| Game.MenuManager.GetNameFromChars | docs/TetrisArcadeWithComments.java:3723-3734 | The name is the editor's characters, trimmed. |
| Game.MenuManager.Edit | docs/TetrisArcadeWithComments.java:3523-3662 | The game state makes exactly the step `Edited`: the menu and start level move as `MenuStep` says, A on the name row gives the game the trimmed name, and nothing else changes. |
| Game.MenuManager.Step | docs/TetrisArcadeWithComments.java:3523-3662 | The menu view makes exactly one `MenuStep`, and the game's name is replaced by the trimmed characters exactly on A on the name row. |
| Game.MenuManager.ExecuteFunction | docs/TetrisArcadeWithComments.java:3523-3716 | The game state makes exactly the step `MenuTurn`: B closes the menu as `Closed` says, and any other input edits as `Edited` says. A replaced grid is fresh. |
| Game.MenuManager.Close | docs/TetrisArcadeWithComments.java:3739-3747 | The game state makes exactly the step `Closed`: DOWN back on its play delays and the menu off, then a new game exactly when the start level or the name differs by value. |
| Game.NoDuplicates | docs/TetrisArcadeWithComments.java:1240-1245 | The loop builds exactly the view with each name's first row. |
| Game.GameManager.constructor | docs/TetrisArcadeWithComments.java:978-1012 | A new session: name PLAYER, score 0, level 0, start delay and idle timer at their starts, no cheat or top-ten flags, the saved table and its de-duplicated view, the editor holding PLAYER, all inputs released, and an empty grid with the two drawn kinds. |
| Game.GameManager.GetScoresNoDuplicates | docs/TetrisArcadeWithComments.java:1234-1248 | Returns the table's first row of each name, in table order. |
| Game.GameManager.SaveScore | docs/TetrisArcadeWithComments.java:1199-1224 | The row is saved as `SaveRow` says, and the shown scores are refreshed. |
| Game.GameManager.StartGame | docs/TetrisArcadeWithComments.java:1068-1120 | The session becomes `Started`: the cheat name's effects on start level, Jeff mode, intense mode and the top-ten flags, then score 0, level = start level, the start delay, and a fresh empty grid. |
| Game.GameManager.Begin | docs/TetrisArcadeWithComments.java:1102-1120 | The session becomes `Begun` (score 0, level = start level, the start delay, intense mode exactly when always-intense, the name remembered), with a fresh empty grid. |
| Game.GameManager.BeginValues | docs/TetrisArcadeWithComments.java:1102-1120 | The session becomes `Begun`. |
| Game.GameManager.ApplyCheats | docs/TetrisArcadeWithComments.java:1070-1101 | The cheat table's effect, with the start level kept in 0..16. |
| Game.GameManager.Reset | docs/TetrisArcadeWithComments.java:1155-1165 | The session becomes `AfterReset` (a positive score saved, the idle timer restarted unless the AI plays, a new game at the start level), and the whole game state is `NewGameIn` a fresh grid. |
| Game.GameManager.EndGame | docs/TetrisArcadeWithComments.java:1157-1159 | A positive score is saved and shown, the idle timer restarts unless already at zero, and the session becomes `Ended`. |
| Game.GameManager.PlayInput | docs/TetrisArcadeWithComments.java:1301-1338 | The game state makes exactly the step `Played` for the input, including every effect of the grid calls. A replaced grid is fresh. |
| Game.GameManager.Turn | docs/TetrisArcadeWithComments.java:1327-1334 | The game state makes exactly the step `TurnPlayed`: A a checked counter-clockwise turn, B a clockwise one, nothing else changed. |
| Game.GameManager.Steer | docs/TetrisArcadeWithComments.java:1301-1338 | Every input in play but DOWN makes exactly the step `Played`, leaving the grid object in place. |
| Game.GameManager.Shift | docs/TetrisArcadeWithComments.java:1303-1313 | The game state makes exactly the step `ShiftPlayed`: the piece moved when free, the opposite input released, a blocked move charging its own input. |
| Game.GameManager.Pause | docs/TetrisArcadeWithComments.java:1315-1321 | The game state makes exactly the step `PausePlayed`: start level and name remembered, the menu toggled, DOWN on its menu delays. |
| Game.GameManager.Toggle | docs/TetrisArcadeWithComments.java:1317-1320 | Start level and name are remembered and the menu is toggled; no other session value changes. |
| Game.GameManager.Leave | docs/TetrisArcadeWithComments.java:3739-3741 | DOWN back on its play delays and the menu off; nothing else in the game state changes. |
| Game.GameManager.Drop | docs/TetrisArcadeWithComments.java:1323-1325 | The game state makes exactly the step `DropPlayed`: one row down, or locked with the full rows recorded and the spawn delay set, and a new game when a block is above the top. |
| Game.GameManager.DropPiece | docs/TetrisArcadeWithComments.java:1323-1325 | The grid takes the step `DownMove`, game over is signalled exactly on a lock above the top, and otherwise the game state is `DropPlayed`. |
| Game.GameManager.ResetAfterDrop | docs/TetrisArcadeWithComments.java:1323-1325 | After a lock above the top, the reset leaves exactly `DropPlayed` in a fresh grid. |
| Game.GameManager.ExecuteFunction | docs/TetrisArcadeWithComments.java:1295-1352 | The game state makes exactly `MenuTurn` in the menu and `PlayedTurn` in play, and then the idle timer restarts at 1200. |
| Game.GameManager.Activate | docs/TetrisArcadeWithComments.java:1351 | Only the idle timer changes, to 1200: the step `Active`. |
| Game.GameManager.PlayTurn | docs/TetrisArcadeWithComments.java:1300-1348 | The game state makes exactly the step `PlayedTurn`: the input played, then a restart into the menu when the AI was playing. |
| Game.GameManager.RestartAfterPlay | docs/TetrisArcadeWithComments.java:1342-1348 | With the AI's timer run out after the input, the restart completes `PlayedTurn` in a fresh grid. |
| Game.GameManager.Restart | docs/TetrisArcadeWithComments.java:1342-1348 | The game state makes exactly the step `Restarted`: reset, then the menu opens remembering start level and name. |
| Game.GameManager.Reopen | docs/TetrisArcadeWithComments.java:1342-1348 | The start level and name are remembered and the menu opens; no other session value changes. |

## Left out

- Graphics, audio and timing are not modelled: every `display` method, effects, buttons, screen shake, sound effects, music, the music-driven count-down and mode switching, and Jeff mode's sound cues.
- The volume rows of the menu are not modelled: their LEFT, RIGHT and A branches are float decibel arithmetic on a sound library. The model leaves the start level and name unchanged there.
- File and hardware I/O are not modelled. The saved score table is a constructor parameter in place of `loadScores`, and `saveTable` is omitted. The GPIO set-up and callbacks are omitted, but `setControllerInput` is modelled.
- `generateRandomPiece` is not modelled. The drawn kinds are parameters, so both new grids in one `executeFunction` draw the same kinds.
- The `Network` class, an unused neural net, is not part of this model.
- `deleteScoreByName` and the DEL name handling in `startGame` are not modelled. Both depend on Processing `Table` row removal during iteration.
- The `run` and `updateGame` frame loops are not modelled: the idle count-down, the AI's turn per frame and the start delay count-down. Their pieces are: `GridManager.Update`, `MoveToAITarget`, `InputManager.UpdateInputTriggers` and `GameManager.ExecuteFunction`.
- `handleTetrisForJeff` is not modelled, because it only plays a sound.
- A `Block` object carries its own coordinates. The model identifies a block with the cell holding it. The two can differ only after a clear with row 0 occupied, which `clearLine` duplicates.
- `PieceType.NULL` is not modelled. It is used only for a bare `Block`, and `Pieces.PieceTypeOf(7)` is `None`.
- The AI weights and scores are Dafny reals, not doubles. The argmax is not claimed float-exact.
- Boards.ScoreAfterClear: does not model the float rounding of the score in `clearLines`. The exact integer result is stated, which matches the float computation while the score stays below 2^24.
- The `next` piece is a kind, not a `Piece` object that `pushPiece` moves into place.
- `handleCollision` calls `reset()` once per block above the top. The model signals game over once.
- `MenuManager` receives its `GameManager` as a method parameter instead of holding it.
- Scores.NextNameChar: a character outside the 37-character alphabet moves to its successor, and U+FFFF wraps to U+0000, as Java's 16-bit `char` does. A Dafny `char` cannot hold a surrogate, so a step from U+D7FF into the surrogates keeps the character, as does a character above U+FFFF, which is no Java `char`. Only names in the alphabet are proved to cycle.
- In the deployed build, `NAME` has ten buttons and `executeFunction` differs in detail. The model follows the documented eight buttons.

## Findings

| source | as written | input that shows it | evidently intended | confidence | as-written member | corrected member |
|---|---|---|---|---|---|---|
| docs/TetrisArcadeWithComments.java:154 | The best score starts at `Double.MIN_VALUE`, the smallest positive double. No candidate scores above zero, so no candidate is ever kept: after every search the AI target is (-1, -1), so every piece pushed while the AI plays is only turned (the piece in play when the AI takes over keeps the new grid's target (0, 0) and steps left). | Any board and piece, for instance the empty board with the first spawned piece. | Start below every possible score, as the deployed build does with -99999999 (application.linux64/source/TetrisPi.java:78). | not executed | Search.DocumentedSearchNeverChooses | Grid.GetAIResponse |
| docs/TetrisArcadeWithComments.java:3742 | `close` compares the name with `!=`, a String reference comparison. A name rebuilt by the editor is always a new String, so any A press on the name row restarts the game on closing. | Open the menu, press A 37 times on one name character (the name is back to what it was), close. | Compare names by value (`equals`), so an unchanged name keeps the game going. | not executed | Game.RetypedNameRestarts | Game.Restarts |
