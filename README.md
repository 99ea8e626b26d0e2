# Raycaster model

A Dafny model of `ray.c`, a small SDL raycaster. The program shows an 8×8 grid
map on the left half of a 960×480 window and a pseudo-3D view on the right
half. Each frame it draws the map and the player's position. It then casts 120
rays across a 60° field of view. Each ray is marched one world unit at a time
until its sample lands in a wall cell. The hit becomes a grey vertical slice:
its shade falls with the square of the depth, and its height is inversely
proportional to the fisheye-corrected depth. Finally the frame applies the
arrow keys: left and right turn by 0.1 rad, and up and down move 5 units
along the heading. A move is taken only when the collision test finds no wall
in the target cell.

The model has five modules:

- `Config` (`config.dfy`): the constants, and the facts about cosine and sine
  the proofs use. Trigonometry is not modelled. `cos` and `sin` are
  parameters of type `real -> real`. Each operation states the facts it needs:
  both functions bounded by 1, and `cos` positive over the whole field of view
  [-HALF_FOV, HALF_FOV].
- `Grid` (`grid.dfy`): the map string, the truncating world-to-cell lookup and
  `checkCollision`.
- `Input` (`input.dfy`): the player as a class with the fields `x`, `y` and
  `angle`, and the keyboard handler as a method on it.
- `Raycast` (`raycast.dfy`): the per-ray march (`CastRay`) and the per-frame
  sweep (`CastRays`). Both are proved against a declarative first-hit
  specification. Hits come back as records instead of draw calls.
- `Frame` (`frame.dfy`): `drawMap` and the main loop, with the keys of each
  frame given as a sequence.

Floating-point values are modelled as reals. C's `(int)` conversion of a
double truncates toward zero, and the model writes that out as `Trunc`. One
consequence is that cell column 0 covers x in (-60, 60), while every other
column covers [60c, 60c + 60).

The collision test and the ray march index the map without a bounds check, so
the model states and proves when that lookup is safe. A player in an open cell
who moves at most 5 units per coordinate cannot leave the grid. A ray sample
moves at most 1 unit per coordinate from the previous one, and the map's border
is solid wall, so every sample a ray reaches lies inside the grid. Index 64 is
the string literal's NUL terminator. It can be read without fault and is never
a wall.

Three points of the code's behaviour that the model keeps:

- The cell lookup truncates toward zero; it does not take the floor.
- With this map the march never leaves the grid, so no out-of-bounds read
  happens.
- The collision test returns the integers 0 and 1.

The main loop is modelled against a trace of the player's state. `HeadingAt`
gives the heading before frame k: π plus the turns of the earlier frames.
`PositionAt` gives the position before frame k: the start point, moved by each
earlier frame's gated up and down steps along that frame's turned heading.
`Shows` says what a frame drawn from a state contains.

## Model

| member | source | states |
|---|---|---|
| Grid.Trunc | ray.c:116-117 | The C double-to-int conversion: for non-negative input the result is the largest integer not above it; for negative input it is the smallest integer not below it (truncation toward zero). |
| Grid.Col | ray.c:116-117 | The grid column of a world x: the truncated quotient by BLOCK_SIZE. Its extent is stated by Grid.CellSpan. |
| Grid.Row | ray.c:161-162 | The grid row of a world y: the truncated quotient by BLOCK_SIZE. |
| Grid.CellIndex | ray.c:119-120 | The map index of the cell holding a point: row·8 + col, as both the march and the collision test compute it. Its range is stated by Grid.InGridIndex and Grid.NearOpenInGrid. |
| Grid.CellSpan | ray.c:161-162 | Column `c` of a world x under truncating division by BLOCK_SIZE: column 0 holds exactly the open interval (-60, 60); column c > 0 holds exactly [60c, 60c + 60). |
| Grid.CheckCollision | ray.c:159-174 | Returns only 0 or 1. For a point in the grid it returns 1 exactly when the cell is a wall, and 0 exactly when the cell is open. Index 64 (the NUL terminator) gives 0. The caller must keep the index within the string. |
| Grid.InGridIndex | ray.c:120 | The index row·8 + col of a point in the grid lies in [0, 64). |
| Grid.TopBottomWall | ray.c:33-40 | Every cell of the first and of the last row of the map is a wall. |
| Grid.SideWall | ray.c:33-40 | Every cell of the first and of the last column of the map is a wall. |
| Grid.BorderIsWall | ray.c:33-40 | Every cell of the first and last row and the first and last column of the map is a wall. |
| Grid.OpenCellInterior | ray.c:33-40 | An open cell lies in rows 1 to 6 and columns 1 to 6. |
| Grid.OpenIsInterior | ray.c:33-40 | A point in an open cell lies in [60, 420) in both coordinates, one block clear of every edge. |
| Grid.NearOpenInGrid | ray.c:161-165 | A point at most one block away, per coordinate, from a point in an open cell lies in the grid, and its cell index is inside the map string. |
| Grid.StartCellOpen | ray.c:213-214 | The start position (240, 240) lies in cell (4, 4), which is open. |
| Input.Turn | ray.c:180-185 | The heading change of one frame lies in [-0.1, 0.1]: -0.1 for left alone, +0.1 for right alone, 0 for both keys or neither. |
| Input.Ahead | ray.c:187-188 | The up-key candidate: 5 units along the heading, with y pointing down the screen. Its step bound is stated by Input.MoveWithinSpeed. |
| Input.Behind | ray.c:195-196 | The down-key candidate: 5 units against the heading. Its step bound is stated by Input.MoveWithinSpeed. |
| Input.MoveWithinSpeed | ray.c:187-188 | For direction cosine and sine in [-1, 1], a move ahead or behind changes each coordinate by at most 5. |
| Input.Advance | ray.c:186-201 | One collision-gated move ends in an open cell: the candidate is taken exactly when its cell is open, otherwise the position is unchanged. |
| Input.Walk | ray.c:186-201 | The up move and then the down move of one frame, each gated, end in an open cell. With neither key held the position is unchanged. |
| Input.Player.constructor | ray.c:212-215 | The player starts at (240, 240) with heading π, in an open cell. |
| Input.Player.UserInput | ray.c:178-202 | The heading changes by -0.1 for left and by +0.1 for right. The new position is the gated up move and then the gated down move, both along the turned heading. The player stays in an open cell. Without up or down the position is unchanged. |
| Raycast.RayAngle | ray.c:105-155 | The angle of ray i: the heading minus HALF_FOV, plus i steps of STEP_ANGLE. Its properties are stated by the three lemmas below. |
| Raycast.SampleX | ray.c:112 | The x of the sample at a given depth: the player's x plus the direction cosine times the depth. |
| Raycast.SampleY | ray.c:113 | The y of the sample at a given depth: the player's y minus the direction sine times the depth. |
| Raycast.RayAngleNext | ray.c:105-155 | The first ray's angle is the heading minus HALF_FOV, and each later ray adds STEP_ANGLE to the angle of the one before. |
| Raycast.RayAnglesIncrease | ray.c:105-155 | Ray angles strictly increase with the ray index. |
| Raycast.RayAngleInView | ray.c:105-155 | Every ray's angle lies within HALF_FOV of the heading. Ray 60 points exactly along the heading. |
| Raycast.SampleInGrid | ray.c:110-120 | A sample that follows an open sample (or is the open origin) lies in the grid, so its map index is in [0, 64). |
| Raycast.ClearExtend | ray.c:110-123 | A march that has found open cells at every depth up to n, and finds depth n open, has cleared every depth up to n + 1. |
| Raycast.FirstHitUnique | ray.c:123-151 | A ray has at most one first hit, and a ray that has one is not a miss. |
| Raycast.Shade | ray.c:135 | The grey level lies in [0, 255] and is 255 at depth 0. |
| Raycast.ShadeNonIncreasing | ray.c:135 | A deeper hit is never brighter. |
| Raycast.ShadeWithinReach | ray.c:110-135 | Every hit below MAX_DEPTH has grey level at least 10. |
| Raycast.Fisheye | ray.c:138 | For a cosine in [0, 1] the corrected depth lies in [0, depth]; for cosine 1 it equals the depth. |
| Raycast.WallHeight | ray.c:141 | The divisor is positive for every non-negative depth, so the height is positive and bounded by CONS / 0.00001. |
| Raycast.WallHeightDecreasing | ray.c:141 | A nearer wall is drawn strictly taller. |
| Raycast.SliceX | ray.c:146 | The left edge of ray i's slice. For every ray the slice lies inside the 3D view [480, 960). |
| Raycast.SlicesTile | ray.c:146-148 | Each slice lies in [480, 960). Each pixel column of the 3D view lies in the slice of exactly one ray. |
| Raycast.MakeHit | ray.c:125-149 | The record of a hit at depth d: the sample point, its cell, the shade of d, the fisheye-corrected depth, the wall height of that depth, and the slice's x and width. Its bounds are stated by Raycast.RecordedHitWellFormed. |
| Raycast.RecordedHitWellFormed | ray.c:110-150 | Every recorded hit names a wall cell of the grid. Its corrected depth lies in [0, depth] with depth < 480. Its height is positive, its shade is in [10, 255] and its slice is inside the 3D view. |
| Raycast.CentreRayUncorrected | ray.c:138 | The middle ray's fisheye correction leaves the depth unchanged. |
| Raycast.CastRay | ray.c:110-152 | The march of one ray returns the record of the least depth in [0, 480) whose sample is in a wall cell, with every shallower sample open. It returns nothing when all 480 samples are open. |
| Raycast.CastRays | ray.c:103-157 | Returns 120 entries, one per ray in ray order. Entry i is what ray i at angle RayAngle(heading, i) records: its first hit, or nothing. |
| Frame.CellRect | ray.c:85 | The square of cell (row, col): at (60·col, 60·row), 58×58. Its extent is stated by Frame.CellRectInsideCell. |
| Frame.CellColor | ray.c:88-92 | White when the cell is a wall, black otherwise. |
| Frame.CellRectInsideCell | ray.c:85 | Every point of the square drawn for cell (row, col) lies in that cell, so the squares of distinct cells do not overlap. |
| Frame.TruncThenDivide | ray.c:100 | For non-negative coordinates, integer division of the truncated coordinate by 60 gives the same cell as truncating the real quotient. |
| Frame.MarkerInPlayerCell | ray.c:100 | The player's marker, drawn at the truncated position, lies in the player's own cell. |
| Frame.MapTileAt | ray.c:78-94 | Entry row·8 + col of the map view is the square of cell (row, col): at (60·col, 60·row), 58×58, white exactly when the cell is a wall. |
| Frame.DrawMap | ray.c:76-101 | Draws the 64 squares in row-major order: square (row, col) is at (60·col, 60·row), 58×58, white for a wall and black otherwise. The marker is at the truncated player position. |
| Frame.Start | ray.c:212-215 | The start state is (240, 240) with heading π, in an open cell. |
| Frame.HeadingNext | ray.c:180-185 | Each frame turns the heading by exactly that frame's turn. |
| Frame.PositionAt | ray.c:186-201 | The position before every frame is in an open cell. |
| Frame.PositionNext | ray.c:186-201 | Each frame moves the player by its own gated up and down steps, along the heading turned by its own keys. |
| Frame.ShownHitsWellFormed | ray.c:110-150 | Every hit in a frame drawn from any state is well formed. |
| Frame.Run | ray.c:212-248 | Runs from the start state. Each frame draws the map, casts the rays and then applies that frame's keys. View k is exactly what frame k shows from state k of the trace: all 64 map squares, the marker at the truncated position before frame k, and for each of the 120 rays what that ray records from that position and heading. The final position is the last position of the trace. The final heading is π plus the sum of all turns. The player stays in an open cell, and every hit is well formed. |

## Left out

- SDL initialisation and teardown (`initSDL`, `quitSDL`) and their error paths are not modelled: they are calls into the graphics library.
- The draw calls are left out. Operations return what they would draw: squares, a marker point and hit records.
- The ceiling and floor rectangles of the main loop are not modelled: they are constant draw calls.
- The red highlight of the hit cell and the blue ray line in `rayCast` are debug draw calls and are not modelled.
- Event polling, the keyboard-state query and the 30 ms delay are left out. The quit event becomes the end of the frame sequence, and the keys become one `Keys` value per frame.
- `cos` and `sin` are not implemented. They are parameters, constrained only by the facts the proofs need.
- IEEE rounding is not modelled. Doubles are reals, and the narrowing of the move candidate to `float` in `userInput` is not modelled.
- The float conversions of `wall_height`, `slice.y` and `slice.h` are not modelled: the model records the wall height as a real.
- Raycast.CastRay: the inner loop of `rayCast` is a method of its own. It stops at the first hit, which matches the C `break`. It evaluates the ray's direction cosine and sine once per ray instead of once per sample, and they are the same values.
- Input.Player.UserInput: cosine and sine of the heading are evaluated once, after the turn. The C code evaluates them in each move branch, at the same heading.
- Grid.CheckCollision: the C code reads the map at whatever index it computes. The model requires the index to be within the string (0 to 64, counting the terminator), and every caller proves it is.
