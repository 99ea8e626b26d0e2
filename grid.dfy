/** The 8x8 grid map, the truncating world-to-cell lookup and the collision
    test built on it. */
module Grid {
  import opened Config

  /** The map, row by row; `'#'` is a wall and `' '` an open cell. The cell
      (row, col) is the character at index row * MAP_SIZE + col. */
  const MAP: string :=
    "########" +
    "#    # #" +
    "# #    #" +
    "#    # #" +
    "###  # #" +
    "# #    #" +
    "#      #" +
    "########"

  /** The C conversion of a double to int: truncation toward zero. */
  function Trunc(r: real): (n: int)
    ensures r >= 0.0 ==> 0 <= n && n as real <= r < n as real + 1.0
    ensures r < 0.0 ==> n <= 0 && n as real - 1.0 < r <= n as real
  {
    if r >= 0.0 then r.Floor else -((-r).Floor)
  }

  /** Grid column of a world x coordinate. */
  function Col(x: real): int
  {
    Trunc(x / BLOCK_SIZE as real)
  }

  /** Grid row of a world y coordinate. */
  function Row(y: real): int
  {
    Trunc(y / BLOCK_SIZE as real)
  }

  /** Index into MAP of the cell holding the point (x, y). */
  function CellIndex(x: real, y: real): int
  {
    Row(y) * MAP_SIZE + Col(x)
  }

  /** The character read at `index`; index |MAP| is the string's NUL
      terminator, which C may read without fault. */
  function MapAt(index: int): char
    requires 0 <= index <= |MAP|
  {
    if index < |MAP| then MAP[index] else '\0'
  }

  predicate IsWall(row: int, col: int)
    requires 0 <= row < MAP_SIZE && 0 <= col < MAP_SIZE
  {
    MAP[row * MAP_SIZE + col] == '#'
  }

  /** The point (x, y) lies in a cell of the grid. */
  predicate InGrid(x: real, y: real)
  {
    0 <= Row(y) < MAP_SIZE && 0 <= Col(x) < MAP_SIZE
  }

  /** The point (x, y) lies in an open cell of the grid. */
  predicate Open(x: real, y: real)
  {
    InGrid(x, y) && !IsWall(Row(y), Col(x))
  }

  /** 1 when the cell holding (x, y) is a wall, 0 otherwise. The source never
      checks the index, so its callers must keep it inside the string. */
  function CheckCollision(x: real, y: real): (hit: int)
    requires 0 <= CellIndex(x, y) <= |MAP|
    ensures hit == 0 || hit == 1
    ensures InGrid(x, y) ==> (hit == 1 <==> IsWall(Row(y), Col(x)))
    ensures InGrid(x, y) ==> (hit == 0 <==> Open(x, y))
    ensures CellIndex(x, y) == |MAP| ==> hit == 0
  {
    if MapAt(CellIndex(x, y)) == '#' then 1 else 0
  }

  /** A point in the grid has an index inside the map string. */
  lemma InGridIndex(x: real, y: real)
    requires InGrid(x, y)
    ensures 0 <= CellIndex(x, y) < |MAP|
  {
  }

  /** Truncation makes column 0 twice as wide as the others: it holds every x
      in (-60, 60), while column c > 0 holds exactly [60c, 60c + 60). */
  lemma CellSpan(x: real, c: int)
    requires 0 <= c
    ensures c == 0 ==> (Col(x) == c <==> -(BLOCK_SIZE as real) < x < BLOCK_SIZE as real)
    ensures c > 0 ==> (Col(x) == c <==> (c * BLOCK_SIZE) as real <= x < ((c + 1) * BLOCK_SIZE) as real)
  {
    assert BLOCK_SIZE == 60;
    var r := x / 60.0;
    assert x == r * 60.0;
    assert Col(x) == Trunc(r);
    if c == 0 {
      assert Col(x) == 0 <==> -1.0 < r < 1.0;
    } else {
      assert Col(x) == c <==> c as real <= r < c as real + 1.0;
    }
  }

  /** The first and last rows of the map are solid wall. */
  lemma TopBottomWall(k: int)
    requires 0 <= k < MAP_SIZE
    ensures IsWall(0, k) && IsWall(MAP_SIZE - 1, k)
  {
    assert MAP[..8] == "########";
    assert MAP[56..] == "########";
  }

  /** The first and last columns of the map are solid wall. */
  lemma SideWall(k: int)
    requires 0 <= k < MAP_SIZE
    ensures IsWall(k, 0) && IsWall(k, MAP_SIZE - 1)
  {
    assert k == 0 || k == 1 || k == 2 || k == 3 || k == 4 || k == 5 || k == 6 || k == 7;
  }

  /** The map is enclosed by an unbroken wall on all four sides. */
  lemma BorderIsWall(k: int)
    requires 0 <= k < MAP_SIZE
    ensures IsWall(0, k) && IsWall(MAP_SIZE - 1, k)
    ensures IsWall(k, 0) && IsWall(k, MAP_SIZE - 1)
  {
    TopBottomWall(k);
    SideWall(k);
  }

  /** Open cells are interior: neither in the first or last row nor in the
      first or last column. */
  lemma OpenCellInterior(row: int, col: int)
    requires 0 <= row < MAP_SIZE && 0 <= col < MAP_SIZE && !IsWall(row, col)
    ensures 1 <= row <= MAP_SIZE - 2 && 1 <= col <= MAP_SIZE - 2
  {
    BorderIsWall(row);
    BorderIsWall(col);
  }

  /** A point in an open cell lies at least a block away from every edge of
      the map. */
  lemma OpenIsInterior(x: real, y: real)
    requires Open(x, y)
    ensures BLOCK_SIZE as real <= x < (MAX_DEPTH - BLOCK_SIZE) as real
    ensures BLOCK_SIZE as real <= y < (MAX_DEPTH - BLOCK_SIZE) as real
  {
    OpenCellInterior(Row(y), Col(x));
    InteriorSpan(x, y);
  }

  /** A point whose row and column are both in 1 .. MAP_SIZE - 2 lies in
      [BLOCK_SIZE, MAX_DEPTH - BLOCK_SIZE) in both coordinates. */
  lemma InteriorSpan(x: real, y: real)
    requires 1 <= Row(y) <= MAP_SIZE - 2 && 1 <= Col(x) <= MAP_SIZE - 2
    ensures BLOCK_SIZE as real <= x < (MAX_DEPTH - BLOCK_SIZE) as real
    ensures BLOCK_SIZE as real <= y < (MAX_DEPTH - BLOCK_SIZE) as real
  {
    CellSpan(x, Col(x));
    CellSpan(y, Row(y));
  }

  /** A point at most one block away, in each coordinate, from a point of an
      open cell is still in the grid: a step that short cannot jump over the
      border. */
  lemma NearOpenInGrid(x: real, y: real, x': real, y': real)
    requires Open(x, y)
    requires -(BLOCK_SIZE as real) <= x' - x <= BLOCK_SIZE as real
    requires -(BLOCK_SIZE as real) <= y' - y <= BLOCK_SIZE as real
    ensures InGrid(x', y')
    ensures 0 <= CellIndex(x', y') < |MAP|
  {
    OpenIsInterior(x, y);
    BoundsInGrid(x', y');
  }

  /** A point of [0, MAX_DEPTH) x [0, MAX_DEPTH) lies in the grid. */
  lemma BoundsInGrid(x: real, y: real)
    requires 0.0 <= x < MAX_DEPTH as real && 0.0 <= y < MAX_DEPTH as real
    ensures InGrid(x, y)
    ensures 0 <= CellIndex(x, y) < |MAP|
  {
    InGridIndex(x, y);
  }

  /** Cell (4, 4), which holds the starting position, is open. */
  lemma StartCellOpen()
    ensures Open((SCREEN_WIDTH / 4) as real, (SCREEN_WIDTH / 4) as real)
    ensures Row((SCREEN_WIDTH / 4) as real) == 4 && Col((SCREEN_WIDTH / 4) as real) == 4
  {
    assert SCREEN_WIDTH / 4 == 240;
    var start := (SCREEN_WIDTH / 4) as real;
    assert start / BLOCK_SIZE as real == 4.0;
    assert Row(start) == 4 && Col(start) == 4;
    assert MAP[36] == ' ';
  }
}
