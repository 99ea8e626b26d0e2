/** One frame of the program and the sequence of frames: the 2D map view,
    the ray cast and the keyboard handler, in the order the main loop runs
    them. Drawing is replaced by the values that would be drawn. */
module Frame {
  import opened Config
  import opened Grid
  import opened Input
  import opened Raycast

  datatype Rect = Rect(x: int, y: int, w: int, h: int)
  datatype Color = Color(r: int, g: int, b: int, a: int)
  /** One filled square of the 2D map view. */
  datatype Tile = Tile(rect: Rect, color: Color)
  /** A pixel of the 2D map view. */
  datatype Pixel = Pixel(x: int, y: int)

  const WHITE: Color := Color(255, 255, 255, 255)
  const BLACK: Color := Color(0, 0, 0, 255)

  /** The square drawn for cell (row, col): the cell's block, less a two
      pixel gap on the right and at the bottom. */
  function CellRect(row: int, col: int): Rect
  {
    Rect(col * BLOCK_SIZE, row * BLOCK_SIZE, BLOCK_SIZE - 2, BLOCK_SIZE - 2)
  }

  /** Walls are drawn white, open cells black. */
  function CellColor(row: int, col: int): Color
    requires 0 <= row < MAP_SIZE && 0 <= col < MAP_SIZE
  {
    if IsWall(row, col) then WHITE else BLACK
  }

  /** The 64 squares of the map view, in row-major order. */
  function MapTiles(): (tiles: seq<Tile>)
    ensures |tiles| == MAP_SIZE * MAP_SIZE
  {
    seq(MAP_SIZE * MAP_SIZE, i requires 0 <= i < MAP_SIZE * MAP_SIZE =>
      Tile(CellRect(i / MAP_SIZE, i % MAP_SIZE), CellColor(i / MAP_SIZE, i % MAP_SIZE)))
  }

  /** Every point of the square drawn for a cell lies in that cell, so the
      squares of distinct cells never overlap. */
  lemma CellRectInsideCell(row: int, col: int, x: real, y: real)
    requires 0 <= row < MAP_SIZE && 0 <= col < MAP_SIZE
    requires CellRect(row, col).x as real <= x < (CellRect(row, col).x + CellRect(row, col).w) as real
    requires CellRect(row, col).y as real <= y < (CellRect(row, col).y + CellRect(row, col).h) as real
    ensures Row(y) == row && Col(x) == col
  {
    CellSpan(x, col);
    CellSpan(y, row);
  }

  /** The player's marker, drawn at the truncated position, lies in the
      player's own cell. */
  lemma MarkerInPlayerCell(x: real, y: real)
    requires Open(x, y)
    ensures Trunc(x) / BLOCK_SIZE == Col(x) && Trunc(y) / BLOCK_SIZE == Row(y)
  {
    OpenIsInterior(x, y);
    TruncThenDivide(x);
    TruncThenDivide(y);
  }

  /** For a non-negative coordinate, truncating before the integer division
      by the block size lands in the same cell as truncating after. */
  lemma TruncThenDivide(v: real)
    requires 0.0 <= v
    ensures Trunc(v) / BLOCK_SIZE == Trunc(v / BLOCK_SIZE as real)
  {
    var n := Trunc(v);
    var c := Trunc(v / BLOCK_SIZE as real);
    assert BLOCK_SIZE == 60;
    assert c * 60 <= n < c * 60 + 60 by {
      assert (c * 60) as real <= v < (c * 60 + 60) as real;
    }
  }

  /** The map view is in row-major order: entry row * MAP_SIZE + col is the
      square of cell (row, col). */
  lemma MapTileAt(row: int, col: int)
    requires 0 <= row < MAP_SIZE && 0 <= col < MAP_SIZE
    ensures 0 <= row * MAP_SIZE + col < |MapTiles()|
    ensures MapTiles()[row * MAP_SIZE + col] == Tile(CellRect(row, col), CellColor(row, col))
  {
    var n := row * MAP_SIZE + col;
    assert n / MAP_SIZE == row && n % MAP_SIZE == col by {
      assert MAP_SIZE == 8;
    }
  }

  /** Appending the next square in row-major order extends a prefix of the
      map view by one entry. */
  lemma MapTilesPrefix(tiles: seq<Tile>, t: Tile)
    requires |tiles| < |MapTiles()| && tiles == MapTiles()[..|tiles|]
    requires t == MapTiles()[|tiles|]
    ensures tiles + [t] == MapTiles()[..|tiles| + 1]
  {
  }

  /** Draws the 2D map view: one square per cell, then the player's marker. */
  method DrawMap(p: Player) returns (tiles: seq<Tile>, marker: Pixel)
    ensures tiles == MapTiles()
    ensures marker == Pixel(Trunc(p.x), Trunc(p.y))
  {
    tiles := [];
    for row := 0 to MAP_SIZE
      invariant |tiles| == row * MAP_SIZE
      invariant tiles == MapTiles()[..|tiles|]
    {
      for col := 0 to MAP_SIZE
        invariant |tiles| == row * MAP_SIZE + col
        invariant tiles == MapTiles()[..|tiles|]
      {
        var rect := Rect(col * BLOCK_SIZE, row * BLOCK_SIZE, BLOCK_SIZE - 2, BLOCK_SIZE - 2);
        // IsWall(row, col) reads MAP at index row * MAP_SIZE + col
        var color := if IsWall(row, col) then WHITE else BLACK;
        MapTileAt(row, col);
        MapTilesPrefix(tiles, Tile(rect, color));
        tiles := tiles + [Tile(rect, color)];
      }
      assert row * MAP_SIZE + MAP_SIZE == (row + 1) * MAP_SIZE;
    }
    marker := Pixel(Trunc(p.x), Trunc(p.y));
  }

  /** The total change of heading over a sequence of frames. */
  function TotalTurn(frames: seq<Keys>): real
  {
    if frames == [] then 0.0 else TotalTurn(frames[..|frames| - 1]) + Turn(frames[|frames| - 1])
  }

  /** What one frame shows: the map squares, the player's marker and the
      slices of the 3D view. */
  datatype View = View(tiles: seq<Tile>, marker: Pixel, slices: seq<Option<RayHit>>)

  /** The player's position and heading between two frames. */
  datatype State = State(pos: Point, angle: real)

  /** The state set before the main loop: the centre of cell (4, 4),
      facing -x. */
  function Start(): (s: State)
    ensures Open(s.pos.x, s.pos.y)
  {
    StartCellOpen();
    State(Point((SCREEN_WIDTH / 4) as real, (SCREEN_WIDTH / 4) as real), PI)
  }

  /** The heading in which frame `k` is drawn (for k == |frames|, the
      heading after the last frame): the start heading plus the turns of the
      frames before it. */
  function HeadingAt(frames: seq<Keys>, k: int): real
    requires 0 <= k <= |frames|
  {
    PI + TotalTurn(frames[..k])
  }

  /** Each frame turns the heading by its own keys. */
  lemma HeadingNext(frames: seq<Keys>, k: int)
    requires 0 <= k < |frames|
    ensures HeadingAt(frames, k + 1) == HeadingAt(frames, k) + Turn(frames[k])
  {
    assert frames[..k + 1][..k] == frames[..k];
  }

  /** The position in which frame `k` is drawn: each frame before it takes
      the gated up and down moves along its turned heading. */
  ghost function PositionAt(frames: seq<Keys>, k: int, cos: real -> real, sin: real -> real): (q: Point)
    requires 0 <= k <= |frames| && TrigBounded(cos, sin)
    ensures Open(q.x, q.y)
  {
    if k == 0 then Start().pos
    else Walk(PositionAt(frames, k - 1, cos, sin), cos(HeadingAt(frames, k)), sin(HeadingAt(frames, k)), frames[k - 1])
  }

  /** Each frame moves the player by its own keys along its turned heading. */
  lemma PositionNext(frames: seq<Keys>, k: int, cos: real -> real, sin: real -> real)
    requires 0 <= k < |frames| && TrigBounded(cos, sin)
    ensures PositionAt(frames, k + 1, cos, sin) ==
              Walk(PositionAt(frames, k, cos, sin), cos(HeadingAt(frames, k + 1)), sin(HeadingAt(frames, k + 1)), frames[k])
  {
  }

  /** The state in which frame `k` is drawn. */
  ghost function StateAt(frames: seq<Keys>, k: int, cos: real -> real, sin: real -> real): State
    requires 0 <= k <= |frames| && TrigBounded(cos, sin)
  {
    State(PositionAt(frames, k, cos, sin), HeadingAt(frames, k))
  }

  /** Appending the view of frame k to the views of the frames before it. */
  lemma ShowsExtend(views: seq<View>, v: View, frames: seq<Keys>, k: int, cos: real -> real, sin: real -> real)
    requires 0 <= k < |frames| && TrigBounded(cos, sin) && |views| == k
    requires forall j :: 0 <= j < k ==> Shows(views[j], StateAt(frames, j, cos, sin), cos, sin)
    requires Shows(v, StateAt(frames, k, cos, sin), cos, sin)
    ensures forall j :: 0 <= j < k + 1 ==> Shows((views + [v])[j], StateAt(frames, j, cos, sin), cos, sin)
  {
    forall j | 0 <= j < k + 1
      ensures Shows((views + [v])[j], StateAt(frames, j, cos, sin), cos, sin)
    {
      if j < k {
        assert (views + [v])[j] == views[j];
      }
    }
  }

  /** View `v` is what a frame drawn in state `s` shows: the full map, the
      marker at the truncated position, and for every ray what that ray
      records from `s`. */
  ghost predicate Shows(v: View, s: State, cos: real -> real, sin: real -> real)
  {
    && v.tiles == MapTiles()
    && v.marker == Pixel(Trunc(s.pos.x), Trunc(s.pos.y))
    && |v.slices| == NUMBER_RAYS
    && forall ray :: 0 <= ray < NUMBER_RAYS ==> Recorded(v.slices[ray], s.pos.x, s.pos.y, s.angle, ray, cos, sin)
  }

  /** Every hit of view `v` is well formed. */
  ghost predicate HitsWellFormed(v: View)
  {
    forall ray :: 0 <= ray < |v.slices| && v.slices[ray].Some? ==> WellFormedHit(v.slices[ray].value)
  }

  /** Every hit of a view shown from any state is well formed. */
  lemma ShownHitsWellFormed(v: View, s: State, cos: real -> real, sin: real -> real)
    requires TrigBounded(cos, sin) && CosPositiveOnFov(cos)
    requires Shows(v, s, cos, sin)
    ensures HitsWellFormed(v)
  {
    forall ray | 0 <= ray < |v.slices| && v.slices[ray].Some?
      ensures WellFormedHit(v.slices[ray].value)
    {
      RecordedHitWellFormed(v.slices[ray].value, s.pos.x, s.pos.y, s.angle, ray, cos, sin);
    }
  }

  /** The main loop with the keyboard state of each frame given in
      `frames`; the loop ends when the frames run out. The player starts at
      the centre of cell (4, 4), facing -x. Each frame draws the map and casts
      the rays from the current state, then applies that frame's keys. */
  method Run(frames: seq<Keys>, cos: real -> real, sin: real -> real) returns (p: Player, views: seq<View>)
    requires TrigBounded(cos, sin) && CosPositiveOnFov(cos)
    ensures p.Valid()
    ensures Point(p.x, p.y) == PositionAt(frames, |frames|, cos, sin)
    ensures p.angle == HeadingAt(frames, |frames|) == PI + TotalTurn(frames)
    ensures |views| == |frames|
    ensures forall k :: 0 <= k < |views| ==> Shows(views[k], StateAt(frames, k, cos, sin), cos, sin)
    ensures forall k :: 0 <= k < |views| ==> HitsWellFormed(views[k])
  {
    p := new Player();
    views := [];
    for k := 0 to |frames|
      invariant p.Valid()
      invariant Point(p.x, p.y) == PositionAt(frames, k, cos, sin) && p.angle == HeadingAt(frames, k)
      invariant |views| == k
      invariant forall j :: 0 <= j < k ==> Shows(views[j], StateAt(frames, j, cos, sin), cos, sin)
    {
      ghost var now := StateAt(frames, k, cos, sin);
      var tiles, marker := DrawMap(p);
      var slices := CastRays(p, cos, sin);
      assert Shows(View(tiles, marker, slices), now, cos, sin);
      ShowsExtend(views, View(tiles, marker, slices), frames, k, cos, sin);
      views := views + [View(tiles, marker, slices)];
      HeadingNext(frames, k);
      PositionNext(frames, k, cos, sin);
      ghost var heading, position := HeadingAt(frames, k + 1), PositionAt(frames, k + 1, cos, sin);
      p.UserInput(frames[k], cos, sin);
      assert p.angle == heading;
      assert Point(p.x, p.y) == position;
    }
    forall k | 0 <= k < |views|
      ensures HitsWellFormed(views[k])
    {
      ShownHitsWellFormed(views[k], StateAt(frames, k, cos, sin), cos, sin);
    }
    assert frames[..|frames|] == frames;
  }
}
