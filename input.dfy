/** The player and the per-frame keyboard handler that turns and moves it,
    with every move gated by the collision test. */
module Input {
  import opened Config
  import opened Grid

  /** A position in world units. */
  datatype Point = Point(x: real, y: real)

  /** Which of the four arrow keys are held during one frame. */
  datatype Keys = Keys(left: bool, right: bool, up: bool, down: bool)

  /** The change of heading one frame of `keys` makes: left turns by -TURN,
      right by +TURN, both together cancel out. */
  function Turn(keys: Keys): (t: real)
    ensures -TURN <= t <= TURN
    ensures keys.left == keys.right ==> t == 0.0
    ensures keys.left && !keys.right ==> t == -TURN
    ensures keys.right && !keys.left ==> t == TURN
  {
    (if keys.left then -TURN else 0.0) + (if keys.right then TURN else 0.0)
  }

  /** The point SPEED along a heading whose cosine is `c` and sine is `s`.
      The y axis points down the screen, hence the sign of the sine term. */
  function Ahead(p: Point, c: real, s: real): Point
  {
    Point(p.x + c * SPEED, p.y - s * SPEED)
  }

  /** The point SPEED against that heading. */
  function Behind(p: Point, c: real, s: real): Point
  {
    Point(p.x - c * SPEED, p.y + s * SPEED)
  }

  /** A move ahead or behind changes each coordinate by at most SPEED. */
  lemma MoveWithinSpeed(p: Point, c: real, s: real)
    requires -1.0 <= c <= 1.0 && -1.0 <= s <= 1.0
    ensures -SPEED <= Ahead(p, c, s).x - p.x <= SPEED && -SPEED <= Ahead(p, c, s).y - p.y <= SPEED
    ensures -SPEED <= Behind(p, c, s).x - p.x <= SPEED && -SPEED <= Behind(p, c, s).y - p.y <= SPEED
  {
    assert SPEED == 5.0;
  }

  /** One gated move from `from` to the candidate `to`: the candidate is
      taken only when the collision test finds no wall in its cell. A step of
      at most SPEED in each coordinate keeps the candidate's cell index inside
      the map, so the unchecked lookup is safe. */
  function Advance(from: Point, to: Point): (p: Point)
    requires Open(from.x, from.y)
    requires -SPEED <= to.x - from.x <= SPEED && -SPEED <= to.y - from.y <= SPEED
    ensures Open(p.x, p.y)
    ensures Open(to.x, to.y) ==> p == to
    ensures !Open(to.x, to.y) ==> p == from
  {
    NearOpenInGrid(from.x, from.y, to.x, to.y);
    if CheckCollision(to.x, to.y) == 0 then to else from
  }

  /** Position after the up and down keys of one frame, in that order, for a
      heading whose cosine is `c` and sine is `s`. */
  function Walk(from: Point, c: real, s: real, keys: Keys): (p: Point)
    requires Open(from.x, from.y)
    requires -1.0 <= c <= 1.0 && -1.0 <= s <= 1.0
    ensures Open(p.x, p.y)
    ensures !keys.up && !keys.down ==> p == from
  {
    MoveWithinSpeed(from, c, s);
    var forward := if keys.up then Advance(from, Ahead(from, c, s)) else from;
    MoveWithinSpeed(forward, c, s);
    if keys.down then Advance(forward, Behind(forward, c, s)) else forward
  }

  class Player {
    var x: real
    var y: real
    /** Heading in radians, counter-clockwise from the +x axis; never
        normalised. */
    var angle: real

    /** The player stands in an open cell of the map. */
    ghost predicate Valid()
      reads this
    {
      Open(x, y)
    }

    /** The start of the game: the centre of cell (4, 4), facing -x. */
    constructor ()
      ensures x == (SCREEN_WIDTH / 4) as real && y == (SCREEN_WIDTH / 4) as real
      ensures angle == PI
      ensures Valid()
    {
      x := (SCREEN_WIDTH / 4) as real;
      y := (SCREEN_WIDTH / 4) as real;
      angle := PI;
      StartCellOpen();
    }

    /** One frame of keyboard handling. Turning happens first, so a move in
        the same frame follows the new heading; a move whose target cell is a
        wall is dropped, so the player never enters a wall. */
    method UserInput(keys: Keys, cos: real -> real, sin: real -> real)
      requires Valid() && TrigBounded(cos, sin)
      modifies this
      ensures Valid()
      ensures angle == old(angle) + Turn(keys)
      ensures Point(x, y) == Walk(Point(old(x), old(y)), cos(angle), sin(angle), keys)
      ensures !keys.up && !keys.down ==> x == old(x) && y == old(y)
    {
      if keys.left {
        angle := angle - TURN;
      }
      if keys.right {
        angle := angle + TURN;
      }
      assert angle == old(angle) + Turn(keys);
      var c, s := cos(angle), sin(angle);
      ghost var from := Point(x, y);
      if keys.up {
        var update := Ahead(Point(x, y), c, s);
        MoveWithinSpeed(Point(x, y), c, s);
        NearOpenInGrid(x, y, update.x, update.y);
        if CheckCollision(update.x, update.y) == 0 {
          x, y := update.x, update.y;
        }
      }
      ghost var forward := Point(x, y);
      assert forward == if keys.up then Advance(from, Ahead(from, c, s)) else from;
      if keys.down {
        var update := Behind(Point(x, y), c, s);
        MoveWithinSpeed(Point(x, y), c, s);
        NearOpenInGrid(x, y, update.x, update.y);
        if CheckCollision(update.x, update.y) == 0 {
          x, y := update.x, update.y;
        }
      }
    }
  }
}
