/** Casting the rays of one frame: the brute-force march of each ray to its
    first wall, and the shade, fisheye-corrected depth, wall height and screen
    slice computed from the hit. The draw calls are replaced by the returned
    hit records. */
module Raycast {
  import opened Config
  import opened Grid
  import opened Input

  datatype Option<T> = None | Some(value: T)

  /** What one ray records when it hits a wall: the hit point, the march
      depth, the cell hit, the grey level of the slice, the depth after the
      fisheye correction, the wall height and the slice's horizontal extent
      on screen. */
  datatype RayHit = RayHit(
    hitX: real, hitY: real,
    depth: int,
    row: int, col: int,
    color: int,
    corrected: int,
    height: real,
    sliceX: int, sliceW: int)

  /** Angle of ray `ray`: the rays sweep the field of view from
      angle - HALF_FOV in steps of STEP_ANGLE. */
  function RayAngle(angle: real, ray: int): real
  {
    angle - HALF_FOV + ray as real * STEP_ANGLE
  }

  /** Ray angles grow with the ray index. */
  lemma RayAnglesIncrease(angle: real, i: int, j: int)
    requires 0 <= i < j < NUMBER_RAYS
    ensures RayAngle(angle, i) < RayAngle(angle, j)
  {
    assert STEP_ANGLE > 0.0;
    assert (j - i) as real * STEP_ANGLE > 0.0;
  }

  /** Adding STEP_ANGLE to the angle of one ray gives the angle of the next. */
  lemma RayAngleNext(angle: real, ray: int)
    ensures RayAngle(angle, 0) == angle - HALF_FOV
    ensures RayAngle(angle, ray + 1) == RayAngle(angle, ray) + STEP_ANGLE
  {
  }

  /** Every ray lies within the field of view, and the middle ray points
      along the heading. */
  lemma RayAngleInView(angle: real, ray: int)
    requires 0 <= ray < NUMBER_RAYS
    ensures -HALF_FOV < angle - RayAngle(angle, ray) <= HALF_FOV
    ensures ray == NUMBER_RAYS / 2 ==> RayAngle(angle, ray) == angle
  {
    assert STEP_ANGLE * NUMBER_RAYS as real == 2.0 * HALF_FOV;
    assert ray as real * STEP_ANGLE < NUMBER_RAYS as real * STEP_ANGLE;
  }

  /** The x coordinate sampled at `depth` along a ray of direction cosine `dx`. */
  function SampleX(px: real, dx: real, depth: int): real
  {
    px + dx * depth as real
  }

  /** The y coordinate sampled at `depth` along a ray of direction sine `dy`;
      the screen's y axis points down. */
  function SampleY(py: real, dy: real, depth: int): real
  {
    py - dy * depth as real
  }

  /** Every sample before depth `n` lies in an open cell of the grid. */
  ghost predicate ClearBefore(px: real, py: real, dx: real, dy: real, n: int)
  {
    forall d :: 0 <= d < n ==> Open(SampleX(px, dx, d), SampleY(py, dy, d))
  }

  /** `d` is the least depth below MAX_DEPTH whose sample lies in a wall cell. */
  ghost predicate IsFirstHit(px: real, py: real, dx: real, dy: real, d: int)
  {
    && 0 <= d < MAX_DEPTH
    && ClearBefore(px, py, dx, dy, d)
    && InGrid(SampleX(px, dx, d), SampleY(py, dy, d))
    && !Open(SampleX(px, dx, d), SampleY(py, dy, d))
  }

  /** No sample below MAX_DEPTH lies in a wall cell. */
  ghost predicate NoHit(px: real, py: real, dx: real, dy: real)
  {
    ClearBefore(px, py, dx, dy, MAX_DEPTH)
  }

  /** A march that finds depth `n` open has cleared depths below n + 1. */
  lemma ClearExtend(px: real, py: real, dx: real, dy: real, n: int)
    requires 0 <= n
    requires ClearBefore(px, py, dx, dy, n) && Open(SampleX(px, dx, n), SampleY(py, dy, n))
    ensures ClearBefore(px, py, dx, dy, n + 1)
  {
  }

  /** A ray has at most one first hit, and a ray with one is not a miss. */
  lemma FirstHitUnique(px: real, py: real, dx: real, dy: real, d: int, e: int)
    requires IsFirstHit(px, py, dx, dy, d)
    ensures IsFirstHit(px, py, dx, dy, e) ==> d == e
    ensures !NoHit(px, py, dx, dy)
  {
  }

  /** Each sample moves by at most one unit per coordinate from the one
      before, and the map's border is solid, so a sample that follows a
      sample in an open cell (or is the ray's origin, itself in an open cell)
      lies in the grid: the unchecked index stays inside the map. */
  lemma SampleInGrid(px: real, py: real, dx: real, dy: real, d: int)
    requires Open(px, py)
    requires -1.0 <= dx <= 1.0 && -1.0 <= dy <= 1.0
    requires 0 <= d
    requires 0 < d ==> Open(SampleX(px, dx, d - 1), SampleY(py, dy, d - 1))
    ensures InGrid(SampleX(px, dx, d), SampleY(py, dy, d))
    ensures 0 <= CellIndex(SampleX(px, dx, d), SampleY(py, dy, d)) < |MAP|
  {
    if d == 0 {
      SampleOrigin(px, py, dx, dy);
      InGridIndex(px, py);
    } else {
      SampleStep(px, py, dx, dy, d);
      NearOpenInGrid(SampleX(px, dx, d - 1), SampleY(py, dy, d - 1), SampleX(px, dx, d), SampleY(py, dy, d));
    }
  }

  /** The sample at depth 0 is the ray's origin. */
  lemma SampleOrigin(px: real, py: real, dx: real, dy: real)
    ensures SampleX(px, dx, 0) == px && SampleY(py, dy, 0) == py
  {
  }

  /** Consecutive samples of a ray are one direction vector apart. */
  lemma SampleStep(px: real, py: real, dx: real, dy: real, d: int)
    ensures SampleX(px, dx, d) == SampleX(px, dx, d - 1) + dx
    ensures SampleY(py, dy, d) == SampleY(py, dy, d - 1) - dy
  {
  }

  /** The grey level of a slice hit at march depth `d`: full white at depth
      0, dimming with the square of the depth. */
  function Shade(d: int): (c: int)
    requires 0 <= d
    ensures 0 <= c <= 255
    ensures d == 0 ==> c == 255
  {
    Trunc(255.0 / (1.0 + (d * d) as real * 0.0001))
  }

  /** A farther hit is never brighter. */
  lemma ShadeNonIncreasing(d: int, e: int)
    requires 0 <= d <= e
    ensures Shade(e) <= Shade(d)
  {
    SquareMonotone(d, e);
    var a := 1.0 + (d * d) as real * 0.0001;
    var b := 1.0 + (e * e) as real * 0.0001;
    QuotientAntitone(255.0, a, b);
    TruncMonotone(255.0 / b, 255.0 / a);
    assert Shade(d) == Trunc(255.0 / a) && Shade(e) == Trunc(255.0 / b);
  }

  lemma SquareMonotone(d: int, e: int)
    requires 0 <= d <= e
    ensures d * d <= e * e
  {
    assert d * d <= d * e;
  }

  /** Dividing a non-negative number by a larger positive divisor gives a
      smaller quotient. */
  lemma QuotientAntitone(n: real, a: real, b: real)
    requires 0.0 <= n && 0.0 < a <= b
    ensures 0.0 <= n / b <= n / a
  {
    assert n / b * b == n;
    assert n / a * a == n;
  }

  /** Truncation of non-negative numbers preserves order. */
  lemma TruncMonotone(r: real, s: real)
    requires 0.0 <= r <= s
    ensures Trunc(r) <= Trunc(s)
  {
  }

  /** Every hit within MAX_DEPTH is drawn at grey level 10 or brighter. */
  lemma ShadeWithinReach(d: int)
    requires 0 <= d < MAX_DEPTH
    ensures 10 <= Shade(d)
  {
    ShadeNonIncreasing(d, MAX_DEPTH - 1);
    assert 255.0 / (1.0 + (479 * 479) as real * 0.0001) >= 10.0;
  }

  /** The fisheye correction: the march depth scaled by the cosine `c` of
      the angle between the ray and the heading, truncated back to an int. */
  function Fisheye(depth: int, c: real): (corrected: int)
    requires 0 <= depth
    ensures 0.0 <= c <= 1.0 ==> 0 <= corrected <= depth
    ensures c == 1.0 ==> corrected == depth
  {
    assert 0.0 <= c <= 1.0 ==> 0.0 <= depth as real * c <= depth as real by {
      if 0.0 <= c <= 1.0 {
        assert depth as real * c <= depth as real * 1.0;
      }
    }
    Trunc(depth as real * c)
  }

  /** On-screen height of a wall at corrected depth `corrected`; the small
      constant keeps the divisor away from zero. */
  function WallHeight(corrected: int): (h: real)
    ensures 0 <= corrected ==> 0.0 < h <= CONS as real / 0.00001
  {
    CONS as real / (corrected as real + 0.00001)
  }

  /** A nearer wall is drawn strictly taller. */
  lemma WallHeightDecreasing(c: int, e: int)
    requires 0 <= c < e
    ensures WallHeight(e) < WallHeight(c)
  {
    var a := c as real + 0.00001;
    var b := e as real + 0.00001;
    assert 0.0 < a < b;
    assert CONS as real / b < CONS as real / a by {
      assert CONS as real / b * b == CONS as real;
      assert CONS as real / a * a == CONS as real;
    }
  }

  /** Left edge of the slice of ray `ray` in the 3D view, which starts at
      x = SCREEN_HEIGHT. */
  function SliceX(ray: int): (x: int)
    ensures 0 <= ray < NUMBER_RAYS ==> SCREEN_HEIGHT <= x && x + RAY_WIDTH <= SCREEN_WIDTH
  {
    SCREEN_HEIGHT + ray * RAY_WIDTH
  }

  /** The slices of the NUMBER_RAYS rays tile the 3D view [SCREEN_HEIGHT,
      SCREEN_WIDTH) without overlap: pixel column `px` lies in the slice of
      exactly one ray. */
  lemma SlicesTile(ray: int, px: int)
    requires 0 <= ray < NUMBER_RAYS
    requires SCREEN_HEIGHT <= px < SCREEN_WIDTH
    ensures SCREEN_HEIGHT <= SliceX(ray) && SliceX(ray) + RAY_WIDTH <= SCREEN_WIDTH
    ensures SliceX(ray) <= px < SliceX(ray) + RAY_WIDTH <==> ray == (px - SCREEN_HEIGHT) / RAY_WIDTH
  {
  }

  /** The record of a hit at depth `d` by ray `ray` of direction (dx, dy);
      `fc` is the cosine of the angle between the ray and the heading. */
  function MakeHit(px: real, py: real, dx: real, dy: real, d: int, ray: int, fc: real): RayHit
    requires 0 <= d
  {
    var hitX, hitY := SampleX(px, dx, d), SampleY(py, dy, d);
    var corrected := Fisheye(d, fc);
    RayHit(hitX, hitY, d, Row(hitY), Col(hitX), Shade(d), corrected, WallHeight(corrected),
           SliceX(ray), RAY_WIDTH)
  }

  /** `h` is what ray `ray` of a player at (px, py) heading `angle` records:
      nothing when the ray meets no wall within MAX_DEPTH, otherwise the
      record of its first hit. */
  ghost predicate Recorded(h: Option<RayHit>, px: real, py: real, angle: real, ray: int,
                           cos: real -> real, sin: real -> real)
  {
    var a := RayAngle(angle, ray);
    match h
    case None => NoHit(px, py, cos(a), sin(a))
    case Some(r) =>
      && IsFirstHit(px, py, cos(a), sin(a), r.depth)
      && r == MakeHit(px, py, cos(a), sin(a), r.depth, ray, cos(angle - a))
  }

  /** What every recorded hit satisfies: it names a wall cell of the grid,
      the corrected depth lies between 0 and the march depth, the wall height
      is positive, the shade is visible, and the slice lies in the 3D view. */
  ghost predicate WellFormedHit(r: RayHit)
  {
    && 0 <= r.row < MAP_SIZE && 0 <= r.col < MAP_SIZE && IsWall(r.row, r.col)
    && 0 <= r.corrected <= r.depth < MAX_DEPTH
    && 0.0 < r.height
    && 10 <= r.color <= 255
    && SCREEN_HEIGHT <= r.sliceX && r.sliceX + r.sliceW <= SCREEN_WIDTH
  }

  lemma RecordedHitWellFormed(r: RayHit, px: real, py: real, angle: real, ray: int,
                              cos: real -> real, sin: real -> real)
    requires 0 <= ray < NUMBER_RAYS && CosPositiveOnFov(cos) && TrigBounded(cos, sin)
    requires Recorded(Some(r), px, py, angle, ray, cos, sin)
    ensures WellFormedHit(r)
  {
    var a := RayAngle(angle, ray);
    RayAngleInView(angle, ray);
    assert 0.0 < cos(angle - a) <= 1.0;
    ShadeWithinReach(r.depth);
    assert RAY_WIDTH == 4;
  }

  /** The middle ray points along the heading, so with cos(0) = 1 its
      fisheye correction leaves the depth unchanged. */
  lemma CentreRayUncorrected(r: RayHit, px: real, py: real, angle: real,
                             cos: real -> real, sin: real -> real)
    requires cos(0.0) == 1.0
    requires Recorded(Some(r), px, py, angle, NUMBER_RAYS / 2, cos, sin)
    ensures r.corrected == r.depth
  {
    RayAngleInView(angle, NUMBER_RAYS / 2);
    assert angle - RayAngle(angle, NUMBER_RAYS / 2) == 0.0;
  }

  /** The inner loop of the ray cast: marches ray `ray`, of direction
      (dx, dy), from (px, py) through depths 0, 1, ..., MAX_DEPTH - 1 and
      stops at the first sample in a wall cell, recording the hit; `fc` is the
      cosine of the angle between the ray and the heading. A ray that meets
      no wall records nothing. */
  method CastRay(px: real, py: real, dx: real, dy: real, ray: int, fc: real) returns (hit: Option<RayHit>)
    requires Open(px, py)
    requires -1.0 <= dx <= 1.0 && -1.0 <= dy <= 1.0
    ensures hit.None? ==> NoHit(px, py, dx, dy)
    ensures hit.Some? ==> IsFirstHit(px, py, dx, dy, hit.value.depth)
    ensures hit.Some? ==> hit.value == MakeHit(px, py, dx, dy, hit.value.depth, ray, fc)
  {
    hit := None;
    for depth := 0 to MAX_DEPTH
      invariant ClearBefore(px, py, dx, dy, depth)
      invariant hit == None
    {
      var hitX := SampleX(px, dx, depth);
      var hitY := SampleY(py, dy, depth);
      assert 0 < depth ==> Open(SampleX(px, dx, depth - 1), SampleY(py, dy, depth - 1));
      SampleInGrid(px, py, dx, dy, depth);
      var col := Col(hitX);
      var row := Row(hitY);
      var index := row * MAP_SIZE + col;
      if MAP[index] == '#' {
        var color := Shade(depth);
        var corrected := Fisheye(depth, fc);
        var height := WallHeight(corrected);
        hit := Some(RayHit(hitX, hitY, depth, row, col, color, corrected, height,
                           SCREEN_HEIGHT + ray * RAY_WIDTH, RAY_WIDTH));
        return;
      }
      ClearExtend(px, py, dx, dy, depth);
    }
  }

  /** What the march of the ray at angle `a` returns is what ray `ray`
      records. */
  lemma CastIsRecorded(hit: Option<RayHit>, px: real, py: real, angle: real, ray: int,
                       cos: real -> real, sin: real -> real, a: real)
    requires a == RayAngle(angle, ray)
    requires hit.None? ==> NoHit(px, py, cos(a), sin(a))
    requires hit.Some? ==> IsFirstHit(px, py, cos(a), sin(a), hit.value.depth)
    requires hit.Some? ==> hit.value == MakeHit(px, py, cos(a), sin(a), hit.value.depth, ray, cos(angle - a))
    ensures Recorded(hit, px, py, angle, ray, cos, sin)
  {
  }

  /** Casts the NUMBER_RAYS rays of one frame from the player's position,
      sweeping the field of view with an angle that grows by STEP_ANGLE from
      ray to ray. */
  method CastRays(p: Player, cos: real -> real, sin: real -> real) returns (hits: seq<Option<RayHit>>)
    requires p.Valid() && TrigBounded(cos, sin)
    ensures |hits| == NUMBER_RAYS
    ensures forall ray :: 0 <= ray < NUMBER_RAYS ==> Recorded(hits[ray], p.x, p.y, p.angle, ray, cos, sin)
  {
    var px, py, angle := p.x, p.y, p.angle;
    var initialAngle := angle - HALF_FOV;
    RayAngleNext(angle, 0);
    hits := [];
    for ray := 0 to NUMBER_RAYS
      invariant |hits| == ray
      invariant initialAngle == RayAngle(angle, ray)
      invariant forall i :: 0 <= i < ray ==> Recorded(hits[i], px, py, angle, i, cos, sin)
    {
      var hit := CastRay(px, py, cos(initialAngle), sin(initialAngle), ray, cos(angle - initialAngle));
      CastIsRecorded(hit, px, py, angle, ray, cos, sin, initialAngle);
      hits := hits + [hit];
      RayAngleNext(angle, ray);
      initialAngle := initialAngle + STEP_ANGLE;
    }
  }
}
