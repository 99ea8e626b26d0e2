/** Compile-time constants of the raycaster and the facts about `cos` and
    `sin` that the model relies on.

    The trigonometric functions of the C math library are not modelled: every
    operation that needs them takes them as parameters of type `real -> real`,
    and states which of the facts below it needs. Each fact holds of the true
    cosine and sine. */
module Config {

  const SCREEN_HEIGHT: int := 480
  const SCREEN_WIDTH: int := SCREEN_HEIGHT * 2
  const MAP_SIZE: int := 8
  /** Side of one grid cell, in world units (= pixels of the 2D view). */
  const BLOCK_SIZE: int := SCREEN_HEIGHT / MAP_SIZE
  /** Rays are marched for depths 0 .. MAX_DEPTH - 1. */
  const MAX_DEPTH: int := MAP_SIZE * BLOCK_SIZE
  /** The decimal literal of `M_PI`. */
  const PI: real := 3.14159265358979323846
  const FOV: real := PI / 3.0
  const HALF_FOV: real := FOV / 2.0
  const NUMBER_RAYS: int := 120
  const STEP_ANGLE: real := FOV / NUMBER_RAYS as real
  /** Width in pixels of one wall slice of the 3D view. */
  const RAY_WIDTH: int := SCREEN_HEIGHT / NUMBER_RAYS
  /** Projection constant of the wall height. */
  const CONS: int := 20000

  /** Turn applied by one frame of a held left or right key. */
  const TURN: real := 0.1
  /** Distance covered by one frame of a held up or down key. */
  const SPEED: real := 5.0

  /** Cosine and sine never leave [-1, 1]. */
  ghost predicate TrigBounded(cos: real -> real, sin: real -> real)
  {
    && (forall t :: -1.0 <= cos(t) <= 1.0)
    && (forall t :: -1.0 <= sin(t) <= 1.0)
  }

  /** Cosine is positive over the field of view, which is narrower than a
      half turn. */
  ghost predicate CosPositiveOnFov(cos: real -> real)
  {
    forall t :: -HALF_FOV <= t <= HALF_FOV ==> 0.0 < cos(t)
  }
}
