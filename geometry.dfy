/** Axis-aligned boxes and the forgiving collision test between an obstacle and the player. */
module Geometry {
  import opened RealOps

  /** A box by its top-left corner and its size; y grows downwards, as on the canvas. */
  datatype Box = Box(x: real, y: real, width: real, height: real)

  /** The tolerance taken off every edge of both boxes before they are compared. */
  const CollisionBuffer: real := 5.0

  /** The box with each of its four sides moved inwards by `d`. */
  function Shrink(b: Box, d: real): (s: Box)
    ensures s.x + s.width == b.x + b.width - d && s.y + s.height == b.y + b.height - d
  {
    Box(b.x + d, b.y + d, b.width - 2.0 * d, b.height - 2.0 * d)
  }

  /** The two boxes share interior points: they overlap strictly on both axes. */
  predicate StrictOverlap(a: Box, b: Box)
  {
    a.x < b.x + b.width && b.x < a.x + a.width &&
    a.y < b.y + b.height && b.y < a.y + a.height
  }

  /** Length of the common part of the two boxes' horizontal extents (not positive when apart). */
  function OverlapX(a: Box, b: Box): real
  {
    Min(a.x + a.width, b.x + b.width) - Max(a.x, b.x)
  }

  /** Length of the common part of the two boxes' vertical extents (not positive when apart). */
  function OverlapY(a: Box, b: Box): real
  {
    Min(a.y + a.height, b.y + b.height) - Max(a.y, b.y)
  }

  /** Obstacle.checkCollision, with `obstacle` in the role of `this`: the two boxes,
      each shrunk by the buffer on every side, overlap strictly. */
  function CheckCollision(obstacle: Box, player: Box): (hit: bool)
    ensures hit <==> StrictOverlap(Shrink(obstacle, CollisionBuffer), Shrink(player, CollisionBuffer))
  {
    obstacle.x + CollisionBuffer < player.x + player.width - CollisionBuffer &&
    obstacle.x + obstacle.width - CollisionBuffer > player.x + CollisionBuffer &&
    obstacle.y + CollisionBuffer < player.y + player.height - CollisionBuffer &&
    obstacle.y + obstacle.height - CollisionBuffer > player.y + CollisionBuffer
  }

  /** The test does not depend on which box is the obstacle. */
  lemma CollisionSymmetric(a: Box, b: Box)
    ensures CheckCollision(a, b) == CheckCollision(b, a)
  {
  }

  /** For boxes more than twice the buffer wide and tall, a collision is exactly a raw
      overlap of more than twice the buffer on both axes; a graze of at most 10 units is
      never fatal. */
  lemma CollisionIffDeepOverlap(a: Box, b: Box)
    requires a.width > 2.0 * CollisionBuffer && a.height > 2.0 * CollisionBuffer
    requires b.width > 2.0 * CollisionBuffer && b.height > 2.0 * CollisionBuffer
    ensures CheckCollision(a, b) <==>
            OverlapX(a, b) > 2.0 * CollisionBuffer && OverlapY(a, b) > 2.0 * CollisionBuffer
  {
  }

  /** Without the size condition the graze rule fails: a box 5 units wide inside a wide
      one collides although they overlap by only 5 units horizontally. */
  lemma NarrowBoxGrazeCollides()
    ensures var thin, wide := Box(0.0, 0.0, 5.0, 50.0), Box(-20.0, 0.0, 50.0, 50.0);
            CheckCollision(thin, wide) && OverlapX(thin, wide) <= 2.0 * CollisionBuffer
  {
  }
}
