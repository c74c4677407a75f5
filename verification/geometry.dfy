/**
 * Plane geometry of the arena.
 *
 * Distance, bearing and displacement along an angle are computed in the
 * game with square roots and trigonometry.  The model does not reason
 * about those numerics: the three operations are handed in as a `Geo`
 * value whose functions are left arbitrary, so every property proved
 * holds whatever they compute.
 */
module Geometry {
  /** A world-space position; points are values, never shared. */
  datatype Point = Point(x: real, y: real)

  /** The three geometric queries of a point:
      dist(a, b)      -- Euclidean distance from a to b,
      angle(a, b)     -- bearing from a towards b (atan2 convention),
      shift(a, t, l)  -- the point reached from a by moving l along angle t. */
  datatype Geo = Geo(
    dist: (Point, Point) -> real,
    angle: (Point, Point) -> real,
    shift: (Point, real, real) -> Point)
}
