/**
 * Points on the flat longitude/latitude plane and the floating-point helpers of
 * PointUtils (Pythagorean distance, the fixed-length move at a heading, and the
 * heading recovered from a move).
 *
 * The helpers rely on sqrt, cos, sin and acos, which have no exact counterpart
 * over Dafny's reals. They are therefore carried as function values in a
 * `Geometry` record that every planning operation takes as a parameter, and
 * the facts the planner relies on are collected in the predicate `Lawful`.
 */
module Geometry {

  datatype Point = Point(lng: real, lat: real)

  /** Length of every drone move, in degrees. */
  const StepLength: real := 0.0003

  /** Distance under which a sensor can be read (and a leg towards it ends). */
  const ReadRange: real := 0.0002

  /** Tolerance used when flying back to the launch point. */
  const ReturnTolerance: real := 0.0003

  /** Floating-point slack of the distance-sum test, 1e-14. */
  const Eps: real := 0.00000000000001

  /** The 36 headings a drone may fly: multiples of 10 degrees in [0, 350]. */
  predicate IsHeading(h: int) {
    0 <= h <= 350 && h % 10 == 0
  }

  /**
   * The three PointUtils helpers:
   *   distance(p, q)       -- findDistanceBetween
   *   pointAfterMove(p, h) -- the point reached by a 0.0003 move at heading h
   *                           (0 = east, counter-clockwise)
   *   angleBetween(p, q)   -- Math.toDegrees(angleBetweenPoints(p, q)), in [0, 360)
   */
  datatype Geometry = Geometry(
    distance: (Point, Point) -> real,
    pointAfterMove: (Point, int) -> Point,
    angleBetween: (Point, Point) -> real)

  /** What exact plane geometry guarantees of the three helpers. */
  ghost predicate Lawful(geo: Geometry) {
    && (forall p, q :: geo.distance(p, q) >= 0.0)
    && (forall p, q :: geo.distance(p, q) == geo.distance(q, p))
    && (forall p :: geo.distance(p, p) == 0.0)
    && (forall p, h :: geo.distance(p, geo.pointAfterMove(p, h)) == StepLength)
    && (forall p, h :: IsHeading(h) ==> geo.angleBetween(p, geo.pointAfterMove(p, h)) == h as real)
  }

  /** Math.round on doubles: the nearest integer, halves rounded up. */
  function Round(x: real): (r: int)
    ensures r as real - 0.5 <= x < r as real + 0.5
  {
    (x + 0.5).Floor
  }

  function Abs(x: real): (r: real)
    ensures r >= 0.0 && (r == x || r == -x)
  {
    if x < 0.0 then -x else x
  }

  /**
   * The laws are consistent: a discrete metric with moves that shift each
   * heading to its own point satisfies all of them.
   */
  lemma LawfulGeometryExists()
    ensures exists geo :: Lawful(geo)
  {
    var geo := Geometry(
      (p: Point, q: Point) => if p == q then 0.0 else StepLength,
      (p: Point, h: int) => Point(p.lng + 1.0, p.lat + h as real),
      (p: Point, q: Point) => q.lat - p.lat);
    assert Lawful(geo);
  }
}
