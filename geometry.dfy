/**
 * The shape metrics shared by the segmentation tools and the drawing tools:
 * circularity 4*pi*A/P^2, pore factor P^2/(16*A), the shoelace area and the
 * edge-length sum of a closed ring of points, and the Euclidean distance.
 * Square roots are not computable over the reals, so lengths take the square
 * root as a parameter; `IsSqrt` says when that parameter is the real one.
 */
module Geometry {

  datatype Point = Point(x: real, y: real)

  /** numpy's value of pi; the proofs only use that it is a positive constant. */
  const PI: real := 3.141592653589793

  lemma MulPositive(a: real, b: real)
    requires a > 0.0 && b > 0.0
    ensures a * b > 0.0
  {}

  /** A square is never negative. */
  lemma SquareNonNegative(a: real)
    ensures a * a >= 0.0
  {
    if a < 0.0 { MulPositive(-a, -a); } else if a > 0.0 { MulPositive(a, a); }
  }

  /** 4*pi*A/P^2: 1 for a circle, smaller for any other shape. */
  function Circularity(perimeter: real, area: real): (c: real)
    requires perimeter != 0.0
    ensures area > 0.0 ==> c > 0.0
  {
    (4.0 * PI * area) / (perimeter * perimeter)
  }

  /** P^2/(16*A): 1 for a square, pi/4 for a circle, larger for elongated or ragged shapes. */
  function PoreFactor(perimeter: real, area: real): (f: real)
    requires area != 0.0
    ensures area > 0.0 ==> f >= 0.0
    ensures perimeter == 0.0 ==> f == 0.0
  {
    (perimeter * perimeter) / (16.0 * area)
  }

  /** The two compactness scores are reciprocal up to the constant pi/4. */
  lemma CircularityTimesPoreFactor(perimeter: real, area: real)
    requires perimeter != 0.0 && area != 0.0
    ensures Circularity(perimeter, area) * PoreFactor(perimeter, area) == PI / 4.0
  {}

  /**
   * Dividing the perimeter by r and the area by r^2 (a change of length
   * unit) leaves the pore factor unchanged. The area is divided by r twice,
   * which over the reals is the division by r^2.
   */
  lemma PoreFactorScaleInvariant(perimeter: real, area: real, r: real)
    requires r != 0.0 && area != 0.0
    ensures area / r / r != 0.0
    ensures PoreFactor(perimeter / r, area / r / r) == PoreFactor(perimeter, area)
  {}

  /** Shrinking both sides of a picture to a quarter leaves the pore factor unchanged. */
  lemma PoreFactorQuarterScale(perimeter: real, area: real)
    requires area != 0.0
    ensures PoreFactor(perimeter * 0.25, area * 0.0625) == PoreFactor(perimeter, area)
  {}

  /** The unit circle (perimeter 2*pi, area pi): circularity 1 and pore factor pi/4, not 1. */
  lemma UnitCircleMetrics()
    ensures Circularity(2.0 * PI, PI) == 1.0
    ensures PoreFactor(2.0 * PI, PI) == PI / 4.0
  {}

  /** The unit square (perimeter 4, area 1): pore factor 1 and circularity pi/4. */
  lemma UnitSquareMetrics()
    ensures PoreFactor(4.0, 1.0) == 1.0
    ensures Circularity(4.0, 1.0) == PI / 4.0
  {}

  /** The squared Euclidean distance. */
  function SquaredDistance(p: Point, q: Point): (d: real)
    ensures d >= 0.0
  {
    SquareNonNegative(p.x - q.x);
    SquareNonNegative(p.y - q.y);
    (p.x - q.x) * (p.x - q.x) + (p.y - q.y) * (p.y - q.y)
  }

  /** f is the non-negative square root on the non-negative reals. */
  ghost predicate IsSqrt(f: real -> real) {
    forall x: real :: 0.0 <= x ==> 0.0 <= f(x) && f(x) * f(x) == x
  }

  /** Euclidean distance, as numpy.linalg.norm(p - q) computes it. */
  function Distance(sqrt: real -> real, p: Point, q: Point): real {
    sqrt(SquaredDistance(p, q))
  }

  lemma DistanceSymmetric(sqrt: real -> real, p: Point, q: Point)
    ensures Distance(sqrt, p, q) == Distance(sqrt, q, p)
  {
    assert SquaredDistance(p, q) == SquaredDistance(q, p);
  }

  lemma DistanceNonNegative(sqrt: real -> real, p: Point, q: Point)
    requires IsSqrt(sqrt)
    ensures Distance(sqrt, p, q) >= 0.0
  {}

  /** Twice the signed area of a closed ring, summed over consecutive pairs (shoelace). */
  function Cross(ring: seq<Point>): real
  {
    if |ring| < 2 then 0.0
    else (ring[0].x * ring[1].y - ring[1].x * ring[0].y) + Cross(ring[1..])
  }

  function Abs(v: real): (a: real)
    ensures a >= 0.0 && (a == v || a == -v)
  {
    if v < 0.0 then -v else v
  }

  /** The area of a closed ring (shapely's Polygon.area): the absolute shoelace sum, halved. */
  function PolygonArea(ring: seq<Point>): (a: real)
    ensures a >= 0.0
  {
    Abs(Cross(ring)) / 2.0
  }

  /** The length of a closed ring (shapely's Polygon.length): its edge lengths summed. */
  function PolygonLength(sqrt: real -> real, ring: seq<Point>): (len: real)
    ensures IsSqrt(sqrt) ==> len >= 0.0
  {
    if |ring| < 2 then 0.0
    else Distance(sqrt, ring[0], ring[1]) + PolygonLength(sqrt, ring[1..])
  }
}
