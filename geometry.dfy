/**
 * Points of a contour and the Euclidean distance between them.
 *
 * The square root is the one operation here that Dafny's reals do not have.
 * Every member that needs it takes the root as a parameter `sqrt` together
 * with `IsSqrt(sqrt)`, which pins it down on the non-negative reals: it is
 * the non-negative root, exactly as `Math.sqrt` would be with exact
 * arithmetic.
 */
module Geometry {

  /** A point `[x, y]` in grid space; coordinates need not be integers. */
  datatype Point = Point(x: real, y: real)

  /**
   * `sqrt` is the non-negative square root on the non-negative reals. The
   * last conjunct (the root vanishes only at 0) follows from the others; it
   * is spelled out because the solver does not derive it unaided.
   */
  ghost predicate IsSqrt(sqrt: real -> real) {
    forall v: real {:trigger sqrt(v)} :: 0.0 <= v ==>
      0.0 <= sqrt(v) && sqrt(v) * sqrt(v) == v && (sqrt(v) == 0.0 <==> v == 0.0)
  }

  function Abs(v: real): (r: real)
    ensures r >= 0.0 && (r == v || r == -v)
  {
    if v < 0.0 then -v else v
  }

  /** dx * dx + dy * dy, the radicand of `dist`. */
  function SqDist(a: Point, b: Point): (r: real)
    ensures r >= 0.0
  {
    var dx := a.x - b.x;
    var dy := a.y - b.y;
    dx * dx + dy * dy
  }

  /** `dist(a, b)`: the Euclidean distance. */
  function Dist(sqrt: real -> real, a: Point, b: Point): (r: real)
    requires IsSqrt(sqrt)
    ensures 0.0 <= r
  {
    sqrt(SqDist(a, b))
  }

  /** `dist` squared is `dx * dx + dy * dy`. */
  lemma DistSquared(sqrt: real -> real, a: Point, b: Point)
    requires IsSqrt(sqrt)
    ensures Dist(sqrt, a, b) * Dist(sqrt, a, b) == SqDist(a, b)
  {
  }

  lemma SquarePositive(d: real)
    requires d != 0.0
    ensures d * d > 0.0
  {
  }

  lemma SquareNonNegative(d: real)
    ensures d * d >= 0.0
  {
  }

  lemma SumOfSquaresPositive(p: real, q: real)
    requires p != 0.0 || q != 0.0
    ensures p * p + q * q > 0.0
  {
    if p != 0.0 {
      SquarePositive(p);
      SquareNonNegative(q);
    } else {
      SquarePositive(q);
      SquareNonNegative(p);
    }
  }

  /** Distinct points are at a positive squared distance. */
  lemma SqDistPositive(a: Point, b: Point)
    requires a != b
    ensures SqDist(a, b) > 0.0
  {
    var dx, dy := a.x - b.x, a.y - b.y;
    SumOfSquaresPositive(dx, dy);
    calc {
      SqDist(a, b);
      == dx * dx + dy * dy;
      > 0.0;
    }
  }

  lemma SqDistSymmetric(a: Point, b: Point)
    ensures SqDist(a, b) == SqDist(b, a)
  {
  }

  /** `dist` is symmetric. */
  lemma DistSymmetric(sqrt: real -> real, a: Point, b: Point)
    requires IsSqrt(sqrt)
    ensures Dist(sqrt, a, b) == Dist(sqrt, b, a)
  {
    SqDistSymmetric(a, b);
  }

  /** `dist` is 0 exactly between equal points. */
  lemma DistZeroIff(sqrt: real -> real, a: Point, b: Point)
    requires IsSqrt(sqrt)
    ensures Dist(sqrt, a, b) == 0.0 <==> a == b
  {
    if a != b {
      SqDistPositive(a, b);
    }
  }
}
