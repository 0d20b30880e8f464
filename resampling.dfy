/**
 * Arc-length resampling of a closed contour by a uniform cubic B-spline
 * (`cubicInterpolation` in ACM/utils.js and ACM/ACM.js, `rebuild` in the
 * two KASS files): `round(total / maxLen)` samples, evenly spaced along the
 * perimeter, each a blend of the four vertices around its edge, rounded to
 * integer coordinates.
 */
module Resampling {
  import opened Geometry
  import opened Contours

  /** The blend weights c0 .. c3 at parameter t (scaled by 6). */
  datatype Weights = Weights(c0: real, c1: real, c2: real, c3: real)

  function BlendWeights(t: real): Weights {
    var t2 := t * t;
    var t3 := t2 * t;
    Weights(t3, -3.0 * t3 + 3.0 * t2 + 3.0 * t + 1.0, 3.0 * t3 - 6.0 * t2 + 4.0, -1.0 * t3 + 3.0 * t2 - 3.0 * t + 1.0)
  }

  /** The weights sum to 6 for every t, which the division by 6 undoes. */
  lemma WeightsSumToSix(t: real)
    ensures var c := BlendWeights(t); c.c0 + c.c1 + c.c2 + c.c3 == 6.0
  {
  }

  /** `Math.floor(0.5 + v / 6)`. */
  function RoundSixth(v: real): real {
    (0.5 + v / 6.0).Floor as real
  }

  /** Both coordinates of `p` are integers. */
  predicate Integral(p: Point) {
    p.x == p.x.Floor as real && p.y == p.y.Floor as real
  }

  /** One coordinate of the combination: `prev * c3 + cur * c2 + next * c1 + next2 * c0`. */
  function Weighted(prev: real, cur: real, next: real, next2: real, c: Weights): real {
    prev * c.c3 + cur * c.c2 + next * c.c1 + next2 * c.c0
  }

  /** The rounded combination of four consecutive vertices with weights c. */
  function Combine(prev: Point, cur: Point, next: Point, next2: Point, c: Weights): (p: Point)
    ensures Integral(p)
  {
    Point(RoundSixth(Weighted(prev.x, cur.x, next.x, next2.x, c)),
          RoundSixth(Weighted(prev.y, cur.y, next.y, next2.y, c)))
  }

  /** The rounded blend of four consecutive vertices at parameter t. */
  function BlendPoints(prev: Point, cur: Point, next: Point, next2: Point, t: real): (p: Point)
    ensures Integral(p)
  {
    Combine(prev, cur, next, next2, BlendWeights(t))
  }

  /**
   * The sample on edge `i` at parameter `t`: the blend of vertices i-1, i,
   * i+1 and i+2 (cyclically), rounded.
   */
  function Blend(s: Contour, i: nat, t: real): (p: Point)
    requires i < |s|
    ensures Integral(p)
  {
    var n := |s|;
    BlendPoints(s[(i + n - 1) % n], s[i], s[(i + 1) % n], s[(i + 2) % n], t)
  }

  /** Four coincident vertices P blend to P rounded, whatever t is. */
  lemma BlendOfCoincident(p: Point, t: real)
    ensures BlendPoints(p, p, p, p, t) == Point((0.5 + p.x).Floor as real, (0.5 + p.y).Floor as real)
  {
    WeightsSumToSix(t);
    CombineOfCoincident(p, BlendWeights(t));
  }

  lemma CombineOfCoincident(p: Point, c: Weights)
    requires c.c0 + c.c1 + c.c2 + c.c3 == 6.0
    ensures Combine(p, p, p, p, c) == Point((0.5 + p.x).Floor as real, (0.5 + p.y).Floor as real)
  {
    var x := Weighted(p.x, p.x, p.x, p.x, c);
    var y := Weighted(p.y, p.y, p.y, p.y, c);
    Scale(p.x, c);
    Scale(p.y, c);
    RoundOfSixfold(x, p.x);
    RoundOfSixfold(y, p.y);
  }

  lemma RoundOfSixfold(x: real, v: real)
    requires x / 6.0 == v
    ensures RoundSixth(x) == (0.5 + v).Floor as real
  {
  }

  lemma Scale(v: real, c: Weights)
    requires c.c0 + c.c1 + c.c2 + c.c3 == 6.0
    ensures Weighted(v, v, v, v, c) / 6.0 == v
  {
    assert Weighted(v, v, v, v, c) == v * (c.c0 + c.c1 + c.c2 + c.c3);
  }

  /** `nmb`: the number of samples, `Math.floor(0.5 + total / maxLen)`. */
  function SampleCount(total: real, maxLen: real): int
    requires maxLen != 0.0
  {
    (0.5 + total / maxLen).Floor
  }

  /** `d`: the arc position of sample j, `j * total / nmb`. */
  function SamplePosition(j: int, total: real, nmb: int): real
    requires nmb > 0
  {
    (j as real * total) / nmb as real
  }

  /** The blend parameter of position d on an edge [lo, hi) of positive length. */
  function EdgeParameter(lo: real, hi: real, d: real): (t: real)
    requires lo <= d < hi
    ensures 0.0 <= t < 1.0
  {
    UnitParameter(d - lo, hi - lo);
    (d - lo) / (hi - lo)
  }

  lemma UnitParameter(a: real, b: real)
    requires 0.0 <= a < b
    ensures 0.0 <= a / b < 1.0
  {
  }

  /** The table `clength` of arc lengths at every vertex (and the perimeter). */
  function Lengths(sqrt: real -> real, s: Contour): (c: seq<real>)
    requires IsSqrt(sqrt)
    ensures |c| == |s| + 1
    ensures forall k :: 0 <= k <= |s| ==> c[k] == PrefixLength(sqrt, s, k)
  {
    seq(|s| + 1, k requires 0 <= k <= |s| => PrefixLength(sqrt, s, k))
  }

  /** Each entry of `c` is at least the one before it. */
  predicate NonDecreasing(c: seq<real>) {
    forall a :: 0 <= a < |c| - 1 ==> c[a] <= c[a + 1]
  }

  lemma {:induction false} NonDecreasingBetween(c: seq<real>, a: int, b: int)
    requires NonDecreasing(c) && 0 <= a <= b < |c|
    ensures c[a] <= c[b]
    decreases b - a
  {
    if a < b {
      NonDecreasingBetween(c, a + 1, b);
    }
  }

  lemma LengthsNonDecreasing(sqrt: real -> real, s: Contour)
    requires IsSqrt(sqrt)
    ensures NonDecreasing(Lengths(sqrt, s))
  {
    var c := Lengths(sqrt, s);
    forall a | 0 <= a < |c| - 1
      ensures c[a] <= c[a + 1]
    {
      PrefixLengthMonotone(sqrt, s, a, a + 1);
    }
  }

  /** Edge i, from c[i] to c[i+1], contains arc position d. */
  predicate Brackets(c: seq<real>, i: int, d: real) {
    0 <= i && i + 1 < |c| && c[i] <= d < c[i + 1]
  }

  /**
   * The bracket search as a function: the first edge from `i` on whose end
   * lies beyond d.
   */
  function Search(c: seq<real>, i: nat, d: real): (k: nat)
    requires i < |c| - 1 && c[i] <= d < c[|c| - 1]
    ensures i <= k && Brackets(c, k, d)
    decreases |c| - i
  {
    if d < c[i + 1] then i else Search(c, i + 1, d)
  }

  /** The sample at arc position d: the blend on the edge bracketing d. */
  function Sample(c: seq<real>, s: Contour, d: real): (p: Point)
    requires |c| == |s| + 1 && 0 < |s| && c[0] <= d < c[|s|]
    ensures Integral(p)
  {
    var i := Search(c, 0, d);
    Blend(s, i, EdgeParameter(c[i], c[i + 1], d))
  }

  /**
   * The resampled contour: `max(0, nmb)` samples, sample j taken at arc
   * position `j * total / nmb`, with `nmb = floor(0.5 + total / maxLen)`.
   */
  function Resample(sqrt: real -> real, s: Contour, maxLen: real): (r: seq<Point>)
    requires IsSqrt(sqrt) && maxLen != 0.0
    ensures var nmb := SampleCount(Perimeter(sqrt, s), maxLen); |r| == if nmb > 0 then nmb else 0
    ensures forall j :: 0 <= j < |r| ==> Integral(r[j])
  {
    var c := Lengths(sqrt, s);
    var total := c[|s|];
    var nmb := SampleCount(total, maxLen);
    if nmb <= 0 then []
    else
      LengthsPositive(sqrt, s, maxLen);
      seq(nmb, j requires 0 <= j < nmb =>
        SamplePositionBounds(j, total, nmb);
        Sample(c, s, SamplePosition(j, total, nmb)))
  }

  /** A sample count above zero means a non-empty contour of positive perimeter. */
  lemma LengthsPositive(sqrt: real -> real, s: Contour, maxLen: real)
    requires IsSqrt(sqrt) && maxLen != 0.0 && SampleCount(Perimeter(sqrt, s), maxLen) > 0
    ensures 0 < |s| && Perimeter(sqrt, s) > 0.0 && Lengths(sqrt, s)[0] == 0.0
  {
    PrefixLengthMonotone(sqrt, s, 0, |s|);
    SamplesNeedLength(Perimeter(sqrt, s), maxLen);
  }

  /**
   * Sample j is the blend on every edge that brackets its position; by
   * `BracketUnique` that edge is the only one.
   */
  lemma ResampleAtBracket(sqrt: real -> real, s: Contour, maxLen: real, j: int, i: int)
    requires IsSqrt(sqrt) && maxLen != 0.0 && 0 <= j < |Resample(sqrt, s, maxLen)|
    requires var nmb := SampleCount(Perimeter(sqrt, s), maxLen);
      Brackets(Lengths(sqrt, s), i, SamplePosition(j, Perimeter(sqrt, s), nmb))
    ensures var c := Lengths(sqrt, s);
      var d := SamplePosition(j, Perimeter(sqrt, s), SampleCount(Perimeter(sqrt, s), maxLen));
      i < |s| && Resample(sqrt, s, maxLen)[j] == Blend(s, i, EdgeParameter(c[i], c[i + 1], d))
  {
    var c := Lengths(sqrt, s);
    var nmb := SampleCount(Perimeter(sqrt, s), maxLen);
    var d := SamplePosition(j, Perimeter(sqrt, s), nmb);
    LengthsPositive(sqrt, s, maxLen);
    SamplePositionBounds(j, Perimeter(sqrt, s), nmb);
    LengthsNonDecreasing(sqrt, s);
    BracketUnique(c, i, Search(c, 0, d), d);
  }

  /** In a non-decreasing table at most one edge brackets a position, so each sample is determined. */
  lemma BracketUnique(c: seq<real>, i: int, k: int, d: real)
    requires NonDecreasing(c) && Brackets(c, i, d) && Brackets(c, k, d)
    ensures i == k
  {
    if i < k {
      NonDecreasingBetween(c, i + 1, k);
    } else if k < i {
      NonDecreasingBetween(c, k + 1, i);
    }
  }

  /** A perimeter of 0 gives no samples, whatever maxLen is. */
  lemma NoSamplesOfZeroLength(maxLen: real)
    requires maxLen != 0.0
    ensures SampleCount(0.0, maxLen) == 0
  {
    assert 0.0 / maxLen == 0.0;
  }

  /** Samples exist only for a positive perimeter. */
  lemma SamplesNeedLength(total: real, maxLen: real)
    requires maxLen != 0.0 && total >= 0.0 && SampleCount(total, maxLen) > 0
    ensures total > 0.0
  {
    if total == 0.0 {
      NoSamplesOfZeroLength(maxLen);
    }
  }

  /** Sample positions start at 0, grow with j and stay below the perimeter. */
  lemma SamplePositionBounds(j: int, total: real, nmb: int)
    requires 0 <= j < nmb && total > 0.0
    ensures SamplePosition(0, total, nmb) == 0.0
    ensures 0.0 <= SamplePosition(j, total, nmb) < total
    ensures SamplePosition(j, total, nmb) <= SamplePosition(j + 1, total, nmb)
  {
    PositionZero(total, nmb);
    PositionBelowTotal(j, total, nmb);
    PositionMonotone(j, total, nmb);
  }

  lemma PositionZero(total: real, nmb: int)
    requires nmb > 0
    ensures SamplePosition(0, total, nmb) == 0.0
  {
    assert 0 as real * total == 0.0;
  }

  lemma PositionBelowTotal(j: int, total: real, nmb: int)
    requires 0 <= j < nmb && total > 0.0
    ensures 0.0 <= SamplePosition(j, total, nmb) < total
  {
    var m := nmb as real;
    var a := j as real * total;
    MulNonNegative(j as real, total);
    MulPositive(m - j as real, total);
    assert (m - j as real) * total == m * total - a;
    DivBelow(a, m, total);
  }

  lemma MulNonNegative(a: real, b: real)
    requires a >= 0.0 && b >= 0.0
    ensures a * b >= 0.0
  {
  }

  lemma MulPositive(a: real, b: real)
    requires a > 0.0 && b > 0.0
    ensures a * b > 0.0
  {
  }

  lemma DivBelow(a: real, m: real, t: real)
    requires m > 0.0 && 0.0 <= a < m * t
    ensures 0.0 <= a / m < t
  {
  }

  lemma PositionMonotone(j: int, total: real, nmb: int)
    requires 0 <= j && nmb > 0 && total >= 0.0
    ensures SamplePosition(j, total, nmb) <= SamplePosition(j + 1, total, nmb)
  {
    var a := j as real * total;
    assert (j + 1) as real * total == a + total;
    DivMonotone(a, a + total, nmb as real);
  }

  lemma DivMul(a: real, m: real, t: real)
    requires m > 0.0 && t > 0.0
    ensures a / (m * t) * t == a / m
  {
  }

  lemma DivMonotone(a: real, b: real, m: real)
    requires m > 0.0 && a <= b
    ensures a / m <= b / m
  {
  }

  /** `clength`: the arc length up to each vertex, closing edge included. */
  method CumulativeLengths(sqrt: real -> real, snake: Contour) returns (clength: seq<real>)
    requires IsSqrt(sqrt)
    ensures |clength| == |snake| + 1
    ensures forall k :: 0 <= k <= |snake| ==> clength[k] == PrefixLength(sqrt, snake, k)
  {
    var n := |snake|;
    clength := [0.0];
    var i := 0;
    while i < n
      invariant 0 <= i <= n && |clength| == i + 1
      invariant forall k :: 0 <= k <= i ==> clength[k] == PrefixLength(sqrt, snake, k)
    {
      var cur := snake[i];
      var next := snake[(i + 1) % n];
      assert (i + 1) % n == Succ(n, i);
      clength := clength + [clength[i] + Dist(sqrt, cur, next)];
      i := i + 1;
    }
  }

  /**
   * The bracket search: from an index whose arc length is at most d, step
   * forward to the edge containing d. It stops before the last vertex
   * because d lies below the perimeter.
   */
  method FindBracket(clength: seq<real>, i0: int, d: real) returns (i: int)
    requires 0 <= i0 < |clength| - 1 && clength[i0] <= d < clength[|clength| - 1]
    ensures i0 <= i < |clength| - 1 && clength[i] <= d < clength[i + 1]
  {
    var n := |clength| - 1;
    i := i0;
    while !(clength[i] <= d && d < clength[i + 1])
      invariant i0 <= i < n && clength[i] <= d
      decreases n - i
    {
      i := i + 1;
    }
  }

  /**
   * A contour whose vertices all coincide (the empty list and a single point
   * included) has perimeter 0 and resamples to the empty list.
   */
  lemma ResampleOfDegenerate(sqrt: real -> real, s: Contour, maxLen: real)
    requires IsSqrt(sqrt) && maxLen != 0.0 && AllSame(s)
    ensures Resample(sqrt, s, maxLen) == []
  {
    PerimeterZeroIff(sqrt, s);
    NoSamplesOfZeroLength(maxLen);
  }

  /** One sample: the bracket search from `i0`, then the blend on the edge found. */
  method NextSample(clength: seq<real>, snake: Contour, i0: int, d: real) returns (i: int, p: Point)
    requires |clength| == |snake| + 1 && 0 <= i0 < |snake| && clength[i0] <= d < clength[|snake|]
    requires NonDecreasing(clength) && clength[0] <= d
    ensures i0 <= i < |snake| && Brackets(clength, i, d)
    ensures p == Sample(clength, snake, d)
  {
    i := FindBracket(clength, i0, d);
    BracketUnique(clength, i, Search(clength, 0, d), d);
    var t := (d - clength[i]) / (clength[i + 1] - clength[i]);
    p := Blend(snake, i, t);
  }

  /**
   * The spline resampling of `snake` at spacing `maxLen`. The bracket
   * search only moves forward and ends on an edge of positive length.
   */
  method CubicInterpolation(sqrt: real -> real, snake: Contour, maxLen: real) returns (tmp: seq<Point>)
    requires IsSqrt(sqrt) && maxLen != 0.0
    ensures tmp == Resample(sqrt, snake, maxLen)
  {
    var n := |snake|;
    var clength := CumulativeLengths(sqrt, snake);
    var total := clength[n];
    var nmb := SampleCount(total, maxLen);
    assert total == Perimeter(sqrt, snake);
    assert clength == Lengths(sqrt, snake);
    ghost var r := Resample(sqrt, snake, maxLen);
    tmp := [];
    if nmb <= 0 {
      return;
    }
    LengthsPositive(sqrt, snake, maxLen);
    LengthsNonDecreasing(sqrt, snake);
    PositionZero(total, nmb);
    var i := 0;
    var j := 0;
    while j < nmb
      invariant 0 <= j <= nmb && 0 <= i < n && clength[i] <= SamplePosition(j, total, nmb)
      invariant tmp == r[..j]
    {
      var d := SamplePosition(j, total, nmb);
      SamplePositionBounds(j, total, nmb);
      var p;
      i, p := NextSample(clength, snake, i, d);
      assert p == r[j];
      tmp := tmp + [p];
      j := j + 1;
    }
  }
}
