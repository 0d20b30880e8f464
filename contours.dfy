/**
 * Closed contours (snakes) as sequences of points, and `getSnakelength`,
 * the perimeter of the closed polygon through them.
 */
module Contours {
  import opened Geometry

  type Contour = seq<Point>

  /** The cyclic successor index of `i`, `(i + 1) % n`. */
  function Succ(n: nat, i: nat): (r: nat)
    requires i < n
    ensures r == (i + 1) % n
  {
    SuccMod(n, i);
    if i + 1 < n then i + 1 else 0
  }

  /** `(i + 1) % n` wraps only at the last index. */
  lemma SuccMod(n: nat, i: nat)
    requires i < n
    ensures (i + 1) % n == if i + 1 < n then i + 1 else 0
  {
    if i + 1 == n {
      assert (i + 1) % n == n % n == 0;
    }
  }

  /** Length of edge `i`, from vertex i to its cyclic successor. */
  function EdgeLength(sqrt: real -> real, s: Contour, i: nat): (r: real)
    requires IsSqrt(sqrt) && i < |s|
    ensures r >= 0.0
  {
    Dist(sqrt, s[i], s[Succ(|s|, i)])
  }

  /** The summed length of edges lo .. hi-1. */
  function EdgeSum(sqrt: real -> real, s: Contour, lo: nat, hi: nat): (r: real)
    requires IsSqrt(sqrt) && lo <= hi <= |s|
    ensures r >= 0.0
    decreases hi - lo
  {
    if lo == hi then 0.0 else EdgeSum(sqrt, s, lo, hi - 1) + EdgeLength(sqrt, s, hi - 1)
  }

  /** The arc length from vertex 0 to vertex i (`clength[i]`). */
  function PrefixLength(sqrt: real -> real, s: Contour, i: nat): real
    requires IsSqrt(sqrt) && i <= |s|
  {
    EdgeSum(sqrt, s, 0, i)
  }

  /** The perimeter of the closed polygon (with the closing edge). */
  function Perimeter(sqrt: real -> real, s: Contour): real
    requires IsSqrt(sqrt)
  {
    PrefixLength(sqrt, s, |s|)
  }

  /** `getSnakelength(snake)`: the cyclic sum of edge lengths. */
  method GetSnakeLength(sqrt: real -> real, snake: Contour) returns (length: real)
    requires IsSqrt(sqrt)
    ensures length == Perimeter(sqrt, snake)
    ensures length >= 0.0
  {
    length := 0.0;
    var i := 0;
    while i < |snake|
      invariant 0 <= i <= |snake|
      invariant length == PrefixLength(sqrt, snake, i)
    {
      var cur := snake[i];
      var next := snake[(i + 1) % |snake|];
      assert (i + 1) % |snake| == Succ(|snake|, i);
      length := length + Dist(sqrt, cur, next);
      i := i + 1;
    }
  }

  /** Arc lengths never decrease along the contour. */
  lemma {:induction false} PrefixLengthMonotone(sqrt: real -> real, s: Contour, i: nat, j: nat)
    requires IsSqrt(sqrt) && i <= j <= |s|
    ensures PrefixLength(sqrt, s, i) <= PrefixLength(sqrt, s, j)
    decreases j - i
  {
    if i < j {
      PrefixLengthMonotone(sqrt, s, i, j - 1);
    }
  }

  /** Splitting off the first edge of a range. */
  lemma {:induction false} EdgeSumSplitFirst(sqrt: real -> real, s: Contour, lo: nat, hi: nat)
    requires IsSqrt(sqrt) && lo < hi <= |s|
    ensures EdgeSum(sqrt, s, lo, hi) == EdgeLength(sqrt, s, lo) + EdgeSum(sqrt, s, lo + 1, hi)
    decreases hi - lo
  {
    if lo + 1 < hi {
      EdgeSumSplitFirst(sqrt, s, lo, hi - 1);
    }
  }

  /** Edges 0 .. k-1 of the rotated contour are edges 1 .. k of the original. */
  lemma {:induction false} RotatedEdgeSum(sqrt: real -> real, s: Contour, k: nat)
    requires IsSqrt(sqrt) && 0 < |s| && k < |s|
    ensures EdgeSum(sqrt, s[1..] + [s[0]], 0, k) == EdgeSum(sqrt, s, 1, k + 1)
  {
    var r := s[1..] + [s[0]];
    var n := |s|;
    if k > 0 {
      RotatedEdgeSum(sqrt, s, k - 1);
      assert r[k - 1] == s[k];
      assert r[Succ(n, k - 1)] == s[Succ(n, k)] by {
        if k < n - 1 {
          assert Succ(n, k - 1) == k && Succ(n, k) == k + 1;
        } else {
          assert Succ(n, k - 1) == n - 1 && Succ(n, k) == 0;
        }
      }
    }
  }

  /** The perimeter does not depend on which vertex the contour starts at. */
  lemma PerimeterRotationInvariant(sqrt: real -> real, s: Contour)
    requires IsSqrt(sqrt) && 0 < |s|
    ensures Perimeter(sqrt, s[1..] + [s[0]]) == Perimeter(sqrt, s)
  {
    var r := s[1..] + [s[0]];
    var n := |s|;
    RotatedEdgeSum(sqrt, s, n - 1);
    assert r[n - 1] == s[0] && r[Succ(n, n - 1)] == s[Succ(n, 0)] by {
      if n > 1 {
        assert Succ(n, 0) == 1 && Succ(n, n - 1) == 0;
      }
    }
    assert EdgeLength(sqrt, r, n - 1) == EdgeLength(sqrt, s, 0);
    EdgeSumSplitFirst(sqrt, s, 0, n);
  }

  /** Every vertex of `s` is the same point. */
  predicate AllSame(s: Contour) {
    forall i :: 0 <= i < |s| ==> s[i] == s[0]
  }

  /** A sum of edges is 0 exactly when each of those edges has length 0. */
  lemma {:induction false} EdgeSumZero(sqrt: real -> real, s: Contour, hi: nat)
    requires IsSqrt(sqrt) && hi <= |s|
    ensures EdgeSum(sqrt, s, 0, hi) == 0.0 <==> forall i :: 0 <= i < hi ==> EdgeLength(sqrt, s, i) == 0.0
  {
    if hi > 0 {
      EdgeSumZero(sqrt, s, hi - 1);
    }
  }

  /**
   * The perimeter is 0 exactly for the empty contour and for contours
   * whose points all coincide; this is the collapse test of the loops.
   */
  lemma PerimeterZeroIff(sqrt: real -> real, s: Contour)
    requires IsSqrt(sqrt)
    ensures Perimeter(sqrt, s) == 0.0 <==> AllSame(s)
  {
    var n := |s|;
    EdgeSumZero(sqrt, s, n);
    if Perimeter(sqrt, s) == 0.0 {
      forall i | 0 <= i < n
        ensures s[i] == s[0]
      {
        ChainEqual(sqrt, s, i);
      }
    } else if AllSame(s) {
      forall i | 0 <= i < n
        ensures EdgeLength(sqrt, s, i) == 0.0
      {
        DistZeroIff(sqrt, s[i], s[Succ(n, i)]);
      }
    }
  }

  lemma {:induction false} ChainEqual(sqrt: real -> real, s: Contour, i: nat)
    requires IsSqrt(sqrt) && i < |s|
    requires forall k :: 0 <= k < |s| ==> EdgeLength(sqrt, s, k) == 0.0
    ensures s[i] == s[0]
  {
    if i > 0 {
      ChainEqual(sqrt, s, i - 1);
      assert EdgeLength(sqrt, s, i - 1) == 0.0;
      assert Succ(|s|, i - 1) == i;
      DistZeroIff(sqrt, s[i - 1], s[i]);
    }
  }
}
