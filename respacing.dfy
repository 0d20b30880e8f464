/**
 * The keep / drop / split re-spacing of a snake (`rebuild` in ACM/ACM.js and
 * the loop body of KASS/ACM.js). Each vertex is judged by the sum of its
 * incoming and outgoing edge measures: at most `minLen` it is dropped, below
 * `maxLen` it is kept, otherwise it is replaced by the midpoints of its two
 * edges. The two classes measure edges differently: ACM/ACM.js with the
 * Euclidean `dist`, KASS/ACM.js with the squared distance `distance`.
 */
module Respacing {
  import opened Geometry
  import opened Contours

  /** How an edge is measured. */
  datatype Metric = Euclidean(sqrt: real -> real) | Squared

  ghost predicate ValidMetric(m: Metric) {
    m.Euclidean? ==> IsSqrt(m.sqrt)
  }

  /** The measure of edge a-b under `m`. */
  function Measure(m: Metric, a: Point, b: Point): (r: real)
    requires ValidMetric(m)
    ensures 0.0 <= r
  {
    match m
    case Euclidean(sqrt) => Dist(sqrt, a, b)
    case Squared => SqDist(a, b)
  }

  /** The squared measure is the square of the Euclidean one. */
  lemma SquaredIsDistSquared(sqrt: real -> real, a: Point, b: Point)
    requires IsSqrt(sqrt)
    ensures Measure(Squared, a, b) == Measure(Euclidean(sqrt), a, b) * Measure(Euclidean(sqrt), a, b)
  {
    DistSquared(sqrt, a, b);
  }

  /** `lerp(t, a, b)`. */
  function Lerp(t: real, a: real, b: real): real {
    a + t * (b - a)
  }

  /** Lerp runs from a at t = 0 to b at t = 1, with the mean halfway. */
  lemma LerpProperties(a: real, b: real)
    ensures Lerp(0.0, a, b) == a && Lerp(1.0, a, b) == b
    ensures Lerp(0.5, a, b) == (a + b) / 2.0
  {
  }

  /** The split point of edge a-b: `[lerp(.5, a[0], b[0]), lerp(.5, a[1], b[1])]`. */
  function Midpoint(a: Point, b: Point): Point {
    Point(Lerp(0.5, a.x, b.x), Lerp(0.5, a.y, b.y))
  }

  /** The index before i, cyclically: `i - 1 < 0 ? n - 1 : i - 1`. */
  function Pred(n: nat, i: nat): (r: nat)
    requires i < n
    ensures r < n && Succ(n, r) == i
  {
    if i == 0 then n - 1 else i - 1
  }

  /** The incoming plus the outgoing measure of vertex i. */
  function Spread(m: Metric, s: Contour, i: nat): (r: real)
    requires ValidMetric(m) && i < |s|
    ensures 0.0 <= r
  {
    var n := |s|;
    Measure(m, s[Pred(n, i)], s[i]) + Measure(m, s[i], s[Succ(n, i)])
  }

  /** What vertex i contributes to the re-spaced contour. */
  function Respaced(m: Metric, maxLen: real, minLen: real, s: Contour, i: nat): (r: seq<Point>)
    requires ValidMetric(m) && i < |s|
    ensures |r| <= 2
  {
    var n := |s|;
    var prev := s[Pred(n, i)];
    var cur := s[i];
    var next := s[Succ(n, i)];
    var d := Spread(m, s, i);
    if d > minLen then
      if d < maxLen then [cur] else [Midpoint(prev, cur), Midpoint(cur, next)]
    else []
  }

  /** The contributions of vertices 0 .. k-1, in order. */
  function RebuildPrefix(m: Metric, maxLen: real, minLen: real, s: Contour, k: nat): seq<Point>
    requires ValidMetric(m) && k <= |s|
  {
    if k == 0 then [] else RebuildPrefix(m, maxLen, minLen, s, k - 1) + Respaced(m, maxLen, minLen, s, k - 1)
  }

  /** The re-spaced contour. */
  function Rebuilt(m: Metric, maxLen: real, minLen: real, s: Contour): seq<Point>
    requires ValidMetric(m)
  {
    RebuildPrefix(m, maxLen, minLen, s, |s|)
  }

  /** The loop of `rebuild`: one vertex at a time, pushing into a fresh list. */
  method Rebuild(m: Metric, maxLen: real, minLen: real, snake: Contour) returns (tmp: seq<Point>)
    requires ValidMetric(m)
    ensures tmp == Rebuilt(m, maxLen, minLen, snake)
  {
    tmp := [];
    var i := 0;
    while i < |snake|
      invariant 0 <= i <= |snake| && tmp == RebuildPrefix(m, maxLen, minLen, snake, i)
    {
      var pushed := RespaceVertex(m, maxLen, minLen, snake, i);
      tmp := tmp + pushed;
      i := i + 1;
    }
  }

  /** The body of the loop of `rebuild` for vertex i: what it pushes. */
  method RespaceVertex(m: Metric, maxLen: real, minLen: real, snake: Contour, i: nat) returns (pushed: seq<Point>)
    requires ValidMetric(m) && i < |snake|
    ensures pushed == Respaced(m, maxLen, minLen, snake, i)
  {
    var n := |snake|;
    var prev := snake[if i - 1 < 0 then n - 1 else i - 1];
    var cur := snake[i];
    var next := snake[(i + 1) % n];
    assert (i + 1) % n == Succ(n, i);
    var distance := Measure(m, prev, cur) + Measure(m, cur, next);
    if distance > minLen {
      if distance < maxLen {
        pushed := [cur];
      } else {
        var pp := Point(Lerp(0.5, prev.x, cur.x), Lerp(0.5, prev.y, cur.y));
        var np := Point(Lerp(0.5, cur.x, next.x), Lerp(0.5, cur.y, next.y));
        pushed := [pp, np];
      }
    } else {
      pushed := [];
    }
  }

  /** Re-spacing at most doubles the number of vertices. */
  lemma {:induction false} RebuildPrefixBound(m: Metric, maxLen: real, minLen: real, s: Contour, k: nat)
    requires ValidMetric(m) && k <= |s|
    ensures |RebuildPrefix(m, maxLen, minLen, s, k)| <= 2 * k
  {
    if k > 0 {
      RebuildPrefixBound(m, maxLen, minLen, s, k - 1);
    }
  }

  lemma RebuildBound(m: Metric, maxLen: real, minLen: real, s: Contour)
    requires ValidMetric(m)
    ensures |Rebuilt(m, maxLen, minLen, s)| <= 2 * |s|
  {
    RebuildPrefixBound(m, maxLen, minLen, s, |s|);
  }

  /** `p` is vertex i of `s` or the midpoint of one of the two edges at i. */
  predicate FromVertex(s: Contour, i: nat, p: Point)
    requires i < |s|
  {
    var n := |s|;
    p == s[i] || p == Midpoint(s[Pred(n, i)], s[i]) || p == Midpoint(s[i], s[Succ(n, i)])
  }

  /** Every re-spaced point is an input vertex or the midpoint of two cyclically adjacent ones. */
  lemma {:induction false} RebuildPrefixOrigin(m: Metric, maxLen: real, minLen: real, s: Contour, k: nat)
    requires ValidMetric(m) && k <= |s|
    ensures forall q :: q in RebuildPrefix(m, maxLen, minLen, s, k) ==>
      exists i :: 0 <= i < k && FromVertex(s, i, q)
  {
    if k > 0 {
      RebuildPrefixOrigin(m, maxLen, minLen, s, k - 1);
      var r := Respaced(m, maxLen, minLen, s, k - 1);
      assert forall t :: 0 <= t < |r| ==> FromVertex(s, k - 1, r[t]);
    }
  }

  lemma RebuildOrigin(m: Metric, maxLen: real, minLen: real, s: Contour)
    requires ValidMetric(m)
    ensures forall q :: q in Rebuilt(m, maxLen, minLen, s) ==>
      exists i :: 0 <= i < |s| && FromVertex(s, i, q)
  {
    RebuildPrefixOrigin(m, maxLen, minLen, s, |s|);
  }

  /** A vertex strictly between the two limits is kept as it is. */
  lemma RespacedKeeps(m: Metric, maxLen: real, minLen: real, s: Contour, i: nat)
    requires ValidMetric(m) && i < |s| && minLen < Spread(m, s, i) < maxLen
    ensures Respaced(m, maxLen, minLen, s, i) == [s[i]]
  {
  }

  /** A vertex at most `minLen` is dropped. */
  lemma RespacedDrops(m: Metric, maxLen: real, minLen: real, s: Contour, i: nat)
    requires ValidMetric(m) && i < |s| && Spread(m, s, i) <= minLen
    ensures Respaced(m, maxLen, minLen, s, i) == []
  {
  }

  /** A contour whose every vertex lies strictly between the two limits comes back unchanged. */
  lemma {:induction false} RebuildPrefixKeeps(m: Metric, maxLen: real, minLen: real, s: Contour, k: nat)
    requires ValidMetric(m) && k <= |s|
    requires forall i :: 0 <= i < |s| ==> minLen < Spread(m, s, i) < maxLen
    ensures RebuildPrefix(m, maxLen, minLen, s, k) == s[..k]
  {
    if k > 0 {
      RebuildPrefixKeeps(m, maxLen, minLen, s, k - 1);
      RespacedKeeps(m, maxLen, minLen, s, k - 1);
      assert s[..k] == s[..k - 1] + [s[k - 1]];
    }
  }

  lemma RebuildKeeps(m: Metric, maxLen: real, minLen: real, s: Contour)
    requires ValidMetric(m)
    requires forall i :: 0 <= i < |s| ==> minLen < Spread(m, s, i) < maxLen
    ensures Rebuilt(m, maxLen, minLen, s) == s
  {
    RebuildPrefixKeeps(m, maxLen, minLen, s, |s|);
  }

  /** A contour whose every vertex is at most `minLen` vanishes. */
  lemma {:induction false} RebuildPrefixDrops(m: Metric, maxLen: real, minLen: real, s: Contour, k: nat)
    requires ValidMetric(m) && k <= |s|
    requires forall i :: 0 <= i < |s| ==> Spread(m, s, i) <= minLen
    ensures RebuildPrefix(m, maxLen, minLen, s, k) == []
  {
    if k > 0 {
      RebuildPrefixDrops(m, maxLen, minLen, s, k - 1);
      RespacedDrops(m, maxLen, minLen, s, k - 1);
    }
  }

  lemma RebuildDrops(m: Metric, maxLen: real, minLen: real, s: Contour)
    requires ValidMetric(m)
    requires forall i :: 0 <= i < |s| ==> Spread(m, s, i) <= minLen
    ensures Rebuilt(m, maxLen, minLen, s) == []
  {
    RebuildPrefixDrops(m, maxLen, minLen, s, |s|);
  }

  /** A vertex above `minLen` and at least `maxLen` is replaced by the midpoints of its two edges. */
  lemma RespacedSplits(m: Metric, maxLen: real, minLen: real, s: Contour, i: nat)
    requires ValidMetric(m) && i < |s| && minLen < Spread(m, s, i) && maxLen <= Spread(m, s, i)
    ensures Respaced(m, maxLen, minLen, s, i) == [Midpoint(s[Pred(|s|, i)], s[i]), Midpoint(s[i], s[Succ(|s|, i)])]
  {
  }

  /** The midpoints of the edges into and out of vertex i. */
  function Halves(s: Contour, i: nat): seq<Point>
    requires i < |s|
  {
    [Midpoint(s[Pred(|s|, i)], s[i]), Midpoint(s[i], s[Succ(|s|, i)])]
  }

  /** Entries 2i and 2i+1 of `r` are the two halves of vertex i, for i < k. */
  ghost predicate SplitPairs(s: Contour, r: seq<Point>, k: nat)
    requires k <= |s|
  {
    |r| == 2 * k && forall i :: 0 <= i < k ==> r[2 * i] == Halves(s, i)[0] && r[2 * i + 1] == Halves(s, i)[1]
  }

  /** Appending the halves of vertex k extends the pairs of the first k vertices. */
  lemma SplitPairsSnoc(s: Contour, front: seq<Point>, k: nat)
    requires k < |s| && SplitPairs(s, front, k)
    ensures SplitPairs(s, front + Halves(s, k), k + 1)
  {
    var r := front + Halves(s, k);
    forall i | 0 <= i < k + 1
      ensures r[2 * i] == Halves(s, i)[0] && r[2 * i + 1] == Halves(s, i)[1]
    {
      if i < k {
        assert r[2 * i] == front[2 * i] && r[2 * i + 1] == front[2 * i + 1];
      } else {
        assert r[2 * i] == Halves(s, k)[0] && r[2 * i + 1] == Halves(s, k)[1];
      }
    }
  }

  /** The contour with each of the vertices 0 .. k-1 replaced by its two halves. */
  function Doubled(s: Contour, k: nat): seq<Point>
    requires k <= |s|
  {
    if k == 0 then [] else Doubled(s, k - 1) + Halves(s, k - 1)
  }

  /** `Doubled` puts the two halves of vertex i at entries 2i and 2i+1. */
  lemma {:induction false} DoubledPairs(s: Contour, k: nat)
    requires k <= |s|
    ensures SplitPairs(s, Doubled(s, k), k)
  {
    if k > 0 {
      DoubledPairs(s, k - 1);
      SplitPairsSnoc(s, Doubled(s, k - 1), k - 1);
    }
  }

  /** The doubled contour, entry by entry. */
  lemma DoubledEntries(s: Contour)
    ensures var r := Doubled(s, |s|);
      |r| == 2 * |s| &&
      forall i :: 0 <= i < |s| ==>
        r[2 * i] == Midpoint(s[Pred(|s|, i)], s[i]) && r[2 * i + 1] == Midpoint(s[i], s[Succ(|s|, i)])
  {
    DoubledPairs(s, |s|);
    var r := Doubled(s, |s|);
    forall i | 0 <= i < |s|
      ensures r[2 * i] == Midpoint(s[Pred(|s|, i)], s[i]) && r[2 * i + 1] == Midpoint(s[i], s[Succ(|s|, i)])
    {
      assert r[2 * i] == Halves(s, i)[0] && r[2 * i + 1] == Halves(s, i)[1];
    }
  }

  /** A contour whose every vertex is split doubles, each vertex giving the midpoints of its two edges. */
  lemma {:induction false} RebuildPrefixSplits(m: Metric, maxLen: real, minLen: real, s: Contour, k: nat)
    requires ValidMetric(m) && k <= |s|
    requires forall i :: 0 <= i < |s| ==> minLen < Spread(m, s, i) && maxLen <= Spread(m, s, i)
    ensures RebuildPrefix(m, maxLen, minLen, s, k) == Doubled(s, k)
  {
    if k > 0 {
      RebuildPrefixSplits(m, maxLen, minLen, s, k - 1);
      RespacedSplits(m, maxLen, minLen, s, k - 1);
    }
  }

  lemma RebuildSplits(m: Metric, maxLen: real, minLen: real, s: Contour)
    requires ValidMetric(m)
    requires forall i :: 0 <= i < |s| ==> minLen < Spread(m, s, i) && maxLen <= Spread(m, s, i)
    ensures var r := Rebuilt(m, maxLen, minLen, s);
      |r| == 2 * |s| &&
      forall i :: 0 <= i < |s| ==>
        r[2 * i] == Midpoint(s[Pred(|s|, i)], s[i]) && r[2 * i + 1] == Midpoint(s[i], s[Succ(|s|, i)])
  {
    RebuildPrefixSplits(m, maxLen, minLen, s, |s|);
    DoubledEntries(s);
  }

  /** A single vertex is its own neighbour on both sides, so with minLen >= 0 it is dropped. */
  lemma RebuildSingleton(m: Metric, maxLen: real, minLen: real, p: Point)
    requires ValidMetric(m) && 0.0 <= minLen
    ensures Rebuilt(m, maxLen, minLen, [p]) == []
  {
    var s := [p];
    assert Spread(m, s, 0) == Measure(m, p, p) + Measure(m, p, p);
    MeasureOfSame(m, p);
    RebuildDrops(m, maxLen, minLen, s);
  }

  lemma MeasureOfSame(m: Metric, p: Point)
    requires ValidMetric(m)
    ensures Measure(m, p, p) == 0.0
  {
    if m.Euclidean? {
      DistZeroIff(m.sqrt, p, p);
    }
  }
}
