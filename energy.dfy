/**
 * The energy terms of the greedy snake step of KASS/KASS.js and
 * KASS/KASS_test.js (the two files carry identical copies), the square
 * energy windows they are written into, and `normalize`, which divides a
 * window in place by the sum of its absolute values.
 */
module Energy {
  import opened Geometry
  import opened Grids

  /** `Number.MAX_VALUE`, the largest finite double, as an exact real. */
  const MaxValue: real := 179769313486231570814527423731704356798070567525844996598917476803157260780028538760589558632766878171540458953514382464234321326889464182768467546703537516986049910576551282076245490090389328944075868508455133942304583236903222948165808559332123348274797826204144723168738177180919299881250404026184124858368.0

  // ------------------------------------------------------ the four terms

  /** `v * v` (and `v ** 2`). */
  function Square(v: real): real {
    v * v
  }

  /** A square is never negative, and 0 only for 0. */
  lemma SquareZeroIff(v: real)
    ensures Square(v) >= 0.0
    ensures Square(v) == 0.0 <==> v == 0.0
  {
    if v != 0.0 {
      SquarePositive(v);
      calc {
        Square(v);
        == v * v;
        > 0.0;
      }
    } else {
      calc {
        Square(v);
        == 0.0 * 0.0;
        == 0.0;
      }
    }
  }

  /**
   * `f_uniformity(prev, snakelength, p, snakesize)`: the squared deviation of
   * the edge prev-p from the mean edge length of the snake; it is 0 exactly
   * when that edge has the mean length.
   */
  function Uniformity(sqrt: real -> real, prev: Point, snakeLength: real, p: Point, size: int): (r: real)
    requires IsSqrt(sqrt) && size > 0
    ensures r >= 0.0
    ensures r == 0.0 <==> Dist(sqrt, prev, p) == snakeLength / size as real
  {
    var dun := Abs(Dist(sqrt, prev, p) - snakeLength / size as real);
    SquareZeroIff(dun);
    Square(dun)
  }

  /**
   * `f_curvature(prev, p, next)`: with u = p - prev and v = p - next, the
   * squared norm of (u + v) / (|u| |v|), and 0 when p meets a neighbour.
   */
  function Curvature(sqrt: real -> real, prev: Point, p: Point, next: Point): (r: real)
    requires IsSqrt(sqrt)
    ensures r >= 0.0
  {
    var ux, uy := p.x - prev.x, p.y - prev.y;
    var un := sqrt(ux * ux + uy * uy);
    var vx, vy := p.x - next.x, p.y - next.y;
    var vn := sqrt(vx * vx + vy * vy);
    if un == 0.0 || vn == 0.0 then 0.0
    else
      var cx := Over(vx + ux, un, vn);
      var cy := Over(vy + uy, un, vn);
      SquareZeroIff(cx);
      SquareZeroIff(cy);
      Square(cx) + Square(cy)
  }

  /** `Math.sqrt(ux * ux + uy * uy)` is `dist(prev, p)`. */
  lemma NormIsDist(sqrt: real -> real, a: Point, b: Point)
    requires IsSqrt(sqrt)
    ensures sqrt((b.x - a.x) * (b.x - a.x) + (b.y - a.y) * (b.y - a.y)) == Dist(sqrt, a, b)
  {
    var v := (b.x - a.x) * (b.x - a.x) + (b.y - a.y) * (b.y - a.y);
    assert (b.x - a.x) * (b.x - a.x) == (a.x - b.x) * (a.x - b.x);
    assert (b.y - a.y) * (b.y - a.y) == (a.y - b.y) * (a.y - b.y);
    assert v == SqDist(a, b);
  }

  /** The curvature energy in terms of the two edge lengths at p. */
  lemma CurvatureOfDists(sqrt: real -> real, prev: Point, p: Point, next: Point)
    requires IsSqrt(sqrt)
    ensures var un, vn := Dist(sqrt, prev, p), Dist(sqrt, next, p);
      Curvature(sqrt, prev, p, next) ==
        if un == 0.0 || vn == 0.0 then 0.0
        else Square(Over(2.0 * p.x - (prev.x + next.x), un, vn)) + Square(Over(2.0 * p.y - (prev.y + next.y), un, vn))
  {
    NormIsDist(sqrt, prev, p);
    NormIsDist(sqrt, next, p);
    assert (p.x - next.x) + (p.x - prev.x) == 2.0 * p.x - (prev.x + next.x);
    assert (p.y - next.y) + (p.y - prev.y) == 2.0 * p.y - (prev.y + next.y);
  }

  /**
   * The curvature energy vanishes exactly when p coincides with a neighbour
   * or is the midpoint of its two neighbours (the three points are evenly
   * spaced on a line).
   */
  lemma CurvatureZeroIff(sqrt: real -> real, prev: Point, p: Point, next: Point)
    requires IsSqrt(sqrt)
    ensures Curvature(sqrt, prev, p, next) == 0.0 <==>
      p == prev || p == next || (2.0 * p.x == prev.x + next.x && 2.0 * p.y == prev.y + next.y)
  {
    CurvatureOfDists(sqrt, prev, p, next);
    var un, vn := Dist(sqrt, prev, p), Dist(sqrt, next, p);
    DistZeroIff(sqrt, prev, p);
    DistZeroIff(sqrt, next, p);
    if un != 0.0 && vn != 0.0 {
      var nx, ny := 2.0 * p.x - (prev.x + next.x), 2.0 * p.y - (prev.y + next.y);
      SquareZeroIff(Over(nx, un, vn));
      SquareZeroIff(Over(ny, un, vn));
      OverZeroIff(nx, un, vn);
      OverZeroIff(ny, un, vn);
    }
  }

  /** `n / (a * b)`, the normalisation of `f_curvature`. */
  function Over(n: real, a: real, b: real): real
    requires a != 0.0 && b != 0.0
  {
    MulNonZero(a, b);
    n / (a * b)
  }

  lemma MulNonZero(a: real, b: real)
    requires a != 0.0 && b != 0.0
    ensures a * b != 0.0
  {
  }

  lemma OverZeroIff(n: real, a: real, b: real)
    requires a != 0.0 && b != 0.0
    ensures Over(n, a, b) == 0.0 <==> n == 0.0
  {
    MulNonZero(a, b);
    var d := a * b;
    if n / d == 0.0 {
      assert n == (n / d) * d;
    }
  }

  /** The candidate pixel lies in the w x h image. */
  predicate Inside(x: int, y: int, w: int, h: int) {
    0 <= x < w && 0 <= y < h
  }

  /** `f_line(p, binary, w, h)`: the binary image at p, `MAX_VALUE` outside it. */
  function Line(x: int, y: int, binary: Grid, w: nat, h: nat): (r: real)
    requires IsGrid(binary, h, w)
    ensures !Inside(x, y, w, h) ==> r == MaxValue
    ensures Inside(x, y, w, h) ==> r == binary[y][x] as real
  {
    if x < 0 || x >= w || y < 0 || y >= h then MaxValue else binary[y][x] as real
  }

  /**
   * On a 0/1 image the line energy is 0 or 1 inside the image and the
   * sentinel exactly outside it.
   */
  lemma LineOfBinary(x: int, y: int, binary: Grid, w: nat, h: nat)
    requires IsGrid(binary, h, w)
    requires forall i, j :: 0 <= i < h && 0 <= j < w ==> binary[i][j] == 0 || binary[i][j] == 1
    ensures var r := Line(x, y, binary, w, h);
      (r == MaxValue <==> !Inside(x, y, w, h)) &&
      (Inside(x, y, w, h) ==> (r == 0.0 || r == 1.0) && r == binary[y][x] as real)
  {
  }

  /**
   * `f_edge(p, gradientX, gradientY, w, h)`: minus the squared gradient
   * magnitude at p, so never positive inside the image; `MAX_VALUE` outside.
   */
  function Edge(x: int, y: int, gradX: Grid, gradY: Grid, w: nat, h: nat): (r: real)
    requires IsGrid(gradX, h, w) && IsGrid(gradY, h, w)
    ensures r == MaxValue <==> !Inside(x, y, w, h)
    ensures Inside(x, y, w, h) ==> r <= 0.0
    ensures Inside(x, y, w, h) ==> (r == 0.0 <==> gradX[y][x] == 0 && gradY[y][x] == 0)
  {
    if x < 0 || x >= w || y < 0 || y >= h then MaxValue
    else
      var gx, gy := gradX[y][x] as real, gradY[y][x] as real;
      SquareZeroIff(gx);
      SquareZeroIff(gy);
      -(Square(gx) + Square(gy))
  }

  // ------------------------------------------------------ windows

  /** An energy window as a value: `g[i][j]`. */
  type Window = seq<seq<real>>

  /** `init2DArray(k, k)` for an energy window: k x k zeros. */
  method ZeroWindow(k: nat) returns (a: array2<real>)
    ensures fresh(a) && a.Length0 == k && a.Length1 == k
    ensures forall i, j :: 0 <= i < k && 0 <= j < k ==> a[i, j] == 0.0
  {
    a := new real[k, k];
    var i := 0;
    while i < k
      invariant 0 <= i <= k
      invariant forall r, c :: 0 <= r < i && 0 <= c < k ==> a[r, c] == 0.0
    {
      var j := 0;
      while j < k
        invariant 0 <= j <= k
        invariant forall r, c :: 0 <= r < i && 0 <= c < k ==> a[r, c] == 0.0
        invariant forall c :: 0 <= c < j ==> a[i, c] == 0.0
      {
        a[i, j] := 0.0;
        j := j + 1;
      }
      i := i + 1;
    }
  }

  /** The absolute values of row[0 .. j], summed left to right. */
  function RowAbsSum(row: seq<real>, j: nat): (r: real)
    requires j <= |row|
    ensures r >= 0.0
  {
    if j == 0 then 0.0 else RowAbsSum(row, j - 1) + Abs(row[j - 1])
  }

  /** The absolute values of rows 0 .. i-1, summed row by row. */
  function AbsSumUpTo(g: Window, i: nat): (r: real)
    requires i <= |g|
    ensures r >= 0.0
  {
    if i == 0 then 0.0 else AbsSumUpTo(g, i - 1) + RowAbsSum(g[i - 1], |g[i - 1]|)
  }

  /** The `sum` of `normalize`. */
  function AbsSum(g: Window): (r: real)
    ensures r >= 0.0
  {
    AbsSumUpTo(g, |g|)
  }

  /** Every entry divided by s. */
  function Scaled(g: Window, s: real): Window
    requires s != 0.0
  {
    seq(|g|, i requires 0 <= i < |g| => seq(|g[i]|, j requires 0 <= j < |g[i]| => g[i][j] / s))
  }

  /** What `normalize` leaves: the scaled window, or nothing when the sum is 0. */
  datatype Normalized = Normal(window: Window) | Undefined

  function Normalization(g: Window): (r: Normalized)
    ensures r.Undefined? <==> AbsSum(g) == 0.0
    ensures r.Normal? ==> AbsSum(r.window) == 1.0
  {
    var s := AbsSum(g);
    if s == 0.0 then Undefined
    else
      NormalizedSumIsOne(g);
      Normal(Scaled(g, s))
  }

  lemma AbsDiv(a: real, s: real)
    requires s > 0.0
    ensures Abs(a / s) == Abs(a) / s
  {
    if a < 0.0 {
      assert a / s < 0.0;
      assert -(a / s) == (-a) / s;
    } else {
      assert a / s >= 0.0;
    }
  }

  lemma DivAdd(a: real, b: real, s: real)
    requires s != 0.0
    ensures (a + b) / s == a / s + b / s
  {
  }

  lemma {:induction false} RowAbsSumScaled(row: seq<real>, scaled: seq<real>, s: real, j: nat)
    requires s > 0.0 && j <= |row| == |scaled|
    requires forall c :: 0 <= c < |row| ==> scaled[c] == row[c] / s
    ensures RowAbsSum(scaled, j) == RowAbsSum(row, j) / s
  {
    if j > 0 {
      RowAbsSumScaled(row, scaled, s, j - 1);
      AbsDiv(row[j - 1], s);
      DivAdd(RowAbsSum(row, j - 1), Abs(row[j - 1]), s);
    }
  }

  lemma {:induction false} AbsSumUpToScaled(g: Window, s: real, i: nat)
    requires s > 0.0 && i <= |g|
    ensures AbsSumUpTo(Scaled(g, s), i) == AbsSumUpTo(g, i) / s
  {
    if i > 0 {
      AbsSumUpToScaled(g, s, i - 1);
      var r := Scaled(g, s)[i - 1];
      RowAbsSumScaled(g[i - 1], r, s, |r|);
      DivAdd(AbsSumUpTo(g, i - 1), RowAbsSum(g[i - 1], |g[i - 1]|), s);
    }
  }

  /** After `normalize` the absolute values of the window sum to 1. */
  lemma NormalizedSumIsOne(g: Window)
    requires AbsSum(g) != 0.0
    ensures AbsSum(Scaled(g, AbsSum(g))) == 1.0
  {
    AbsSumUpToScaled(g, AbsSum(g), |g|);
  }

  /** Cells that hold 0 do not change a row's sum: only the first m entries count. */
  lemma {:induction false} RowAbsSumZeroTail(row: seq<real>, m: nat, j: nat)
    requires m <= j <= |row|
    requires forall c :: m <= c < |row| ==> row[c] == 0.0
    ensures RowAbsSum(row, j) == RowAbsSum(row, m)
  {
    if j > m {
      RowAbsSumZeroTail(row, m, j - 1);
    }
  }

  /**
   * A k x k window that is 0 outside its top-left m x m corner has the
   * sum of that corner (KASS/KASS_test.js writes only the 4 x 4 corner of
   * its 5 x 5 windows).
   */
  lemma {:induction false} AbsSumUpToCorner(g: Window, m: nat, i: nat)
    requires i <= |g| && forall r :: 0 <= r < |g| ==> m <= |g[r]|
    requires forall r, c :: 0 <= r < |g| && 0 <= c < |g[r]| && (r >= m || c >= m) ==> g[r][c] == 0.0
    ensures AbsSumUpTo(g, i) == AbsSumUpTo(Corner(g, m), if i < m then i else m)
  {
    if i > 0 {
      AbsSumUpToCorner(g, m, i - 1);
      var row := g[i - 1];
      if i <= m {
        RowAbsSumZeroTail(row, m, |row|);
        assert Corner(g, m)[i - 1] == row[..m];
        RowAbsSumPrefix(row, m, m);
      } else {
        RowAbsSumZeroTail(row, 0, |row|);
      }
    }
  }

  lemma {:induction false} RowAbsSumPrefix(row: seq<real>, m: nat, j: nat)
    requires j <= m <= |row|
    ensures RowAbsSum(row[..m], j) == RowAbsSum(row, j)
  {
    if j > 0 {
      RowAbsSumPrefix(row, m, j - 1);
    }
  }

  /** The top-left m x m corner of a window. */
  function Corner(g: Window, m: nat): (r: Window)
    requires forall i :: 0 <= i < |g| ==> m <= |g[i]|
  {
    seq(if |g| < m then |g| else m, i requires 0 <= i < |g| && i < m => g[i][..m])
  }

  lemma AbsSumCorner(g: Window, m: nat)
    requires m <= |g| && forall r :: 0 <= r < |g| ==> m <= |g[r]|
    requires forall r, c :: 0 <= r < |g| && 0 <= c < |g[r]| && (r >= m || c >= m) ==> g[r][c] == 0.0
    ensures AbsSum(g) == AbsSum(Corner(g, m))
  {
    AbsSumUpToCorner(g, m, |g|);
  }

  /**
   * `normalize(kernel)`: one pass sums the absolute values; if the sum is 0
   * nothing changes and the result is `undefined` (`ok` false), otherwise a
   * second pass divides every entry by it in place.
   */
  method Normalize(kernel: array2<real>) returns (ok: bool)
    modifies kernel
    ensures ok <==> Normalization(old(Cells(kernel))).Normal?
    ensures ok ==> Cells(kernel) == Normalization(old(Cells(kernel))).window
    ensures !ok ==> Cells(kernel) == old(Cells(kernel))
  {
    ghost var g := Cells(kernel);
    var sum := 0.0;
    var i := 0;
    while i < kernel.Length0
      invariant 0 <= i <= kernel.Length0
      invariant sum == AbsSumUpTo(g, i)
    {
      var j := 0;
      while j < kernel.Length1
        invariant 0 <= j <= kernel.Length1
        invariant sum == AbsSumUpTo(g, i) + RowAbsSum(g[i], j)
      {
        sum := sum + Abs(kernel[i, j]);
        j := j + 1;
      }
      i := i + 1;
    }
    if sum == 0.0 {
      return false;
    }
    i := 0;
    while i < kernel.Length0
      invariant 0 <= i <= kernel.Length0
      invariant forall a, b :: 0 <= a < kernel.Length0 && 0 <= b < kernel.Length1 ==>
        kernel[a, b] == if a < i then g[a][b] / sum else g[a][b]
    {
      var j := 0;
      while j < kernel.Length1
        invariant 0 <= j <= kernel.Length1
        invariant forall a, b :: 0 <= a < kernel.Length0 && 0 <= b < kernel.Length1 ==>
          kernel[a, b] == if a < i || (a == i && b < j) then g[a][b] / sum else g[a][b]
      {
        kernel[i, j] := kernel[i, j] / sum;
        j := j + 1;
      }
      i := i + 1;
    }
    ok := true;
    forall a | 0 <= a < kernel.Length0
      ensures Cells(kernel)[a] == Scaled(g, sum)[a]
    {
      assert forall b :: 0 <= b < kernel.Length1 ==> Cells(kernel)[a][b] == Scaled(g, sum)[a][b];
    }
    assert Cells(kernel) == Scaled(g, sum);
  }
}
