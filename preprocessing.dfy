/**
 * The image operators of `ACM/preprocessing.js`: binary thresholding, the
 * integer Sobel magnitude and the boundary-handled central difference.
 * Images are row-major integer grids `image[y][x]`.
 */
module Preprocessing {
  import opened Grids

  // ---------------------------------------------------------------- thresholding

  /** One thresholded cell: 1 exactly when `v > threshold` (flipped by `inv`). */
  function Binarize(v: int, threshold: real, inv: bool): (b: int)
    ensures b == 0 || b == 1
    ensures b == 1 <==> ((v as real > threshold) != inv)
  {
    if inv then (if v as real > threshold then 0 else 1)
    else (if v as real > threshold then 1 else 0)
  }

  /** The inverted threshold is the complement of the plain one. */
  lemma InvertedIsComplement(v: int, threshold: real)
    ensures Binarize(v, threshold, true) == 1 - Binarize(v, threshold, false)
  {
  }

  /** Raising the threshold never turns a background cell into foreground. */
  lemma ThresholdAntitone(v: int, t1: real, t2: real)
    requires t1 <= t2
    ensures Binarize(v, t2, false) <= Binarize(v, t1, false)
  {
  }

  /** `thresholding(threshold, w, h, image, inv)`. */
  method Thresholding(threshold: real, w: nat, h: nat, image: Grid, inv: bool) returns (binary: Grid)
    requires IsGrid(image, h, w)
    ensures IsGrid(binary, h, w)
    ensures forall y, x :: 0 <= y < h && 0 <= x < w ==> binary[y][x] == Binarize(image[y][x], threshold, inv)
  {
    binary := Init2DArray(h, w);
    var y := 0;
    while y < h
      invariant 0 <= y <= h && IsGrid(binary, h, w)
      invariant forall a, b :: 0 <= a < y && 0 <= b < w ==> binary[a][b] == Binarize(image[a][b], threshold, inv)
    {
      var x := 0;
      while x < w
        invariant 0 <= x <= w && IsGrid(binary, h, w)
        invariant forall a, b :: 0 <= a < y && 0 <= b < w ==> binary[a][b] == Binarize(image[a][b], threshold, inv)
        invariant forall b :: 0 <= b < x ==> binary[y][b] == Binarize(image[y][b], threshold, inv)
      {
        var cell: int;
        if inv {
          cell := if image[y][x] as real > threshold then 0 else 1;
        } else {
          cell := if image[y][x] as real > threshold then 1 else 0;
        }
        binary := binary[y := binary[y][x := cell]];
        x := x + 1;
      }
      y := y + 1;
    }
  }

  // ---------------------------------------------------------------- integer square root

  /** `Math.floor(Math.sqrt(n))` for a non-negative integer `n`. */
  function Isqrt(n: nat): (r: nat)
    ensures r * r <= n < (r + 1) * (r + 1)
  {
    if n < 4 then (if n == 0 then 0 else 1)
    else
      var s := 2 * Isqrt(n / 4);
      IsqrtStep(n, s / 2);
      if (s + 1) * (s + 1) <= n then s + 1 else s
  }

  lemma IsqrtStep(n: nat, t: nat)
    requires t * t <= n / 4 < (t + 1) * (t + 1)
    ensures (2 * t) * (2 * t) <= n < (2 * t + 2) * (2 * t + 2)
  {
    assert (2 * t) * (2 * t) == 4 * (t * t);
    assert (2 * t + 2) * (2 * t + 2) == 4 * ((t + 1) * (t + 1));
  }

  /** The bracket `r*r <= n < (r+1)*(r+1)` determines the root. */
  lemma IsqrtUnique(n: nat, r: nat)
    requires r * r <= n < (r + 1) * (r + 1)
    ensures Isqrt(n) == r
  {
    var q := Isqrt(n);
    if q < r {
      MulMonotone(q + 1, r);
    } else if r < q {
      MulMonotone(r + 1, q);
    }
  }

  lemma MulMonotone(a: nat, b: nat)
    requires a <= b
    ensures a * a <= b * b
  {
  }

  // ---------------------------------------------------------------- Sobel

  /** `d` has a full 3 x 3 neighbourhood whose top-left corner is (y, x). */
  ghost predicate HasWindow(d: Grid, y: int, x: int) {
    0 <= y && 0 <= x && y + 2 < |d| &&
    x + 2 < |d[y]| && x + 2 < |d[y + 1]| && x + 2 < |d[y + 2]|
  }

  /** The horizontal Sobel response of the window at (y, x). */
  function SobelX(d: Grid, y: int, x: int): int
    requires HasWindow(d, y, x)
  {
    (d[y][x + 2] + 2 * d[y + 1][x + 2] + d[y + 2][x + 2]) - (d[y][x] + 2 * d[y + 1][x] + d[y + 2][x])
  }

  /**
   * The vertical response as the source writes it: the top row contributes
   * `p00 + 2*p10 + p10`, so `p20` never enters and `p10` counts three times.
   */
  function SobelY(d: Grid, y: int, x: int): int
    requires HasWindow(d, y, x)
  {
    (d[y + 2][x] + 2 * d[y + 2][x + 1] + d[y + 2][x + 2]) - (d[y][x] + 2 * d[y][x + 1] + d[y][x + 1])
  }

  /** The Sobel magnitude of the window at (y, x), an integer square root. */
  function SobelAt(d: Grid, y: int, x: int): (r: nat)
    requires HasWindow(d, y, x)
    ensures var sx, sy := SobelX(d, y, x), SobelY(d, y, x);
      r * r <= sx * sx + sy * sy < (r + 1) * (r + 1)
  {
    var sx, sy := SobelX(d, y, x), SobelY(d, y, x);
    Isqrt(sx * sx + sy * sy)
  }

  /** `Sobel(data, w, h)`: magnitudes on the inner cells, zero on the outer ring. */
  method Sobel(data: Grid, w: nat, h: nat) returns (channelGradient: Grid)
    requires IsGrid(data, h, w)
    ensures IsGrid(channelGradient, h, w)
    ensures forall y, x :: 0 <= y < h && 0 <= x < w ==>
      channelGradient[y][x] == (if 1 <= y < h - 1 && 1 <= x < w - 1 then SobelAt(data, y - 1, x - 1) else 0)
  {
    channelGradient := Init2DArray(h, w);
    var y := 0;
    while y < h - 2
      invariant 0 <= y <= if h < 2 then 0 else h - 2
      invariant IsGrid(channelGradient, h, w)
      invariant forall a, b :: 0 <= a < h && 0 <= b < w ==>
        channelGradient[a][b] == (if 1 <= a <= y && 1 <= b < w - 1 then SobelAt(data, a - 1, b - 1) else 0)
    {
      var x := 0;
      while x < w - 2
        invariant 0 <= x <= if w < 2 then 0 else w - 2
        invariant IsGrid(channelGradient, h, w)
        invariant forall a, b :: 0 <= a < h && 0 <= b < w ==>
          channelGradient[a][b] == (if (1 <= a <= y && 1 <= b < w - 1) || (a == y + 1 && 1 <= b <= x)
                                    then SobelAt(data, a - 1, b - 1) else 0)
      {
        var p00 := data[y][x];
        var p10 := data[y][x + 1];
        var p20 := data[y][x + 2];
        var p01 := data[y + 1][x];
        var p21 := data[y + 1][x + 2];
        var p02 := data[y + 2][x];
        var p12 := data[y + 2][x + 1];
        var p22 := data[y + 2][x + 2];
        var sx := (p20 + 2 * p21 + p22) - (p00 + 2 * p01 + p02);
        var sy := (p02 + 2 * p12 + p22) - (p00 + 2 * p10 + p10);
        var snorm := Isqrt(sx * sx + sy * sy);
        channelGradient := channelGradient[y + 1 := channelGradient[y + 1][x + 1 := snorm]];
        x := x + 1;
      }
      y := y + 1;
    }
  }

  /** A constant image has zero Sobel magnitude everywhere. */
  lemma SobelOfConstant(d: Grid, c: int, y: int, x: int)
    requires HasWindow(d, y, x)
    requires forall i, j :: 0 <= i < |d| && 0 <= j < |d[i]| ==> d[i][j] == c
    ensures SobelAt(d, y, x) == 0
  {
    assert SobelX(d, y, x) == 0 && SobelY(d, y, x) == 0;
    IsqrtUnique(0, 0);
  }

  /** Adding a constant to every sample leaves the magnitude unchanged. */
  lemma SobelShiftInvariant(d: Grid, e: Grid, c: int, y: int, x: int)
    requires HasWindow(d, y, x) && HasWindow(e, y, x)
    requires forall i, j :: y <= i < y + 3 && x <= j < x + 3 ==> e[i][j] == d[i][j] + c
    ensures SobelAt(e, y, x) == SobelAt(d, y, x)
  {
    assert SobelX(e, y, x) == SobelX(d, y, x) by {
      assert e[y][x] == d[y][x] + c && e[y + 1][x] == d[y + 1][x] + c && e[y + 2][x] == d[y + 2][x] + c;
      assert e[y][x + 2] == d[y][x + 2] + c && e[y + 1][x + 2] == d[y + 1][x + 2] + c;
      assert e[y + 2][x + 2] == d[y + 2][x + 2] + c;
    }
    assert SobelY(e, y, x) == SobelY(d, y, x) by {
      assert e[y][x] == d[y][x] + c && e[y][x + 1] == d[y][x + 1] + c;
      assert e[y + 2][x] == d[y + 2][x] + c && e[y + 2][x + 1] == d[y + 2][x + 1] + c;
      assert e[y + 2][x + 2] == d[y + 2][x + 2] + c;
    }
  }

  /** Negating the image leaves the magnitude unchanged. */
  lemma SobelNegationInvariant(d: Grid, e: Grid, y: int, x: int)
    requires HasWindow(d, y, x) && HasWindow(e, y, x)
    requires forall i, j :: y <= i < y + 3 && x <= j < x + 3 ==> e[i][j] == -d[i][j]
    ensures SobelAt(e, y, x) == SobelAt(d, y, x)
  {
    assert SobelX(e, y, x) == -SobelX(d, y, x) by {
      assert e[y][x] == -d[y][x] && e[y + 1][x] == -d[y + 1][x] && e[y + 2][x] == -d[y + 2][x];
      assert e[y][x + 2] == -d[y][x + 2] && e[y + 1][x + 2] == -d[y + 1][x + 2];
      assert e[y + 2][x + 2] == -d[y + 2][x + 2];
    }
    assert SobelY(e, y, x) == -SobelY(d, y, x) by {
      assert e[y][x] == -d[y][x] && e[y][x + 1] == -d[y][x + 1];
      assert e[y + 2][x] == -d[y + 2][x] && e[y + 2][x + 1] == -d[y + 2][x + 1];
      assert e[y + 2][x + 2] == -d[y + 2][x + 2];
    }
    var sx, sy := SobelX(d, y, x), SobelY(d, y, x);
    assert (-sx) * (-sx) == sx * sx;
    assert (-sy) * (-sy) == sy * sy;
  }

  /**
   * Because the top-right sample never enters `sy`, the magnitude is not
   * symmetric under transposing the image: a single bright top-right sample
   * gives 10, the same sample bottom-left gives 14.
   */
  lemma SobelNotTransposeSymmetric()
    ensures var d := [[0, 0, 10], [0, 0, 0], [0, 0, 0]];
      var t := [[0, 0, 0], [0, 0, 0], [10, 0, 0]];
      HasWindow(d, 0, 0) && HasWindow(t, 0, 0) && SobelAt(d, 0, 0) == 10 && SobelAt(t, 0, 0) == 14
  {
    var d := [[0, 0, 10], [0, 0, 0], [0, 0, 0]];
    var t := [[0, 0, 0], [0, 0, 0], [10, 0, 0]];
    assert SobelX(d, 0, 0) == 10 && SobelY(d, 0, 0) == 0;
    assert SobelX(t, 0, 0) == -10 && SobelY(t, 0, 0) == 10;
    IsqrtUnique(100, 10);
    IsqrtUnique(200, 14);
  }

  // ---------------------------------------------------------------- countGradient

  /**
   * The vertical difference at row `i`: one-sided on the first row, central
   * inside, and 0 on the last row (whose two stacked rows are both row h-2).
   */
  function GradYAt(d: Grid, i: int, j: int): int
    requires 2 <= |d| && 0 <= i < |d| && forall r :: 0 <= r < |d| ==> 0 <= j < |d[r]|
  {
    if i == 0 then d[1][j] - d[0][j]
    else if i == |d| - 1 then 0
    else
      var below, above := d[i + 1], d[i - 1];
      assert j < |below| && j < |above|;
      below[j] - above[j]
  }

  /** The horizontal difference at column `j`, handled like `GradYAt`. */
  function GradXAt(d: Grid, i: int, j: int): int
    requires 0 <= i < |d| && 2 <= |d[i]| && 0 <= j < |d[i]|
  {
    if j == 0 then d[i][1] - d[i][0]
    else if j == |d[i]| - 1 then 0
    else d[i][j + 1] - d[i][j - 1]
  }

  /**
   * `countGradient(data, w, h)`: `[gradX, gradY]`. The outputs are allocated
   * w x h while the stacks have h rows of w samples, so only square grids
   * index within range.
   */
  method CountGradient(data: Grid, w: nat, h: nat) returns (gradX: Grid, gradY: Grid)
    requires IsGrid(data, h, w) && w == h && 2 <= h
    ensures IsGrid(gradX, w, h) && IsGrid(gradY, w, h)
    ensures forall i, j :: 0 <= i < w && 0 <= j < h ==>
      gradX[i][j] == GradXAt(data, i, j) && gradY[i][j] == GradYAt(data, i, j)
  {
    gradX := Init2DArray(w, h);
    gradY := Init2DArray(w, h);
    var n := |data|;
    var vstack1 := data[1..] + data[n - 2..n - 1];
    var vstack2 := data[..1] + data[..n - 1];
    assert forall i :: 0 <= i < n ==> vstack1[i] == (if i < n - 1 then data[i + 1] else data[n - 2]);
    assert forall i :: 0 <= i < n ==> vstack2[i] == (if i == 0 then data[0] else data[i - 1]);
    gradY := Subtract(gradY, vstack1, vstack2, w, h);
    forall i, j | 0 <= i < w && 0 <= j < h
      ensures gradY[i][j] == GradYAt(data, i, j)
    {
      assert gradY[i][j] == vstack1[i][j] - vstack2[i][j];
    }
    var hstack1 := ShiftLeft(data, w);
    var hstack2 := ShiftRight(data, w);
    gradX := Subtract(gradX, hstack1, hstack2, w, h);
  }

  /** Every row without its first sample, padded with its second-to-last one. */
  method ShiftLeft(data: Grid, w: nat) returns (stack: Grid)
    requires IsGrid(data, |data|, w) && 2 <= w
    ensures IsGrid(stack, |data|, w)
    ensures forall a, b :: 0 <= a < |data| && 0 <= b < w ==>
      stack[a][b] == (if b < w - 1 then data[a][b + 1] else data[a][w - 2])
  {
    stack := [];
    var r := 0;
    while r < |data|
      invariant 0 <= r <= |data| && IsGrid(stack, r, w)
      invariant forall a, b :: 0 <= a < r && 0 <= b < w ==>
        stack[a][b] == (if b < w - 1 then data[a][b + 1] else data[a][w - 2])
    {
      var rows := data[r];
      var sl := rows[1..];
      sl := sl + [rows[|rows| - 2]];
      stack := stack + [sl];
      r := r + 1;
    }
  }

  /** Every row without its last sample, preceded by its first one. */
  method ShiftRight(data: Grid, w: nat) returns (stack: Grid)
    requires IsGrid(data, |data|, w) && 2 <= w
    ensures IsGrid(stack, |data|, w)
    ensures forall a, b :: 0 <= a < |data| && 0 <= b < w ==>
      stack[a][b] == (if b == 0 then data[a][0] else data[a][b - 1])
  {
    stack := [];
    var r := 0;
    while r < |data|
      invariant 0 <= r <= |data| && IsGrid(stack, r, w)
      invariant forall a, b :: 0 <= a < r && 0 <= b < w ==>
        stack[a][b] == (if b == 0 then data[a][0] else data[a][b - 1])
    {
      var rows := data[r];
      var sl := rows[..|rows| - 1];
      sl := [rows[0]] + sl;
      stack := stack + [sl];
      r := r + 1;
    }
  }

  /**
   * The nested loops of `countGradient` that write `s1[i][j] - s2[i][j]`
   * into every cell of the w x h grid g0.
   */
  method Subtract(g0: Grid, s1: Grid, s2: Grid, w: nat, h: nat) returns (g: Grid)
    requires IsGrid(g0, w, h) && w <= |s1| && w <= |s2|
    requires forall i :: 0 <= i < w ==> h <= |s1[i]| && h <= |s2[i]|
    ensures IsGrid(g, w, h)
    ensures forall a, b :: 0 <= a < w && 0 <= b < h ==> g[a][b] == s1[a][b] - s2[a][b]
  {
    g := g0;
    var i := 0;
    while i < |g|
      invariant 0 <= i <= w && IsGrid(g, w, h)
      invariant forall a, b :: 0 <= a < i && 0 <= b < h ==> g[a][b] == s1[a][b] - s2[a][b]
    {
      var j := 0;
      while j < |g[i]|
        invariant 0 <= j <= h && IsGrid(g, w, h)
        invariant forall a, b :: 0 <= a < i && 0 <= b < h ==> g[a][b] == s1[a][b] - s2[a][b]
        invariant forall b :: 0 <= b < j ==> g[i][b] == s1[i][b] - s2[i][b]
      {
        g := g[i := g[i][j := s1[i][j] - s2[i][j]]];
        j := j + 1;
      }
      i := i + 1;
    }
  }

  /** Both gradients of a constant image vanish. */
  lemma GradientOfConstant(d: Grid, c: int, i: int, j: int)
    requires 2 <= |d| && 0 <= i < |d| && forall r :: 0 <= r < |d| ==> 2 <= |d[r]| && 0 <= j < |d[r]|
    requires forall a, b :: 0 <= a < |d| && 0 <= b < |d[a]| ==> d[a][b] == c
    ensures GradXAt(d, i, j) == 0 && GradYAt(d, i, j) == 0
  {
  }

  /**
   * On a vertical ramp `d[i][j] == a*i + b` the vertical gradient is the
   * slope on the first row, twice the slope inside and 0 on the last row.
   */
  lemma GradYOfRamp(d: Grid, a: int, b: int, i: int, j: int)
    requires 2 <= |d| && 0 <= i < |d| && 0 <= j
    requires forall r :: 0 <= r < |d| ==> j < |d[r]| && d[r][j] == a * r + b
    ensures GradYAt(d, i, j) == (if i == 0 then a else if i == |d| - 1 then 0 else 2 * a)
  {
    if 0 < i < |d| - 1 {
      assert d[i + 1][j] == a * (i + 1) + b && d[i - 1][j] == a * (i - 1) + b;
    } else if i == 0 {
      assert d[1][j] == a * 1 + b && d[0][j] == a * 0 + b;
    }
  }
}
