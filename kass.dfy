/**
 * `computeKASS` of KASS/KASS.js: the settings with their falsy defaults,
 * the preprocessing of the grey image (a binary image by `thresholding` and
 * the two gradient fields by `countGradient`), then the greedy passes of
 * `Greedy` with 4 x 4 windows, `rebuild(newSnake, 4)` and the non-zero
 * length acceptance rule.
 */
module Kass {
  import opened Wrappers
  import opened Geometry
  import opened Grids
  import opened Contours
  import opened Preprocessing
  import opened Movement
  import opened Resampling
  import opened Greedy

  /** The keys of `configValues` that `computeKASS` reads. */
  datatype Config = Config(alpha: Option<real>, beta: Option<real>, gamma: Option<real>, delta: Option<real>,
                           threshold: Option<real>, it: Option<int>)

  /**
   * The constants of KASS/KASS.js: a 4 x 4 window with hks = 2, so 16
   * candidates whose cells all lie inside the window; no weight is 0 and
   * `maxDist` is 4.
   */
  function Settings(c: Config): (p: Params)
    ensures p.kernelSize == 4 && Half(p) == 2 && Span(p) == p.kernelSize
    ensures p.maxDist == 4.0 && p.acceptance == NonZeroLength
    ensures p.alpha != 0.0 && p.beta != 0.0 && p.wLine != 0.0 && p.wEdge != 0.0 && p.it != 0
    ensures p.wLine == OrDefault(c.gamma, 0.5) && p.wEdge == OrDefault(c.delta, 0.5)
  {
    Params(4, OrDefault(c.alpha, 2.0), OrDefault(c.beta, 0.5), OrDefault(c.gamma, 0.5), OrDefault(c.delta, 0.5),
           4.0, OrDefaultInt(c.it, 100), NonZeroLength)
  }

  /** `threshold = configValues.threshold || 120`. */
  function Threshold(c: Config): real {
    OrDefault(c.threshold, 120.0)
  }

  /**
   * The images the passes read: `thresholding(threshold, width, height,
   * image)` with `inv` unset, and `countGradient(image, width, height)`.
   */
  function Prepared(image: Grid, w: nat, h: nat, threshold: real): (im: Images)
    requires IsGrid(image, h, w) && w == h && 2 <= h
    ensures ImagesShaped(im) && im.w == w && im.h == h
    ensures forall y, x :: 0 <= y < h && 0 <= x < w ==>
      (im.binary[y][x] == 1 <==> image[y][x] as real > threshold) && (im.binary[y][x] == 0 || im.binary[y][x] == 1)
    ensures forall y, x :: 0 <= y < h && 0 <= x < w ==>
      im.gradX[y][x] == GradXAt(image, y, x) && im.gradY[y][x] == GradYAt(image, y, x)
  {
    var binary := seq(h, y requires 0 <= y < h => seq(w, x requires 0 <= x < w => Binarize(image[y][x], threshold, false)));
    var gradX := seq(w, i requires 0 <= i < w => seq(h, j requires 0 <= j < h => GradXAt(image, i, j)));
    var gradY := seq(w, i requires 0 <= i < w => seq(h, j requires 0 <= j < h => GradYAt(image, i, j)));
    Images(binary, gradX, gradY, w, h)
  }

  /** Two grids of the same shape that agree cell by cell are equal. */
  lemma GridsEqual(a: Grid, b: Grid, rows: nat, columns: nat)
    requires IsGrid(a, rows, columns) && IsGrid(b, rows, columns)
    requires forall i, j :: 0 <= i < rows && 0 <= j < columns ==> a[i][j] == b[i][j]
    ensures a == b
  {
    forall i | 0 <= i < rows
      ensures a[i] == b[i]
    {
      assert forall j :: 0 <= j < columns ==> a[i][j] == b[i][j];
    }
  }

  /**
   * `computeKASS(image, width, height, initPoints, configValues)`: the
   * contours recorded over `it` passes, or nothing when a pass throws.
   */
  method ComputeKass(sqrt: real -> real, image: Grid, width: nat, height: nat, initPoints: Contour, config: Config)
    returns (contours: Option<seq<Contour>>)
    requires IsSqrt(sqrt) && IsGrid(image, height, width) && width == height && 2 <= height
    ensures var p := Settings(config);
      contours == Run(sqrt, p, Prepared(image, width, height, Threshold(config)), initPoints, Iterations(p.it))
  {
    var p := Settings(config);
    var threshold := OrDefault(config.threshold, 120.0);
    var gradientX, gradientY := CountGradient(image, width, height);
    var binaryImage := Thresholding(threshold, width, height, image, false);
    var im := Images(binaryImage, gradientX, gradientY, width, height);
    ghost var spec := Prepared(image, width, height, threshold);
    GridsEqual(im.binary, spec.binary, height, width);
    GridsEqual(im.gradX, spec.gradX, width, height);
    GridsEqual(im.gradY, spec.gradY, width, height);
    contours := Compute(sqrt, p, im, initPoints);
  }

  /**
   * What `computeKASS` returns: at most `it` contours, each made of integer
   * points and of non-zero length.
   */
  lemma KassContours(sqrt: real -> real, image: Grid, width: nat, height: nat, initPoints: Contour, config: Config)
    requires IsSqrt(sqrt) && IsGrid(image, height, width) && width == height && 2 <= height
    ensures var p := Settings(config);
      var r := Run(sqrt, p, Prepared(image, width, height, Threshold(config)), initPoints, Iterations(p.it));
      r.Some? ==> (|r.value| <= Iterations(p.it) &&
        forall j :: 0 <= j < |r.value| ==>
          Perimeter(sqrt, r.value[j]) != 0.0 && forall t :: 0 <= t < |r.value[j]| ==> Integral(r.value[j][t]))
  {
    var p := Settings(config);
    var im := Prepared(image, width, height, Threshold(config));
    RunContours(sqrt, p, im, initPoints, Iterations(p.it));
  }
}
