/**
 * `computeKASS` of KASS/KASS_test.js: the same greedy passes with 5 x 5
 * windows, of which only the top-left 4 x 4 block is ever written, the
 * weights and the `rebuild` spacing read from differently named keys, and
 * the length-change acceptance rule. The binary image and the gradient
 * fields are inputs here.
 */
module KassTest {
  import opened Wrappers
  import opened Geometry
  import opened Grids
  import opened Contours
  import opened Energy
  import opened Movement
  import opened Resampling
  import opened Greedy

  /** The keys of `configValues` that this variant reads. */
  datatype Config = Config(alpha: Option<real>, beta: Option<real>, gamma: Option<real>, delta: Option<real>,
                           threshold: Option<real>, it: Option<int>)

  /**
   * The constants of KASS/KASS_test.js: a 5 x 5 window with hks = 2, so the
   * 16 candidates fill only rows and columns 0 .. 3; the line weight comes
   * from `delta`, the edge weight from `gamma` (the other way round from
   * KASS/KASS.js), and `maxDist` from `threshold`.
   */
  function Settings(c: Config): (p: Params)
    ensures p.kernelSize == 5 && Half(p) == 2 && Span(p) == p.kernelSize - 1
    ensures p.acceptance == LengthChange && p.maxDist != 0.0
    ensures p.alpha != 0.0 && p.beta != 0.0 && p.wLine != 0.0 && p.wEdge != 0.0 && p.it != 0
    ensures p.wLine == OrDefault(c.delta, 1.0) && p.wEdge == OrDefault(c.gamma, 1.0)
    ensures p.maxDist == OrDefault(c.threshold, 6.0)
  {
    Params(5, OrDefault(c.alpha, 1.0), OrDefault(c.beta, 0.2), OrDefault(c.delta, 1.0), OrDefault(c.gamma, 1.0),
           OrDefault(c.threshold, 6.0), OrDefaultInt(c.it, 100), LengthChange)
  }

  /**
   * `computeKASS(type, image, width, height, initPoints, configValues)`
   * once the binary image and gradients are prepared.
   */
  method ComputeKassTest(sqrt: real -> real, im: Images, initPoints: Contour, config: Config)
    returns (contours: Option<seq<Contour>>)
    requires IsSqrt(sqrt) && ImagesShaped(im)
    ensures var p := Settings(config); contours == Run(sqrt, p, im, initPoints, Iterations(p.it))
  {
    var p := Settings(config);
    contours := Compute(sqrt, p, im, initPoints);
  }

  /**
   * The unwritten fifth row and column of every window stay 0, so each
   * window normalises exactly as its 4 x 4 block of candidates would.
   */
  lemma FifthRowAndColumn(sqrt: real -> real, config: Config, im: Images, v: Site, t: Term)
    requires IsSqrt(sqrt) && ImagesShaped(im) && v.size > 0
    ensures var p := Settings(config); var g := RawWindow(sqrt, t, v, im, p);
      (forall i :: 0 <= i < 5 ==> g[4][i] == 0.0 && g[i][4] == 0.0) &&
      AbsSum(g) == AbsSum(Corner(g, 4))
  {
    var p := Settings(config);
    RawWindowSum(sqrt, t, v, im, p);
  }

  /** What this variant returns: at most `it` contours, each made of integer points. */
  lemma KassTestContours(sqrt: real -> real, im: Images, initPoints: Contour, config: Config)
    requires IsSqrt(sqrt) && ImagesShaped(im)
    ensures var p := Settings(config);
      var r := Run(sqrt, p, im, initPoints, Iterations(p.it));
      r.Some? ==> (|r.value| <= Iterations(p.it) &&
        forall j :: 0 <= j < |r.value| ==> forall t :: 0 <= t < |r.value[j]| ==> Integral(r.value[j][t]))
  {
    var p := Settings(config);
    RunContours(sqrt, p, im, initPoints, Iterations(p.it));
  }
}
