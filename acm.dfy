/**
 * The flow-following snake of ACM/ACM.js. The constructor turns the image
 * into a flow field (Sobel edge map, threshold, chamfer distance with the
 * `chamfer13` kernel); every pass of `loop` moves the snake along the flow,
 * re-spaces it with Euclidean edge lengths, and records its spline
 * resampling at spacing 1. A rebuilt snake of length 0 ends the loop with
 * no result.
 */
module Acm {
  import opened Wrappers
  import opened Geometry
  import opened Grids
  import opened Contours
  import opened Preprocessing
  import opened Chamfer
  import opened Resampling
  import opened Respacing
  import opened Movement
  import opened Runs

  /** The settings object; a missing or 0 entry takes the default. */
  datatype Config = Config(it: Option<int>, minLen: Option<real>, maxLen: Option<real>,
                           threshold: Option<real>, gamma: Option<real>)

  /** The settings of one snake, after the defaults are applied. */
  datatype Params = Params(minLen: real, maxLen: real, gamma: real, w: int, h: int)

  /** One pass of `loop`: the flow step, then the Euclidean re-spacing. */
  function Step(sqrt: real -> real, p: Params, flowX: FlowGrid, flowY: FlowGrid, s: Contour): Contour
    requires IsSqrt(sqrt) && FlowShape(flowX, flowY, p.w, p.h)
  {
    Rebuilt(Euclidean(sqrt), p.maxLen, p.minLen, Moved(s, flowX, flowY, p.gamma, p.w, p.h))
  }

  /** `Step` as a step function for `Runs`. */
  function Stepper(sqrt: real -> real, p: Params, flowX: FlowGrid, flowY: FlowGrid): (step: Contour -> Contour)
    requires IsSqrt(sqrt) && FlowShape(flowX, flowY, p.w, p.h)
  {
    c => Step(sqrt, p, flowX, flowY, c)
  }

  /**
   * The end test of `loop`, `getSnakelength(tmp) == 0`, as a test for `Runs`:
   * a snake has length 0 exactly when all its vertices coincide.
   */
  function Collapsed(): (stop: Contour -> bool) {
    c => AllSame(c)
  }

  /** What `Pass` computes, in the terms of `Runs`. */
  lemma Applied(sqrt: real -> real, p: Params, flowX: FlowGrid, flowY: FlowGrid, c: Contour, tmp: Contour, length: real)
    requires IsSqrt(sqrt) && FlowShape(flowX, flowY, p.w, p.h)
    requires tmp == Step(sqrt, p, flowX, flowY, c) && length == Perimeter(sqrt, tmp)
    ensures Stepper(sqrt, p, flowX, flowY)(c) == tmp && (Collapsed()(tmp) <==> length == 0.0)
  {
    PerimeterZeroIff(sqrt, tmp);
  }

  /** The recorded contours: each kept snake resampled at spacing 1. */
  function ResampleAll(sqrt: real -> real, ss: seq<Contour>): (r: seq<Contour>)
    requires IsSqrt(sqrt)
    ensures |r| == |ss| && forall i :: 0 <= i < |ss| ==> r[i] == Resample(sqrt, ss[i], 1.0)
  {
    seq(|ss|, i requires 0 <= i < |ss| => Resample(sqrt, ss[i], 1.0))
  }

  lemma ResampleAllAppend(sqrt: real -> real, a: seq<Contour>, b: seq<Contour>)
    requires IsSqrt(sqrt)
    ensures ResampleAll(sqrt, a + b) == ResampleAll(sqrt, a) + ResampleAll(sqrt, b)
  {
  }

  class FlowSnake {
    // Set by the constructor and never reassigned.
    const maxIterations: int
    const minLen: real
    const maxLen: real
    const w: int
    const h: int
    const gamma: real
    const flowX: array2<real>
    const flowY: array2<real>
    /** False when inner cells exist but the transform's `max` is 0 (flow values NaN or infinite). */
    const flowDefined: bool
    ghost const distance: array2<int>
    ghost const max: int
    // Updated by every pass of `loop`.
    var snake: Contour
    var contours: seq<Contour>

    /** The flow fields are w x h arrays. */
    ghost predicate Shaped() {
      flowX.Length0 == flowY.Length0 == w && flowX.Length1 == flowY.Length1 == h
    }

    /** The flow fields are the chamfer flow of `distance`. */
    ghost predicate Valid()
      reads flowX, flowY, distance
    {
      Shaped() && distance.Length0 == w && distance.Length1 == h && max >= 0 &&
      (flowDefined <==> (max > 0 || w <= 2 || h <= 2)) &&
      (flowDefined ==> IsFlowOf(flowX, flowY, distance, max))
    }

    function Settings(): Params {
      Params(minLen, maxLen, gamma, w, h)
    }

    /**
     * The constructor: defaults for falsy settings, then the seeds of the
     * distance transform are the cells whose Sobel magnitude exceeds the
     * threshold.
     */
    constructor(config: Config, width: nat, height: nat, imageData: Grid, initPoints: Contour)
      requires IsGrid(imageData, height, width)
      ensures Valid() && fresh(flowX) && fresh(flowY)
      ensures maxIterations == OrDefaultInt(config.it, 100)
      ensures minLen == OrDefault(config.minLen, 0.5) && maxLen == OrDefault(config.maxLen, 2.0)
      ensures gamma == OrDefault(config.gamma, 100.0)
      ensures w == width && h == height && snake == initPoints && contours == []
      ensures forall x, y :: InGrid(distance, x, y) ==>
        IsDistance(distance[x, y]) &&
        (distance[x, y] == 0 <==>
           Binarize(if 1 <= y < height - 1 && 1 <= x < width - 1 then SobelAt(imageData, y - 1, x - 1) else 0,
                    OrDefault(config.threshold, 50.0), false) == 1)
    {
      maxIterations := OrDefaultInt(config.it, 100);
      minLen := OrDefault(config.minLen, 0.5);
      maxLen := OrDefault(config.maxLen, 2.0);
      w := width;
      h := height;
      snake := initPoints;
      var threshold := OrDefault(config.threshold, 50.0);
      gamma := OrDefault(config.gamma, 100.0);
      var edgeMap := Sobel(imageData, width, height);
      var binaryImage := Thresholding(threshold, width, height, edgeMap, false);
      TablesAreValid();
      var fx, fy, defined, dist, m := ComputeFromMask(Some(Chamfer13), binaryImage, width, height);
      flowX := fx;
      flowY := fy;
      flowDefined := defined;
      distance := dist;
      max := m;
      contours := [];
    }

    /** The body of one pass: move the snake, re-space it, measure the result. */
    method Pass(sqrt: real -> real) returns (tmp: Contour, length: real)
      requires Shaped() && IsSqrt(sqrt)
      ensures tmp == Step(sqrt, Settings(), Cells(flowX), Cells(flowY), snake)
      ensures length == Perimeter(sqrt, tmp)
    {
      var newSnake := MoveVertices(snake, flowX, flowY, gamma, w, h);
      tmp := Rebuild(Euclidean(sqrt), maxLen, minLen, newSnake);
      length := GetSnakeLength(sqrt, tmp);
    }

    /** A kept pass: record the resampled snake and continue from it. */
    method Record(sqrt: real -> real, tmp: Contour)
      requires IsSqrt(sqrt)
      modifies this`snake, this`contours
      ensures contours == old(contours) + [Resample(sqrt, tmp, 1.0)] && snake == tmp
    {
      var rec := CubicInterpolation(sqrt, tmp, 1.0);
      contours := contours + [rec];
      snake := tmp;
    }

    /**
     * The state of `loop` after the passes that kept `done`, with `left` of
     * the k passes from s0 to go: the run from s0 is `done` followed by the
     * run from the current snake, and the contours hold `done` resampled.
     */
    ghost predicate Progress(sqrt: real -> real, step: Contour -> Contour, stop: Contour -> bool,
                             s0: Contour, c0: seq<Contour>, k: nat, done: seq<Contour>, left: nat)
      reads this
    {
      IsSqrt(sqrt) &&
      Trace(step, stop, s0, k) == Prepend(done, Trace(step, stop, snake, left)) &&
      contours == c0 + ResampleAll(sqrt, done) && snake == Last(s0, done)
    }

    /**
     * One pass of `loop`, after the passes that kept `done`: either the new
     * snake is kept (and recorded) or the run ends with no result.
     */
    method Iteration(sqrt: real -> real, ghost step: Contour -> Contour, ghost stop: Contour -> bool,
                     ghost s0: Contour, ghost c0: seq<Contour>, ghost k: nat, ghost done: seq<Contour>, ghost left: nat)
      returns (kept: bool)
      requires Shaped() && IsSqrt(sqrt) && 0 < left
      requires step == Stepper(sqrt, Settings(), Cells(flowX), Cells(flowY)) && stop == Collapsed()
      requires Progress(sqrt, step, stop, s0, c0, k, done, left)
      modifies this`snake, this`contours
      ensures kept ==> Progress(sqrt, step, stop, s0, c0, k, done + [snake], left - 1)
      ensures !kept ==> Trace(step, stop, s0, k) == Outcome(done, true) &&
                        contours == old(contours) && snake == old(snake)
    {
      var tmp, length := Pass(sqrt);
      Applied(sqrt, Settings(), Cells(flowX), Cells(flowY), snake, tmp, length);
      Advance(step, stop, s0, k, done, snake, left, tmp);
      kept := length != 0.0;
      if kept {
        Record(sqrt, tmp);
        ResampleAllAppend(sqrt, done, [tmp]);
      }
    }

    /**
     * `loop()`: up to `maxIterations` passes. It returns the recorded
     * contours, or nothing once a rebuilt snake has length 0; the contours
     * recorded before that stay in the field.
     */
    method Loop(sqrt: real -> real) returns (r: Option<seq<Contour>>)
      requires Shaped() && flowDefined && IsSqrt(sqrt)
      modifies this`snake, this`contours
      ensures var o := Trace(Stepper(sqrt, Settings(), Cells(flowX), Cells(flowY)), Collapsed(), old(snake),
                             Iterations(maxIterations));
        contours == old(contours) + ResampleAll(sqrt, o.snakes) &&
        snake == (if o.snakes == [] then old(snake) else o.snakes[|o.snakes| - 1]) &&
        r == (if o.collapsed then None else Some(contours))
    {
      var k := Iterations(maxIterations);
      ghost var step := Stepper(sqrt, Settings(), Cells(flowX), Cells(flowY));
      ghost var stop := Collapsed();
      ghost var s0 := snake;
      ghost var c0 := contours;
      ghost var done: seq<Contour> := [];
      ghost var left := k;
      var j := 0;
      PrependNothing(Trace(step, stop, s0, k));
      while j < maxIterations
        invariant 0 <= j <= k && (j < maxIterations ==> j < k) && left == k - j
        invariant step == Stepper(sqrt, Settings(), Cells(flowX), Cells(flowY))
        invariant Progress(sqrt, step, stop, s0, c0, k, done, left)
      {
        var kept := Iteration(sqrt, step, stop, s0, c0, k, done, left);
        if !kept {
          r := None;
          return;
        }
        done := done + [snake];
        left := left - 1;
        j := j + 1;
      }
      assert Trace(step, stop, snake, left) == Outcome([], false) && done + [] == done;
      r := Some(contours);
    }
  }
}
