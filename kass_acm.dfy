/**
 * The `ACM` class of KASS/ACM.js: the same flow-following snake as
 * ACM/ACM.js, with a threshold-seeded chamfer transform, a fixed gain of
 * 100, fixed re-spacing limits 0.3 and 6 compared against SQUARED edge
 * lengths, and a loop that records every re-spaced snake, empty or not,
 * with no early end and no spline resampling.
 */
module KassAcm {
  import opened Wrappers
  import opened Grids
  import opened Contours
  import opened Chamfer
  import opened Respacing
  import opened Movement
  import opened Runs

  /** The settings this class reads; a missing or 0 entry takes the default. */
  datatype Config = Config(it: Option<int>, threshold: Option<real>)

  /** `this.minlen` and `this.maxlen`. */
  const MinLen: real := 0.3
  const MaxLen: real := 6.0
  /** The factor of `vx * 100` in `loop`. */
  const Gain: real := 100.0

  /** One pass of `loop`: the flow step, then the squared-length re-spacing. */
  function Step(flowX: FlowGrid, flowY: FlowGrid, w: int, h: int, s: Contour): Contour
    requires FlowShape(flowX, flowY, w, h)
  {
    Rebuilt(Squared, MaxLen, MinLen, Moved(s, flowX, flowY, Gain, w, h))
  }

  /** `Step` as a step function for `Runs`. */
  function Stepper(flowX: FlowGrid, flowY: FlowGrid, w: int, h: int): (step: Contour -> Contour)
    requires FlowShape(flowX, flowY, w, h)
  {
    c => Step(flowX, flowY, w, h, c)
  }

  /**
   * What `loop` does in one pass, in the terms of `Runs`: the new snake has at
   * most twice as many vertices, and each is a moved vertex or the midpoint of
   * a moved vertex and one of its neighbours.
   */
  lemma Applied(flowX: FlowGrid, flowY: FlowGrid, w: int, h: int, c: Contour, tmp: Contour)
    requires FlowShape(flowX, flowY, w, h) && tmp == Step(flowX, flowY, w, h, c)
    ensures Stepper(flowX, flowY, w, h)(c) == tmp
    ensures |tmp| <= 2 * |c|
    ensures var moved := Moved(c, flowX, flowY, Gain, w, h);
      forall q :: q in tmp ==> exists j :: 0 <= j < |moved| && FromVertex(moved, j, q)
  {
    var moved := Moved(c, flowX, flowY, Gain, w, h);
    MovedPrefixBound(c, |c|, flowX, flowY, Gain, w, h);
    RebuildBound(Squared, MaxLen, MinLen, moved);
    RebuildOrigin(Squared, MaxLen, MinLen, moved);
  }

  class FlowSnake {
    // Set by the constructor and never reassigned.
    const maxIterations: int
    const w: int
    const h: int
    const flowX: array2<real>
    const flowY: array2<real>
    /** False when inner cells exist but the transform's `max` is 0 (flow values NaN or infinite). */
    const flowDefined: bool
    ghost const distance: array2<int>
    ghost const max: int
    // Updated by every pass of `loop`.
    var snake: Contour
    var contours: seq<Contour>

    /** The flow fields are w x h arrays. */
    ghost predicate Shaped() {
      flowX.Length0 == flowY.Length0 == w && flowX.Length1 == flowY.Length1 == h
    }

    /** The flow fields are the chamfer flow of `distance`. */
    ghost predicate Valid()
      reads flowX, flowY, distance
    {
      Shaped() && distance.Length0 == w && distance.Length1 == h && max >= 0 &&
      (flowDefined <==> (max > 0 || w <= 2 || h <= 2)) &&
      (flowDefined ==> IsFlowOf(flowX, flowY, distance, max))
    }

    /**
     * The constructor: `it || 100` passes, `threshold || 0.1`, and the
     * seeds of the distance transform are the pixels with
     * `data / 255 > threshold`.
     */
    constructor(config: Config, width: nat, height: nat, imageData: Grid, initPoints: Contour)
      requires IsGrid(imageData, height, width)
      ensures Valid() && fresh(flowX) && fresh(flowY)
      ensures maxIterations == OrDefaultInt(config.it, 100)
      ensures w == width && h == height && snake == initPoints && contours == []
      ensures forall x, y :: InGrid(distance, x, y) ==>
        IsDistance(distance[x, y]) &&
        (distance[x, y] == 0 <==> AboveThreshold(imageData[y][x], OrDefault(config.threshold, 0.1)))
    {
      maxIterations := OrDefaultInt(config.it, 100);
      w := width;
      h := height;
      snake := initPoints;
      var threshold := OrDefault(config.threshold, 0.1);
      TablesAreValid();
      var fx, fy, defined, dist, m := ComputeFromThreshold(Some(Chamfer13), imageData, threshold, width, height);
      flowX := fx;
      flowY := fy;
      flowDefined := defined;
      distance := dist;
      max := m;
      contours := [];
    }

    /** The body of one pass: move the snake, then re-space it. */
    method Pass() returns (tmp: Contour)
      requires Shaped()
      ensures tmp == Step(Cells(flowX), Cells(flowY), w, h, snake)
    {
      var newSnake := MoveVertices(snake, flowX, flowY, Gain, w, h);
      tmp := Rebuild(Squared, MaxLen, MinLen, newSnake);
    }

    /**
     * `loop()`: exactly `maxIterations` passes (none when it is not
     * positive); every re-spaced snake is recorded, even an empty one, and
     * fed back, and the result is the whole list of contours.
     */
    method Loop() returns (r: seq<Contour>)
      requires Shaped() && flowDefined
      modifies this`snake, this`contours
      ensures |contours| == |old(contours)| + Iterations(maxIterations) && contours[..|old(contours)|] == old(contours)
      ensures Chain(Stepper(Cells(flowX), Cells(flowY), w, h), old(snake), contours[|old(contours)|..])
      ensures snake == Last(old(snake), contours[|old(contours)|..]) && r == contours
    {
      var k := Iterations(maxIterations);
      ghost var fx, fy := Cells(flowX), Cells(flowY);
      ghost var step := Stepper(fx, fy, w, h);
      ghost var s0 := snake;
      ghost var c0 := contours;
      assert contours[|c0|..] == [];
      var j := 0;
      while j < maxIterations
        invariant 0 <= j <= k && (j < maxIterations ==> j < k)
        invariant Cells(flowX) == fx && Cells(flowY) == fy
        invariant |contours| == |c0| + j && contours[..|c0|] == c0
        invariant Chain(step, s0, contours[|c0|..]) && snake == Last(s0, contours[|c0|..])
      {
        var tmp := Pass();
        Applied(fx, fy, w, h, snake, tmp);
        ChainSnoc(step, s0, contours[|c0|..], tmp);
        assert (contours + [tmp])[|c0|..] == contours[|c0|..] + [tmp];
        contours := contours + [tmp];
        snake := tmp;
        j := j + 1;
      }
      r := contours;
    }
  }
}
