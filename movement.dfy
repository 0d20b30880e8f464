/**
 * One flow-following step of the snake, shared by both `ACM` classes
 * (ACM/ACM.js and KASS/ACM.js): vertices on or beyond the grid border are
 * removed, every other vertex moves by `2 * (0.5 - flow) * gain` along each
 * axis, reading the flow field at its truncated coordinates. The falsy
 * defaults of the configuration objects are modelled here as well.
 */
module Movement {
  import opened Wrappers
  import opened Geometry
  import opened Grids
  import opened Contours

  // ------------------------------------------------------ configuration

  /** `v || d` for a numeric setting: a missing value or 0 falls back to d. */
  function OrDefault(v: Option<real>, d: real): (r: real)
    ensures r == d || (v.Some? && r == v.value)
    ensures r == d <==> v.None? || v.value == 0.0 || v.value == d
  {
    if v.Some? && v.value != 0.0 then v.value else d
  }

  /** `v || d` for an integer setting. */
  function OrDefaultInt(v: Option<int>, d: int): (r: int)
    ensures r == d || (v.Some? && r == v.value)
    ensures r == d <==> v.None? || v.value == 0 || v.value == d
  {
    if v.Some? && v.value != 0 then v.value else d
  }

  /** The number of passes of `for (j = 0; j < it; j++)`. */
  function Iterations(it: int): (k: nat)
    ensures k as int == it || (it <= 0 && k == 0)
  {
    if it > 0 then it else 0
  }

  // ------------------------------------------------------ one step

  /** `~~v`: truncation toward zero (for values inside the 32-bit range). */
  function Trunc(v: real): (r: int)
    ensures v >= 0.0 ==> r == v.Floor
    ensures v < 0.0 ==> r == -((-v).Floor)
  {
    if v >= 0.0 then v.Floor else -((-v).Floor)
  }

  /** The vertex survives the step: `!(p.x <= 0 || p.x >= w - 1 || p.y <= 0 || p.y >= h - 1)`. */
  predicate Interior(p: Point, w: int, h: int) {
    0.0 < p.x < (w - 1) as real && 0.0 < p.y < (h - 1) as real
  }

  /** A surviving vertex reads the flow at a cell in [0, w-2] x [0, h-2]. */
  lemma InteriorCell(p: Point, w: int, h: int)
    requires Interior(p, w, h)
    ensures 0 <= Trunc(p.x) <= w - 2 && 0 <= Trunc(p.y) <= h - 2
    ensures Trunc(p.x) == p.x.Floor && Trunc(p.y) == p.y.Floor
  {
  }

  /** The displacement along one axis: `(0.5 - flow) * 2` times the gain. */
  function Shift(flow: real, gain: real): real {
    (0.5 - flow) * 2.0 * gain
  }

  /** A flow of 0.5 gives no displacement; a flow in [0, 1] at most `gain` either way. */
  lemma ShiftBounds(flow: real, gain: real)
    requires 0.0 <= flow <= 1.0 && 0.0 <= gain
    ensures flow == 0.5 ==> Shift(flow, gain) == 0.0
    ensures -gain <= Shift(flow, gain) <= gain
  {
    var a := 0.5 - flow;
    assert Shift(flow, gain) == (2.0 * a) * gain;
    if a >= 0.0 {
      assert (2.0 * a) * gain <= 1.0 * gain;
    } else {
      assert (-2.0 * a) * gain <= 1.0 * gain;
    }
  }

  /** The moved vertex: `p + 2 * (0.5 - flow) * gain` on each axis. */
  function Displace(p: Point, fx: real, fy: real, gain: real): Point {
    Point(p.x + Shift(fx, gain), p.y + Shift(fy, gain))
  }

  /** A flow of 0.5 leaves the vertex in place; flows in [0, 1] move it at most `gain` per axis. */
  lemma DisplaceBounds(p: Point, fx: real, fy: real, gain: real)
    requires 0.0 <= fx <= 1.0 && 0.0 <= fy <= 1.0 && 0.0 <= gain
    ensures fx == 0.5 && fy == 0.5 ==> Displace(p, fx, fy, gain) == p
    ensures var q := Displace(p, fx, fy, gain);
      Abs(q.x - p.x) <= gain && Abs(q.y - p.y) <= gain
  {
    ShiftBounds(fx, gain);
    ShiftBounds(fy, gain);
  }

  /** A flow field as a value: `f[x][y]`, with w columns of h cells. */
  type FlowGrid = seq<seq<real>>

  /** The flow fields are w x h grids indexed [x, y]. */
  ghost predicate FlowShape(flowX: FlowGrid, flowY: FlowGrid, w: int, h: int) {
    w >= 0 && h >= 0 && IsGrid(flowX, w, h) && IsGrid(flowY, w, h)
  }

  /** What vertex p becomes: nothing on the border, else its displaced copy. */
  function MoveOne(p: Point, flowX: FlowGrid, flowY: FlowGrid, gain: real, w: int, h: int): (r: seq<Point>)
    requires FlowShape(flowX, flowY, w, h)
    ensures |r| <= 1
  {
    if Interior(p, w, h) then
      InteriorCell(p, w, h);
      var i, j := Trunc(p.x), Trunc(p.y);
      [Displace(p, flowX[i][j], flowY[i][j], gain)]
    else []
  }

  /** The moved images of the first k vertices, in order. */
  function MovedPrefix(s: Contour, k: nat, flowX: FlowGrid, flowY: FlowGrid, gain: real, w: int, h: int): seq<Point>
    requires k <= |s| && FlowShape(flowX, flowY, w, h)
  {
    if k == 0 then [] else MovedPrefix(s, k - 1, flowX, flowY, gain, w, h) + MoveOne(s[k - 1], flowX, flowY, gain, w, h)
  }

  /** `newSnake`: the snake after one flow step. */
  function Moved(s: Contour, flowX: FlowGrid, flowY: FlowGrid, gain: real, w: int, h: int): seq<Point>
    requires FlowShape(flowX, flowY, w, h)
  {
    MovedPrefix(s, |s|, flowX, flowY, gain, w, h)
  }

  /** The `forEach` that builds `newSnake`, reading the flow arrays. */
  method MoveVertices(snake: Contour, flowX: array2<real>, flowY: array2<real>, gain: real, w: int, h: int)
    returns (newSnake: Contour)
    requires flowX.Length0 == flowY.Length0 == w && flowX.Length1 == flowY.Length1 == h
    ensures newSnake == Moved(snake, Cells(flowX), Cells(flowY), gain, w, h)
  {
    ghost var fx, fy := Cells(flowX), Cells(flowY);
    newSnake := [];
    var k := 0;
    while k < |snake|
      invariant 0 <= k <= |snake| && newSnake == MovedPrefix(snake, k, fx, fy, gain, w, h)
    {
      var moved := MoveVertex(snake[k], flowX, flowY, gain, w, h);
      newSnake := newSnake + moved;
      k := k + 1;
    }
  }

  /** The body of the `forEach` for one vertex p: its displaced copy, or nothing on the border. */
  method MoveVertex(p: Point, flowX: array2<real>, flowY: array2<real>, gain: real, w: int, h: int)
    returns (moved: seq<Point>)
    requires flowX.Length0 == flowY.Length0 == w && flowX.Length1 == flowY.Length1 == h
    ensures moved == MoveOne(p, Cells(flowX), Cells(flowY), gain, w, h)
  {
    if p.x <= 0.0 || p.x >= (w - 1) as real || p.y <= 0.0 || p.y >= (h - 1) as real {
      moved := [];
    } else {
      InteriorCell(p, w, h);
      var i, j := Trunc(p.x), Trunc(p.y);
      var vx := (0.5 - flowX[i, j]) * 2.0;
      var vy := (0.5 - flowY[i, j]) * 2.0;
      var x := p.x + vx * gain;
      var y := p.y + vy * gain;
      assert Cells(flowX)[i][j] == flowX[i, j] && Cells(flowY)[i][j] == flowY[i, j];
      assert x == p.x + Shift(flowX[i, j], gain) && y == p.y + Shift(flowY[i, j], gain);
      moved := [Point(x, y)];
    }
  }

  /** A step never adds vertices. */
  lemma {:induction false} MovedPrefixBound(s: Contour, k: nat, flowX: FlowGrid, flowY: FlowGrid, gain: real, w: int, h: int)
    requires k <= |s| && FlowShape(flowX, flowY, w, h)
    ensures |MovedPrefix(s, k, flowX, flowY, gain, w, h)| <= k
  {
    if k > 0 {
      MovedPrefixBound(s, k - 1, flowX, flowY, gain, w, h);
    }
  }

  /**
   * When every vertex is inside, the step keeps them all, in order, each
   * displaced by the flow at its own cell (`MoveOne` of a vertex inside is
   * its one displaced copy).
   */
  lemma {:induction false} MovedPrefixInterior(s: Contour, k: nat, flowX: FlowGrid, flowY: FlowGrid, gain: real, w: int, h: int)
    requires k <= |s| && FlowShape(flowX, flowY, w, h)
    requires forall i :: 0 <= i < |s| ==> Interior(s[i], w, h)
    ensures var r := MovedPrefix(s, k, flowX, flowY, gain, w, h);
      |r| == k &&
      forall i :: 0 <= i < k ==>
        MoveOne(s[i], flowX, flowY, gain, w, h) == [r[i]]
  {
    if k > 0 {
      MovedPrefixInterior(s, k - 1, flowX, flowY, gain, w, h);
    }
  }

  lemma MovedInterior(s: Contour, flowX: FlowGrid, flowY: FlowGrid, gain: real, w: int, h: int)
    requires FlowShape(flowX, flowY, w, h)
    requires forall i :: 0 <= i < |s| ==> Interior(s[i], w, h)
    ensures var r := Moved(s, flowX, flowY, gain, w, h);
      |r| == |s| &&
      forall i :: 0 <= i < |s| ==>
        MoveOne(s[i], flowX, flowY, gain, w, h) == [r[i]]
  {
    MovedPrefixInterior(s, |s|, flowX, flowY, gain, w, h);
  }

  /** Border vertices are removed, not frozen: a snake entirely on or beyond the border vanishes. */
  lemma {:induction false} MovedPrefixBorder(s: Contour, k: nat, flowX: FlowGrid, flowY: FlowGrid, gain: real, w: int, h: int)
    requires k <= |s| && FlowShape(flowX, flowY, w, h)
    requires forall i :: 0 <= i < |s| ==> !Interior(s[i], w, h)
    ensures MovedPrefix(s, k, flowX, flowY, gain, w, h) == []
  {
    if k > 0 {
      MovedPrefixBorder(s, k - 1, flowX, flowY, gain, w, h);
    }
  }

  lemma MovedBorder(s: Contour, flowX: FlowGrid, flowY: FlowGrid, gain: real, w: int, h: int)
    requires FlowShape(flowX, flowY, w, h)
    requires forall i :: 0 <= i < |s| ==> !Interior(s[i], w, h)
    ensures Moved(s, flowX, flowY, gain, w, h) == []
  {
    MovedPrefixBorder(s, |s|, flowX, flowY, gain, w, h);
  }
}
