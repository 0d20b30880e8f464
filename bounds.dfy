/**
 * `getBoundingBox`: the integer box around a polygon, clipped to the grid.
 *
 * The running minima start at +Infinity and the running maxima at 0. An
 * infinite minimum (only possible for an empty polygon) is `None`.
 */
module Bounds {
  import opened Wrappers
  import opened Geometry

  /** `[[xMin, yMin], [xMax, yMax]]`; `None` stands for +Infinity. */
  datatype Box = Box(xMin: Option<int>, yMin: Option<int>, xMax: int, yMax: int)

  function MinOf(a: real, b: real): real { if a <= b then a else b }
  function MaxOf(a: real, b: real): real { if a >= b then a else b }

  /** `Math.min(v, m)` where `m` may be +Infinity. */
  function MinWith(v: real, m: Option<real>): real {
    if m.None? then v else MinOf(v, m.value)
  }

  /** The running minimum of `c` over `poly`, in forEach order, from +Infinity. */
  function RunMin(poly: seq<Point>, c: Point -> real): Option<real> {
    if poly == [] then None
    else Some(MinWith(c(poly[|poly| - 1]), RunMin(poly[..|poly| - 1], c)))
  }

  /** The running maximum of `c` over `poly`, in forEach order, from 0. */
  function RunMax(poly: seq<Point>, c: Point -> real): real {
    if poly == [] then 0.0
    else MaxOf(c(poly[|poly| - 1]), RunMax(poly[..|poly| - 1], c))
  }

  function X(p: Point): real { p.x }
  function Y(p: Point): real { p.y }

  /** `Math.max(0, Math.floor(m))`, with Infinity kept as it is. */
  function FloorLow(m: Option<real>): Option<int> {
    if m.None? then None
    else if m.value.Floor < 0 then Some(0) else Some(m.value.Floor)
  }

  /** `Math.min(bound, Math.floor(m))`. */
  function FloorHigh(m: real, bound: int): int {
    if bound < m.Floor then bound else m.Floor
  }

  /** The box the source computes, as a function of the polygon. */
  function BoundingBox(poly: seq<Point>, w: int, h: int): Box {
    Box(FloorLow(RunMin(poly, X)), FloorLow(RunMin(poly, Y)),
        FloorHigh(RunMax(poly, X), w), FloorHigh(RunMax(poly, Y), h))
  }

  /** `getBoundingBox(poligon, w, h)`: one forEach pass keeping four running values. */
  method GetBoundingBox(poligon: seq<Point>, w: int, h: int) returns (box: Box)
    ensures box == BoundingBox(poligon, w, h)
  {
    var xMin: Option<real> := None;
    var xMax: real := 0.0;
    var yMin: Option<real> := None;
    var yMax: real := 0.0;
    var i := 0;
    while i < |poligon|
      invariant 0 <= i <= |poligon|
      invariant xMin == RunMin(poligon[..i], X) && yMin == RunMin(poligon[..i], Y)
      invariant xMax == RunMax(poligon[..i], X) && yMax == RunMax(poligon[..i], Y)
    {
      var v := poligon[i];
      assert poligon[..i + 1][..i] == poligon[..i];
      xMin := Some(MinWith(v.x, xMin));
      xMax := MaxOf(v.x, xMax);
      yMin := Some(MinWith(v.y, yMin));
      yMax := MaxOf(v.y, yMax);
      i := i + 1;
    }
    assert poligon[..|poligon|] == poligon;
    box := Box(FloorLow(xMin), FloorLow(yMin), FloorHigh(xMax, w), FloorHigh(yMax, h));
  }

  /** The running minimum is a coordinate of the polygon and below all of them. */
  lemma {:induction false} RunMinIsLeast(poly: seq<Point>, c: Point -> real)
    ensures poly == [] <==> RunMin(poly, c).None?
    ensures RunMin(poly, c).Some? ==>
      (exists k :: 0 <= k < |poly| && RunMin(poly, c).value == c(poly[k])) &&
      (forall k :: 0 <= k < |poly| ==> RunMin(poly, c).value <= c(poly[k]))
  {
    if poly != [] {
      var init := poly[..|poly| - 1];
      RunMinIsLeast(init, c);
      var last := |poly| - 1;
      forall k | 0 <= k < |poly|
        ensures RunMin(poly, c).value <= c(poly[k])
      {
        if k < last {
          assert poly[k] == init[k];
        }
      }
      if RunMin(init, c).Some? && RunMin(poly, c).value != c(poly[last]) {
        var k :| 0 <= k < |init| && RunMin(init, c).value == c(init[k]);
        assert poly[k] == init[k];
      }
    }
  }

  /** The running maximum is 0 or a coordinate, and above 0 and all coordinates. */
  lemma {:induction false} RunMaxIsGreatest(poly: seq<Point>, c: Point -> real)
    ensures RunMax(poly, c) >= 0.0
    ensures RunMax(poly, c) == 0.0 || exists k :: 0 <= k < |poly| && RunMax(poly, c) == c(poly[k])
    ensures forall k :: 0 <= k < |poly| ==> c(poly[k]) <= RunMax(poly, c)
  {
    if poly != [] {
      var init := poly[..|poly| - 1];
      RunMaxIsGreatest(init, c);
      var last := |poly| - 1;
      forall k | 0 <= k < |poly|
        ensures c(poly[k]) <= RunMax(poly, c)
      {
        if k < last {
          assert poly[k] == init[k];
        }
      }
      if RunMax(poly, c) != c(poly[last]) && RunMax(init, c) != 0.0 {
        var k :| 0 <= k < |init| && RunMax(init, c) == c(init[k]);
        assert poly[k] == init[k];
      }
    }
  }

  /**
   * For a non-empty polygon the box has finite lower corner, inside
   * [0, w] x [0, h]; the upper corner is never negative on a grid of
   * non-negative size, because the running maxima start at 0.
   */
  lemma BoxWithinGrid(poly: seq<Point>, w: nat, h: nat)
    ensures var b := BoundingBox(poly, w, h);
      (poly != [] <==> b.xMin.Some? && b.yMin.Some?) &&
      (b.xMin.Some? ==> 0 <= b.xMin.value) && (b.yMin.Some? ==> 0 <= b.yMin.value) &&
      0 <= b.xMax <= w && 0 <= b.yMax <= h
  {
    RunMinIsLeast(poly, X);
    RunMinIsLeast(poly, Y);
    RunMaxIsGreatest(poly, X);
    RunMaxIsGreatest(poly, Y);
  }

  /** A polygon inside [0, w] x [0, h] has every floored vertex inside its box. */
  lemma BoxContainsVertices(poly: seq<Point>, w: int, h: int, k: int)
    requires 0 <= k < |poly|
    requires forall i :: 0 <= i < |poly| ==> 0.0 <= poly[i].x <= w as real && 0.0 <= poly[i].y <= h as real
    ensures var b := BoundingBox(poly, w, h);
      b.xMin.Some? && b.yMin.Some? &&
      b.xMin.value <= poly[k].x.Floor <= b.xMax && b.yMin.value <= poly[k].y.Floor <= b.yMax
  {
    RunMinIsLeast(poly, X);
    RunMinIsLeast(poly, Y);
    RunMaxIsGreatest(poly, X);
    RunMaxIsGreatest(poly, Y);
    assert X(poly[k]) == poly[k].x && Y(poly[k]) == poly[k].y;
    FloorMonotone(RunMin(poly, X).value, poly[k].x);
    FloorMonotone(RunMin(poly, Y).value, poly[k].y);
    FloorMonotone(poly[k].x, RunMax(poly, X));
    FloorMonotone(poly[k].y, RunMax(poly, Y));
    FloorMonotone(poly[k].x, w as real);
    FloorMonotone(poly[k].y, h as real);
    FloorMonotone(0.0, poly[k].x);
    FloorMonotone(0.0, poly[k].y);
  }

  lemma FloorMonotone(a: real, b: real)
    requires a <= b
    ensures a.Floor <= b.Floor
  {
  }

  /** The same points in any order (or repeated) give the same box. */
  lemma BoxOrderIndependent(p: seq<Point>, q: seq<Point>, w: int, h: int)
    requires forall v :: v in p <==> v in q
    ensures BoundingBox(p, w, h) == BoundingBox(q, w, h)
  {
    SameMin(p, q, X);
    SameMin(p, q, Y);
    SameMax(p, q, X);
    SameMax(p, q, Y);
  }

  lemma SameMin(p: seq<Point>, q: seq<Point>, c: Point -> real)
    requires forall v :: v in p <==> v in q
    ensures RunMin(p, c) == RunMin(q, c)
  {
    RunMinIsLeast(p, c);
    RunMinIsLeast(q, c);
    assert q != [] ==> q[0] in p;
    if p != [] {
      assert p[0] in q;
      var mp, mq := RunMin(p, c).value, RunMin(q, c).value;
      var i :| 0 <= i < |p| && mp == c(p[i]);
      var j :| 0 <= j < |q| && mq == c(q[j]);
      assert p[i] in q;
      assert q[j] in p;
      var i' :| 0 <= i' < |q| && q[i'] == p[i];
      var j' :| 0 <= j' < |p| && p[j'] == q[j];
      assert mq <= c(q[i']) && mp <= c(p[j']);
    }
  }

  lemma SameMax(p: seq<Point>, q: seq<Point>, c: Point -> real)
    requires forall v :: v in p <==> v in q
    ensures RunMax(p, c) == RunMax(q, c)
  {
    RunMaxIsGreatest(p, c);
    RunMaxIsGreatest(q, c);
    var mp, mq := RunMax(p, c), RunMax(q, c);
    if mp != 0.0 {
      var i :| 0 <= i < |p| && mp == c(p[i]);
      assert p[i] in q;
      var i' :| 0 <= i' < |q| && q[i'] == p[i];
      assert mp <= mq;
    }
    if mq != 0.0 {
      var j :| 0 <= j < |q| && mq == c(q[j]);
      assert q[j] in p;
      var j' :| 0 <= j' < |p| && p[j'] == q[j];
      assert mq <= mp;
    }
  }
}
