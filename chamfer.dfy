/**
 * `ChamferDistance.compute`: a two-pass chamfer distance transform over a
 * column-major integer grid `g[x, y]`, turned into a flow field.
 *
 * A cell holds -1 while unknown and its chamfer distance to the nearest
 * seed once known; seeds are 0.
 */
module Chamfer {
  import opened Wrappers
  import opened Grids

  /** One kernel entry `[dx, dy, dt]`. */
  datatype Offset = Offset(dx: int, dy: int, dt: int)

  const Cheessboard: seq<Offset> := [Offset(1, 0, 1), Offset(1, 1, 1)]
  const Chamfer3: seq<Offset> := [Offset(1, 0, 3), Offset(1, 1, 4)]
  const Chamfer5: seq<Offset> := [Offset(1, 0, 5), Offset(1, 1, 7), Offset(2, 1, 1)]
  const Chamfer7: seq<Offset> := [Offset(1, 0, 14), Offset(1, 1, 20), Offset(2, 1, 31), Offset(3, 1, 44)]
  const Chamfer13: seq<Offset> :=
    [Offset(1, 0, 68), Offset(1, 1, 96), Offset(2, 1, 152), Offset(3, 1, 215), Offset(3, 2, 245),
     Offset(4, 1, 280), Offset(4, 3, 340), Offset(5, 1, 346), Offset(6, 1, 413)]

  /** `chamfermask || chamfer13`: a missing mask selects `chamfer13`. */
  function SelectMask(chamfermask: Option<seq<Offset>>): (m: seq<Offset>)
    ensures chamfermask.Some? ==> m == chamfermask.value
    ensures chamfermask.None? ==> m == Chamfer13
  {
    if chamfermask.Some? then chamfermask.value else Chamfer13
  }

  /**
   * The shape every kernel table has: each offset points forward in raster
   * order (dx >= 1, dy >= 0) and costs a positive weight.
   */
  predicate ValidMask(mask: seq<Offset>) {
    forall k :: 0 <= k < |mask| ==> mask[k].dx >= 1 && mask[k].dy >= 0 && mask[k].dt > 0
  }

  lemma TablesAreValid()
    ensures ValidMask(Cheessboard) && ValidMask(Chamfer3) && ValidMask(Chamfer5)
    ensures ValidMask(Chamfer7) && ValidMask(Chamfer13)
    ensures ValidMask(SelectMask(None))
  {
  }

  // ---------------------------------------------------------------- testAndSet

  /**
   * The value `testAndSet` leaves in a cell holding `v` when offered
   * `newvalue`: a known cell already below the offer is kept, otherwise
   * the offer is written.
   */
  function Relax(v: int, newvalue: int): (r: int)
    ensures r <= newvalue
    ensures v >= 0 ==> r <= v
    ensures r == v || r == newvalue
  {
    if v >= 0 && v < newvalue then v else newvalue
  }

  /**
   * How a cell may evolve during the passes: a seed stays 0, a known cell
   * stays known and never grows, an unknown cell stays unknown or becomes
   * known with a positive distance.
   */
  predicate Settles(before: int, after: int) {
    if before == 0 then after == 0
    else if before > 0 then 0 < after <= before
    else after == before || after > 0
  }

  lemma RelaxSettles(v: int, newvalue: int)
    requires newvalue > 0
    ensures Settles(v, Relax(v, newvalue))
  {
  }

  lemma SettlesTransitive(a: int, b: int, c: int)
    requires Settles(a, b) && Settles(b, c)
    ensures Settles(a, c)
  {
  }

  /** `(x, y)` addresses a cell of `g`. */
  predicate InGrid(g: array2<int>, x: int, y: int) {
    0 <= x < g.Length0 && 0 <= y < g.Length1
  }

  /** `testAndSet(output, x, y, w, h, newvalue)`; targets off the grid are ignored. */
  method TestAndSet(output: array2<int>, x: int, y: int, w: int, h: int, newvalue: int)
    requires output.Length0 == w && output.Length1 == h
    modifies output
    ensures forall i, j :: InGrid(output, i, j) && (i, j) != (x, y) ==> output[i, j] == old(output[i, j])
    ensures InGrid(output, x, y) ==> output[x, y] == Relax(old(output[x, y]), newvalue)
  {
    if x < 0 || x >= w {
      return;
    }
    if y < 0 || y >= h {
      return;
    }
    var v := output[x, y];
    if v >= 0 && v < newvalue {
      return;
    }
    output[x, y] := newvalue;
  }

  // ---------------------------------------------------------------- one source

  /** Which of the four mirrored targets of an entry the source visits. */
  predicate Applies(o: Offset, q: int) {
    if q == 0 then true
    else if q == 1 then o.dy != 0
    else if q == 2 then o.dx != o.dy
    else q == 3 && o.dx != o.dy && o.dy != 0
  }

  /**
   * Target `q` of entry `o` from (x, y); `s` is 1 in the forward pass and
   * -1 in the backward pass, which negates every offset.
   */
  function TargetX(x: int, o: Offset, s: int, q: int): int {
    if q == 0 then x + s * o.dx
    else if q == 1 then x - s * o.dx
    else if q == 2 then x + s * o.dy
    else x - s * o.dy
  }

  function TargetY(y: int, o: Offset, s: int, q: int): int {
    if q == 0 || q == 1 then y + s * o.dy else y + s * o.dx
  }

  /** (i, j) comes strictly after (x, y) in the raster order of pass `s`. */
  predicate After(s: int, x: int, y: int, i: int, j: int) {
    if s == 1 then j > y || (j == y && i > x) else j < y || (j == y && i < x)
  }

  lemma TargetsAfter(x: int, y: int, o: Offset, s: int, q: int)
    requires s == 1 || s == -1
    requires o.dx >= 1 && o.dy >= 0 && Applies(o, q)
    ensures After(s, x, y, TargetX(x, o, s, q), TargetY(y, o, s, q))
  {
  }

  /** Every cell of `g` moved from `before` by `Settles`. */
  ghost predicate AllSettle(g: array2<int>, before: seq<seq<int>>)
    reads g
  {
    IsGrid(before, g.Length0, g.Length1) &&
    forall i, j :: InGrid(g, i, j) ==> Settles(before[i][j], g[i, j])
  }

  /** A snapshot of the grid as columns. */
  ghost function Snapshot(g: array2<int>): (s: seq<seq<int>>)
    reads g
    ensures IsGrid(s, g.Length0, g.Length1)
    ensures forall i, j :: InGrid(g, i, j) ==> s[i][j] == g[i, j]
  {
    seq(g.Length0, i requires 0 <= i < g.Length0 reads g => seq(g.Length1, j requires 0 <= j < g.Length1 reads g => g[i, j]))
  }

  /**
   * The inner `k` loop of both passes for a known source value `v` at
   * (x, y): every visited in-range target ends at most `v + dt`, no cell
   * leaves `Settles`, and cells at or before (x, y) in pass order are untouched.
   */
  method Spread(g: array2<int>, x: int, y: int, v: int, mask: seq<Offset>, s: int)
    requires s == 1 || s == -1
    requires ValidMask(mask) && v >= 0
    modifies g
    ensures forall i, j :: InGrid(g, i, j) ==> Settles(old(g[i, j]), g[i, j])
    ensures forall i, j :: InGrid(g, i, j) && !After(s, x, y, i, j) ==> g[i, j] == old(g[i, j])
    ensures forall k, q ::
      0 <= k < |mask| && 0 <= q < 4 && Applies(mask[k], q) &&
      InGrid(g, TargetX(x, mask[k], s, q), TargetY(y, mask[k], s, q)) ==>
      0 <= g[TargetX(x, mask[k], s, q), TargetY(y, mask[k], s, q)] <= v + mask[k].dt
  {
    var w, h := g.Length0, g.Length1;
    ghost var g0 := Snapshot(g);
    var k := 0;
    while k < |mask|
      invariant 0 <= k <= |mask|
      invariant AllSettle(g, g0)
      invariant forall i, j :: InGrid(g, i, j) && !After(s, x, y, i, j) ==> g[i, j] == g0[i][j]
      invariant forall k', q ::
        0 <= k' < k && 0 <= q < 4 && Applies(mask[k'], q) &&
        InGrid(g, TargetX(x, mask[k'], s, q), TargetY(y, mask[k'], s, q)) ==>
        0 <= g[TargetX(x, mask[k'], s, q), TargetY(y, mask[k'], s, q)] <= v + mask[k'].dt
    {
      OfferEntry(g, x, y, v, mask, s, k, g0);
      k := k + 1;
    }
  }

  /**
   * One pass of the `k` loop: the up to four `testAndSet` calls for entry
   * `k` of the mask, after which each of its targets is at most `v + dt`.
   */
  method OfferEntry(g: array2<int>, x: int, y: int, v: int, mask: seq<Offset>, s: int, k: int,
                    ghost g0: seq<seq<int>>)
    requires s == 1 || s == -1
    requires ValidMask(mask) && v >= 0 && 0 <= k < |mask|
    requires AllSettle(g, g0)
    requires forall i, j :: InGrid(g, i, j) && !After(s, x, y, i, j) ==> g[i, j] == g0[i][j]
    modifies g
    ensures AllSettle(g, g0)
    ensures forall i, j :: InGrid(g, i, j) && !After(s, x, y, i, j) ==> g[i, j] == g0[i][j]
    ensures forall i, j :: InGrid(g, i, j) && old(g[i, j]) >= 0 ==> 0 <= g[i, j] <= old(g[i, j])
    ensures forall q ::
      0 <= q < 4 && Applies(mask[k], q) &&
      InGrid(g, TargetX(x, mask[k], s, q), TargetY(y, mask[k], s, q)) ==>
      0 <= g[TargetX(x, mask[k], s, q), TargetY(y, mask[k], s, q)] <= v + mask[k].dt
  {
    var dx := mask[k].dx;
    var dy := mask[k].dy;
    Offer(g, x, y, v, mask, s, k, 0, g0);
    if dy != 0 {
      Offer(g, x, y, v, mask, s, k, 1, g0);
    }
    if dx != dy {
      Offer(g, x, y, v, mask, s, k, 2, g0);
      if dy != 0 {
        Offer(g, x, y, v, mask, s, k, 3, g0);
      }
    }
  }

  /**
   * One `testAndSet` of the `k` loop (target `q` of entry `k`), with the
   * facts the loop keeps: targets already offered stay within their bound.
   */
  method Offer(g: array2<int>, x: int, y: int, v: int, mask: seq<Offset>, s: int, k: int, q: int,
               ghost g0: seq<seq<int>>)
    requires s == 1 || s == -1
    requires ValidMask(mask) && v >= 0 && 0 <= k < |mask| && 0 <= q < 4 && Applies(mask[k], q)
    requires AllSettle(g, g0)
    requires forall i, j :: InGrid(g, i, j) && !After(s, x, y, i, j) ==> g[i, j] == g0[i][j]
    modifies g
    ensures AllSettle(g, g0)
    ensures forall i, j :: InGrid(g, i, j) && !After(s, x, y, i, j) ==> g[i, j] == g0[i][j]
    ensures forall i, j :: InGrid(g, i, j) && old(g[i, j]) >= 0 ==> 0 <= g[i, j] <= old(g[i, j])
    ensures forall i, j :: InGrid(g, i, j) && (i, j) != (TargetX(x, mask[k], s, q), TargetY(y, mask[k], s, q)) ==>
      g[i, j] == old(g[i, j])
    ensures InGrid(g, TargetX(x, mask[k], s, q), TargetY(y, mask[k], s, q)) ==>
      0 <= g[TargetX(x, mask[k], s, q), TargetY(y, mask[k], s, q)] <= v + mask[k].dt
  {
    var tx, ty := TargetX(x, mask[k], s, q), TargetY(y, mask[k], s, q);
    TargetsAfter(x, y, mask[k], s, q);
    if InGrid(g, tx, ty) {
      RelaxSettles(g[tx, ty], v + mask[k].dt);
      SettlesTransitive(g0[tx][ty], g[tx, ty], Relax(g[tx, ty], v + mask[k].dt));
    }
    TestAndSet(g, tx, ty, g.Length0, g.Length1, v + mask[k].dt);
  }

  // ---------------------------------------------------------------- allocation and seeding

  /** `chamfer.init2DArray(w, h)`: `w` columns of `h` zeros, indexed `[x, y]`. */
  method Init2DArray<T>(w: nat, h: nat, zero: T) returns (arr: array2<T>)
    ensures fresh(arr) && arr.Length0 == w && arr.Length1 == h
    ensures forall x, y :: 0 <= x < w && 0 <= y < h ==> arr[x, y] == zero
  {
    arr := new T[w, h]((x, y) => zero);
  }

  /** The initial distance of a cell: 0 for a seed, -1 (unknown) otherwise. */
  function SeedValue(seed: bool): int {
    if seed then 0 else -1
  }

  /** Seeds of the mask variant: the cells whose binary value is exactly 1. */
  method SeedFromMask(data: Grid, w: nat, h: nat) returns (gradient: array2<int>)
    requires IsGrid(data, h, w)
    ensures fresh(gradient) && gradient.Length0 == w && gradient.Length1 == h
    ensures forall x, y :: InGrid(gradient, x, y) ==> gradient[x, y] == SeedValue(data[y][x] == 1)
  {
    gradient := Init2DArray(w, h, 0);
    var y := 0;
    while y < h
      invariant 0 <= y <= h
      invariant forall i, j :: InGrid(gradient, i, j) ==>
        gradient[i, j] == (if j < y then SeedValue(data[j][i] == 1) else 0)
    {
      var x := 0;
      while x < w
        invariant 0 <= x <= w
        invariant forall i, j :: InGrid(gradient, i, j) ==>
          gradient[i, j] == (if j < y || (j == y && i < x) then SeedValue(data[j][i] == 1) else 0)
      {
        if data[y][x] != 1 {
          gradient[x, y] := -1;
        }
        x := x + 1;
      }
      y := y + 1;
    }
  }

  /** The seed test of the threshold variant: intensity / 255 above `threshold`. */
  predicate AboveThreshold(v: int, threshold: real) {
    v as real / 255.0 > threshold
  }

  /** Seeds of the threshold variant: cells with `data[y][x] / 255 > threshold`. */
  method SeedFromThreshold(data: Grid, threshold: real, w: nat, h: nat) returns (gradient: array2<int>)
    requires IsGrid(data, h, w)
    ensures fresh(gradient) && gradient.Length0 == w && gradient.Length1 == h
    ensures forall x, y :: InGrid(gradient, x, y) ==>
      gradient[x, y] == SeedValue(AboveThreshold(data[y][x], threshold))
  {
    gradient := Init2DArray(w, h, 0);
    var y := 0;
    while y < h
      invariant 0 <= y <= h
      invariant forall i, j :: InGrid(gradient, i, j) ==>
        gradient[i, j] == (if j < y then SeedValue(AboveThreshold(data[j][i], threshold)) else 0)
    {
      var x := 0;
      while x < w
        invariant 0 <= x <= w
        invariant forall i, j :: InGrid(gradient, i, j) ==>
          gradient[i, j] == (if j < y || (j == y && i < x) then SeedValue(AboveThreshold(data[j][i], threshold)) else 0)
      {
        if data[y][x] as real / 255.0 <= threshold {
          gradient[x, y] := -1;
        }
        x := x + 1;
      }
      y := y + 1;
    }
  }

  // ---------------------------------------------------------------- the two passes

  function Max(a: int, b: int): int { if a >= b then a else b }

  /**
   * The forward raster pass (rows top to bottom, cells left to right).
   * Only known cells spread. The source takes `max` of the source cell once
   * per kernel entry inside the `k` loop; the source cell is never a target,
   * so that is a single update whenever the mask is non-empty. Every cell
   * is visited before anything can change it again, so with a non-empty
   * mask all cells end at most `max`.
   */
  method ForwardPass(gradient: array2<int>, mask: seq<Offset>) returns (max: int)
    requires ValidMask(mask)
    modifies gradient
    ensures max >= 0
    ensures forall i, j :: InGrid(gradient, i, j) ==> Settles(old(gradient[i, j]), gradient[i, j])
    ensures |mask| > 0 ==> forall i, j :: InGrid(gradient, i, j) ==> gradient[i, j] <= max
  {
    ghost var g0 := Snapshot(gradient);
    var w, h := gradient.Length0, gradient.Length1;
    max := 0;
    var y := 0;
    while y < h
      invariant 0 <= y <= h && max >= 0
      invariant AllSettle(gradient, g0)
      invariant |mask| > 0 ==> forall i, j :: InGrid(gradient, i, j) && j < y ==> gradient[i, j] <= max
    {
      var x := 0;
      while x < w
        invariant 0 <= x <= w && max >= 0
        invariant AllSettle(gradient, g0)
        invariant |mask| > 0 ==> forall i, j :: InGrid(gradient, i, j) && (j < y || (j == y && i < x)) ==>
          gradient[i, j] <= max
      {
        var v := gradient[x, y];
        if v >= 0 {
          Spread(gradient, x, y, v, mask, 1);
          if |mask| > 0 {
            max := Max(max, gradient[x, y]);
          }
        }
        x := x + 1;
      }
      y := y + 1;
    }
  }

  /**
   * The backward raster pass (rows h-1 down to 1, cells w-1 down to 1),
   * spreading along the negated offsets. Row 0 and column 0 never act as
   * sources; every visited cell ends at most `max`.
   */
  method BackwardPass(gradient: array2<int>, mask: seq<Offset>, max0: int) returns (max: int)
    requires ValidMask(mask) && max0 >= 0
    modifies gradient
    ensures max >= max0
    ensures forall i, j :: InGrid(gradient, i, j) ==> Settles(old(gradient[i, j]), gradient[i, j])
    ensures forall i, j :: InGrid(gradient, i, j) && i >= 1 && j >= 1 ==> gradient[i, j] <= max
  {
    ghost var g0 := Snapshot(gradient);
    var w, h := gradient.Length0, gradient.Length1;
    max := max0;
    var y := h - 1;
    while y > 0
      invariant -1 <= y <= h - 1 && max >= max0
      invariant AllSettle(gradient, g0)
      invariant forall i, j :: InGrid(gradient, i, j) && i >= 1 && j > y ==> gradient[i, j] <= max
    {
      var x := w - 1;
      while x > 0
        invariant -1 <= x <= w - 1 && max >= max0
        invariant AllSettle(gradient, g0)
        invariant forall i, j :: InGrid(gradient, i, j) && i >= 1 && (j > y || (j == y && i > x)) ==>
          gradient[i, j] <= max
      {
        var v := gradient[x, y];
        if v >= 0 {
          Spread(gradient, x, y, v, mask, -1);
          max := Max(max, gradient[x, y]);
        }
        x := x - 1;
      }
      y := y - 1;
    }
  }

  // ---------------------------------------------------------------- flow field

  /**
   * The normalised flow from the distances on either side of a cell:
   * `((upper - lower) / 2 + max / 2) / max`.
   */
  function FlowValue(lower: int, upper: int, max: int): real
    requires max > 0
  {
    ((upper - lower) as real * 0.5 + max as real * 0.5) / max as real
  }

  /** Equal distances on both sides give the neutral flow 0.5. */
  lemma FlowOfFlat(v: int, max: int)
    requires max > 0
    ensures FlowValue(v, v, max) == 0.5
  {
    var m := max as real;
    assert (v - v) as real * 0.5 + m * 0.5 == 0.5 * m;
    HalfOf(m);
  }

  lemma HalfOf(m: real)
    requires m > 0.0
    ensures (0.5 * m) / m == 0.5
  {
  }

  /** When the two sides differ by at most `max`, the flow lies in [0, 1]. */
  lemma FlowInUnitRange(lower: int, upper: int, max: int)
    requires max > 0 && -max <= upper - lower <= max
    ensures 0.0 <= FlowValue(lower, upper, max) <= 1.0
  {
    var m := max as real;
    var n := (upper - lower) as real * 0.5 + m * 0.5;
    assert 0.0 <= n <= m;
    DivideBounds(n, m);
  }

  lemma DivideBounds(n: real, m: real)
    requires m > 0.0 && 0.0 <= n <= m
    ensures 0.0 <= n / m <= 1.0
  {
  }

  /** The flow grows with the distance on the upper side. */
  lemma FlowMonotone(lower: int, upper1: int, upper2: int, max: int)
    requires max > 0 && upper1 <= upper2
    ensures FlowValue(lower, upper1, max) <= FlowValue(lower, upper2, max)
  {
    var m := max as real;
    DivideMonotone((upper1 - lower) as real * 0.5 + m * 0.5, (upper2 - lower) as real * 0.5 + m * 0.5, m);
  }

  lemma DivideMonotone(a: real, b: real, m: real)
    requires m > 0.0 && a <= b
    ensures a / m <= b / m
  {
  }

  /** (x, y) lies on the outer ring of a w x h grid. */
  predicate OnBorder(x: int, y: int, w: int, h: int) {
    x == 0 || x == w - 1 || y == 0 || y == h - 1
  }

  /**
   * `flowX` and `flowY` are the flow of the distance grid `distance`
   * normalised by `max`: 0 on the border, `FlowValue` of the neighbours inside.
   */
  ghost predicate IsFlowOf(flowX: array2<real>, flowY: array2<real>, distance: array2<int>, max: int)
    reads flowX, flowY, distance
  {
    var w, h := distance.Length0, distance.Length1;
    flowX.Length0 == flowY.Length0 == w && flowX.Length1 == flowY.Length1 == h &&
    (max > 0 || w <= 2 || h <= 2) &&
    forall x, y :: InGrid(distance, x, y) ==>
      flowX[x, y] == (if OnBorder(x, y, w, h) then 0.0 else FlowValue(distance[x - 1, y], distance[x + 1, y], max)) &&
      flowY[x, y] == (if OnBorder(x, y, w, h) then 0.0 else FlowValue(distance[x, y - 1], distance[x, y + 1], max))
  }

  /**
   * The normalisation loop: flow 0 on the border, `FlowValue` of the
   * horizontal (vertical) neighbours inside. Inner cells exist only when
   * both sides are at least 3, and only then is `max` a divisor.
   */
  method Flow(gradient: array2<int>, max: int) returns (flowX: array2<real>, flowY: array2<real>)
    requires max > 0 || gradient.Length0 <= 2 || gradient.Length1 <= 2
    ensures fresh(flowX) && fresh(flowY)
    ensures flowX.Length0 == flowY.Length0 == gradient.Length0
    ensures flowX.Length1 == flowY.Length1 == gradient.Length1
    ensures forall x, y :: InGrid(gradient, x, y) ==>
      flowX[x, y] == (if OnBorder(x, y, gradient.Length0, gradient.Length1) then 0.0
                      else FlowValue(gradient[x - 1, y], gradient[x + 1, y], max))
    ensures forall x, y :: InGrid(gradient, x, y) ==>
      flowY[x, y] == (if OnBorder(x, y, gradient.Length0, gradient.Length1) then 0.0
                      else FlowValue(gradient[x, y - 1], gradient[x, y + 1], max))
  {
    var w, h := gradient.Length0, gradient.Length1;
    flowX := Init2DArray(w, h, 0.0);
    flowY := Init2DArray(w, h, 0.0);
    var y := 0;
    while y < h
      invariant 0 <= y <= h
      invariant forall i, j :: InGrid(gradient, i, j) && j < y ==>
        flowX[i, j] == (if OnBorder(i, j, w, h) then 0.0 else FlowValue(gradient[i - 1, j], gradient[i + 1, j], max)) &&
        flowY[i, j] == (if OnBorder(i, j, w, h) then 0.0 else FlowValue(gradient[i, j - 1], gradient[i, j + 1], max))
    {
      var x := 0;
      while x < w
        invariant 0 <= x <= w
        invariant forall i, j :: InGrid(gradient, i, j) && (j < y || (j == y && i < x)) ==>
          flowX[i, j] == (if OnBorder(i, j, w, h) then 0.0 else FlowValue(gradient[i - 1, j], gradient[i + 1, j], max)) &&
          flowY[i, j] == (if OnBorder(i, j, w, h) then 0.0 else FlowValue(gradient[i, j - 1], gradient[i, j + 1], max))
      {
        if x == 0 || x == w - 1 || y == 0 || y == h - 1 {
          flowX[x, y], flowY[x, y] := 0.0, 0.0;
        } else {
          var dx := (gradient[x + 1, y] - gradient[x - 1, y]) as real * 0.5 + max as real * 0.5;
          var dy := (gradient[x, y + 1] - gradient[x, y - 1]) as real * 0.5 + max as real * 0.5;
          flowX[x, y] := dx / max as real;
          flowY[x, y] := dy / max as real;
        }
        x := x + 1;
      }
      y := y + 1;
    }
  }

  // ---------------------------------------------------------------- compute

  /** A cell is unknown (-1) or a known distance. */
  predicate IsDistance(v: int) {
    v == -1 || v >= 0
  }

  /**
   * Both passes and the flow field over a seeded grid. `defined` is false
   * exactly when inner cells exist but `max` is 0: the source then divides
   * by zero and its inner flow values are not modelled.
   */
  method Propagate(gradient: array2<int>, mask: seq<Offset>)
    returns (flowX: array2<real>, flowY: array2<real>, defined: bool, ghost max: int)
    requires ValidMask(mask)
    modifies gradient
    ensures fresh(flowX) && fresh(flowY)
    ensures flowX.Length0 == flowY.Length0 == gradient.Length0
    ensures flowX.Length1 == flowY.Length1 == gradient.Length1
    ensures forall i, j :: InGrid(gradient, i, j) ==> Settles(old(gradient[i, j]), gradient[i, j])
    ensures max >= 0
    ensures forall i, j :: InGrid(gradient, i, j) && i >= 1 && j >= 1 ==> gradient[i, j] <= max
    ensures defined <==> (max > 0 || gradient.Length0 <= 2 || gradient.Length1 <= 2)
    ensures defined ==> forall x, y :: InGrid(gradient, x, y) ==>
      flowX[x, y] == (if OnBorder(x, y, gradient.Length0, gradient.Length1) then 0.0
                      else FlowValue(gradient[x - 1, y], gradient[x + 1, y], max)) &&
      flowY[x, y] == (if OnBorder(x, y, gradient.Length0, gradient.Length1) then 0.0
                      else FlowValue(gradient[x, y - 1], gradient[x, y + 1], max))
  {
    ghost var g0 := Snapshot(gradient);
    var m := ForwardPass(gradient, mask);
    ghost var g1 := Snapshot(gradient);
    m := BackwardPass(gradient, mask, m);
    forall i, j | InGrid(gradient, i, j)
      ensures Settles(g0[i][j], gradient[i, j])
    {
      SettlesTransitive(g0[i][j], g1[i][j], gradient[i, j]);
    }
    max := m;
    defined := m > 0 || gradient.Length0 <= 2 || gradient.Length1 <= 2;
    if defined {
      flowX, flowY := Flow(gradient, m);
    } else {
      flowX := Init2DArray(gradient.Length0, gradient.Length1, 0.0);
      flowY := Init2DArray(gradient.Length0, gradient.Length1, 0.0);
    }
  }

  /**
   * `compute(chamfermask, data, w, h)` of the mask variant. Afterwards a
   * cell is 0 exactly at the seeds, every other cell is unknown or a
   * positive distance, and the inner cells are at most `max`.
   */
  method ComputeFromMask(chamfermask: Option<seq<Offset>>, data: Grid, w: nat, h: nat)
    returns (flowX: array2<real>, flowY: array2<real>, defined: bool,
             ghost distance: array2<int>, ghost max: int)
    requires IsGrid(data, h, w) && ValidMask(SelectMask(chamfermask))
    ensures fresh(flowX) && fresh(flowY) && fresh(distance)
    ensures distance.Length0 == flowX.Length0 == flowY.Length0 == w
    ensures distance.Length1 == flowX.Length1 == flowY.Length1 == h
    ensures forall x, y :: InGrid(distance, x, y) ==>
      IsDistance(distance[x, y]) && (distance[x, y] == 0 <==> data[y][x] == 1)
    ensures max >= 0
    ensures forall x, y :: InGrid(distance, x, y) && x >= 1 && y >= 1 ==> distance[x, y] <= max
    ensures defined <==> (max > 0 || w <= 2 || h <= 2)
    ensures defined ==> forall x, y :: InGrid(distance, x, y) ==>
      flowX[x, y] == (if OnBorder(x, y, w, h) then 0.0 else FlowValue(distance[x - 1, y], distance[x + 1, y], max)) &&
      flowY[x, y] == (if OnBorder(x, y, w, h) then 0.0 else FlowValue(distance[x, y - 1], distance[x, y + 1], max))
  {
    var mask := SelectMask(chamfermask);
    var gradient := SeedFromMask(data, w, h);
    flowX, flowY, defined, max := Propagate(gradient, mask);
    distance := gradient;
  }

  /**
   * `compute(chamfermask, data, threshold, w, h)` of the threshold variant:
   * the same transform with seeds where `data[y][x] / 255 > threshold`.
   */
  method ComputeFromThreshold(chamfermask: Option<seq<Offset>>, data: Grid, threshold: real, w: nat, h: nat)
    returns (flowX: array2<real>, flowY: array2<real>, defined: bool,
             ghost distance: array2<int>, ghost max: int)
    requires IsGrid(data, h, w) && ValidMask(SelectMask(chamfermask))
    ensures fresh(flowX) && fresh(flowY) && fresh(distance)
    ensures distance.Length0 == flowX.Length0 == flowY.Length0 == w
    ensures distance.Length1 == flowX.Length1 == flowY.Length1 == h
    ensures forall x, y :: InGrid(distance, x, y) ==>
      IsDistance(distance[x, y]) && (distance[x, y] == 0 <==> AboveThreshold(data[y][x], threshold))
    ensures max >= 0
    ensures forall x, y :: InGrid(distance, x, y) && x >= 1 && y >= 1 ==> distance[x, y] <= max
    ensures defined <==> (max > 0 || w <= 2 || h <= 2)
    ensures defined ==> forall x, y :: InGrid(distance, x, y) ==>
      flowX[x, y] == (if OnBorder(x, y, w, h) then 0.0 else FlowValue(distance[x - 1, y], distance[x + 1, y], max)) &&
      flowY[x, y] == (if OnBorder(x, y, w, h) then 0.0 else FlowValue(distance[x, y - 1], distance[x, y + 1], max))
  {
    var mask := SelectMask(chamfermask);
    var gradient := SeedFromThreshold(data, threshold, w, h);
    flowX, flowY, defined, max := Propagate(gradient, mask);
    distance := gradient;
  }
}
