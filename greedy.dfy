/**
 * The greedy snake of `computeKASS` (KASS/KASS.js and KASS/KASS_test.js).
 * Every pass measures the snake, then moves each vertex in turn: four
 * k x k energy windows are filled over the offsets dx, dy in [-hks, hks)
 * (hks = floor(k / 2)), normalised in place, combined with the four
 * weights, and the vertex goes to the first offset of strictly least
 * energy, clamped to the image interior and floored. The moved snake is
 * resampled by `rebuild` and recorded when the variant's acceptance rule
 * holds. A window whose absolute values sum to 0 makes `normalize` return
 * `undefined`, and the next read of it throws: such a run has no result.
 */
module Greedy {
  import opened Wrappers
  import opened Geometry
  import opened Grids
  import opened Contours
  import opened Resampling
  import opened Energy
  import opened Movement
  import opened Runs

  // ------------------------------------------------------ settings

  /** When a rebuilt snake is pushed onto `contours`. */
  datatype Acceptance =
    | NonZeroLength   // KASS/KASS.js: the rebuilt snake has length != 0
    | LengthChange    // KASS/KASS_test.js: the moved snake has length != 0 and the length changed by more than 0.5 %

  /** The constants of one variant, after the defaults are applied. */
  datatype Params = Params(kernelSize: nat, alpha: real, beta: real, wLine: real, wEdge: real,
                           maxDist: real, it: int, acceptance: Acceptance)

  /** `hks = Math.floor(kernelSize / 2)`. */
  function Half(p: Params): nat {
    p.kernelSize / 2
  }

  /** The number of offsets per axis, `2 * hks`; it never exceeds the window size. */
  function Span(p: Params): (m: nat)
    ensures m <= p.kernelSize && m == 2 * Half(p)
  {
    2 * Half(p)
  }

  /** The binary image and the two gradient fields, each h rows of w samples. */
  datatype Images = Images(binary: Grid, gradX: Grid, gradY: Grid, w: nat, h: nat)

  ghost predicate ImagesShaped(im: Images) {
    IsGrid(im.binary, im.h, im.w) && IsGrid(im.gradX, im.h, im.w) && IsGrid(im.gradY, im.h, im.w)
  }

  // ------------------------------------------------------ the four windows

  /** The vertex being moved, its two neighbours, the snake length and size. */
  datatype Site = Site(prev: Point, cur: Point, next: Point, snakeLength: real, size: nat)

  /** Vertex i of s: `prev = snake[(i + n - 1) % n]`, `next = snake[(i + 1) % n]`. */
  function SiteOf(s: Contour, snakeLength: real, i: nat): (v: Site)
    requires i < |s|
    ensures v.cur == s[i] && v.size == |s| > 0
  {
    var n := |s|;
    Site(s[(i + n - 1) % n], s[i], s[(i + 1) % n], snakeLength, n)
  }

  /** A pixel position. */
  datatype Pixel = Pixel(x: int, y: int)

  /** `p = [Math.floor(cur[0] + dx), Math.floor(cur[1] + dy)]`. */
  function Candidate(cur: Point, dx: int, dy: int): Pixel {
    Pixel((cur.x + dx as real).Floor, (cur.y + dy as real).Floor)
  }

  function AsPoint(p: Pixel): Point {
    Point(p.x as real, p.y as real)
  }

  datatype Term = UniformityTerm | CurvatureTerm | LineTerm | EdgeTerm

  /** The energy term t of the candidate at window cell (a, b), i.e. offset (a - hks, b - hks). */
  function TermAt(sqrt: real -> real, t: Term, v: Site, im: Images, hks: nat, a: nat, b: nat): real
    requires IsSqrt(sqrt) && ImagesShaped(im) && v.size > 0
  {
    var p := Candidate(v.cur, a - hks, b - hks);
    match t
    case UniformityTerm => Uniformity(sqrt, v.prev, v.snakeLength, AsPoint(p), v.size)
    case CurvatureTerm => Curvature(sqrt, v.prev, AsPoint(p), v.next)
    case LineTerm => Line(p.x, p.y, im.binary, im.w, im.h)
    case EdgeTerm => Edge(p.x, p.y, im.gradX, im.gradY, im.w, im.h)
  }

  /** The four terms at cell (a, b), for the candidate px of that cell. */
  lemma TermsAt(sqrt: real -> real, v: Site, im: Images, hks: nat, a: nat, b: nat, px: Pixel)
    requires IsSqrt(sqrt) && ImagesShaped(im) && v.size > 0
    requires px == Candidate(v.cur, a - hks, b - hks)
    ensures TermAt(sqrt, UniformityTerm, v, im, hks, a, b) == Uniformity(sqrt, v.prev, v.snakeLength, AsPoint(px), v.size)
    ensures TermAt(sqrt, CurvatureTerm, v, im, hks, a, b) == Curvature(sqrt, v.prev, AsPoint(px), v.next)
    ensures TermAt(sqrt, LineTerm, v, im, hks, a, b) == Line(px.x, px.y, im.binary, im.w, im.h)
    ensures TermAt(sqrt, EdgeTerm, v, im, hks, a, b) == Edge(px.x, px.y, im.gradX, im.gradY, im.w, im.h)
  {
  }

  /** The k x k window of term t once it is filled: the m x m block of candidates, 0 elsewhere. */
  function RawWindow(sqrt: real -> real, t: Term, v: Site, im: Images, p: Params): (g: Window)
    requires IsSqrt(sqrt) && ImagesShaped(im) && v.size > 0
    ensures IsGrid(g, p.kernelSize, p.kernelSize)
  {
    var k, m := p.kernelSize, Span(p);
    seq(k, a requires 0 <= a < k =>
      seq(k, b requires 0 <= b < k => if a < m && b < m then TermAt(sqrt, t, v, im, Half(p), a, b) else 0.0))
  }

  /** Cells of g outside the top-left m x m block hold 0. */
  ghost predicate ZeroOutside(g: Window, m: nat) {
    forall r, c :: 0 <= r < |g| && 0 <= c < |g[r]| && (r >= m || c >= m) ==> g[r][c] == 0.0
  }

  /**
   * The cells outside the candidate block stay 0, so the 5 x 5 windows of
   * KASS/KASS_test.js normalise exactly as their 4 x 4 block of candidates.
   */
  lemma RawWindowSum(sqrt: real -> real, t: Term, v: Site, im: Images, p: Params)
    requires IsSqrt(sqrt) && ImagesShaped(im) && v.size > 0
    ensures var g := RawWindow(sqrt, t, v, im, p);
      ZeroOutside(g, Span(p)) && AbsSum(g) == AbsSum(Corner(g, Span(p)))
  {
    AbsSumCorner(RawWindow(sqrt, t, v, im, p), Span(p));
  }

  /** Dividing by the sum keeps the 0 cells 0. */
  lemma ScaledZeroOutside(g: Window, s: real, m: nat)
    requires s != 0.0 && ZeroOutside(g, m)
    ensures ZeroOutside(Scaled(g, s), m)
  {
  }

  // ------------------------------------------------------ the choice

  /** The four normalised windows. */
  datatype Energies = Energies(uniformity: Window, curvature: Window, line: Window, edge: Window)

  ghost predicate EnergiesShaped(ws: Energies, k: nat) {
    IsGrid(ws.uniformity, k, k) && IsGrid(ws.curvature, k, k) && IsGrid(ws.line, k, k) && IsGrid(ws.edge, k, k)
  }

  /** `e = alpha * u + beta * c + w_line * l + w_edge * e`, summed left to right from 0. */
  function Combined(p: Params, ws: Energies, a: nat, b: nat): real
    requires EnergiesShaped(ws, p.kernelSize) && a < p.kernelSize && b < p.kernelSize
  {
    0.0 + p.alpha * ws.uniformity[a][b] + p.beta * ws.curvature[a][b] + p.wLine * ws.line[a][b] + p.wEdge * ws.edge[a][b]
  }

  /** A window cell. */
  datatype Offset = Offset(a: nat, b: nat)

  /** `emin` and the cell whose `x, y` the scan holds (none: still `0, 0`). */
  datatype Best = Best(emin: real, at: Option<Offset>)

  /** `if (e < emin)`: the scan's state after visiting cell (a, b). */
  function Visit(p: Params, ws: Energies, a: nat, b: nat, best: Best): Best
    requires EnergiesShaped(ws, p.kernelSize) && a < p.kernelSize && b < p.kernelSize
  {
    var e := Combined(p, ws, a, b);
    if e < best.emin then Best(e, Some(Offset(a, b))) else best
  }

  /** The scan over cells (a, 0) .. (a, j - 1) of one row, from state best. */
  function SweepRow(p: Params, ws: Energies, a: nat, j: nat, best: Best): Best
    requires EnergiesShaped(ws, p.kernelSize) && a < p.kernelSize && j <= Span(p)
  {
    if j == 0 then best else Visit(p, ws, a, j - 1, SweepRow(p, ws, a, j - 1, best))
  }

  /** The scan over rows 0 .. i - 1, from `emin = Number.MAX_VALUE`. */
  function Sweep(p: Params, ws: Energies, i: nat): Best
    requires EnergiesShaped(ws, p.kernelSize) && i <= Span(p)
  {
    if i == 0 then Best(MaxValue, None) else SweepRow(p, ws, i - 1, Span(p), Sweep(p, ws, i - 1))
  }

  /** Cell (r, c) comes before (a, b) in the dx-major order of the scan, within columns 0 .. m - 1. */
  predicate Before(r: nat, c: nat, a: nat, b: nat, m: nat) {
    r < m && c < m && (r < a || (r == a && c < b))
  }

  /**
   * `best` is the first strict minimum below `MAX_VALUE` among the cells
   * before (a, b): no cell is lower, every earlier cell is higher; and
   * there is none exactly when every cell is at least `MAX_VALUE`.
   */
  ghost predicate FirstMinimum(p: Params, ws: Energies, best: Best, a: nat, b: nat)
    requires EnergiesShaped(ws, p.kernelSize) && a <= Span(p) && b <= Span(p)
  {
    var m := Span(p);
    (best.at.None? ==>
       best.emin == MaxValue &&
       forall r, c :: Before(r, c, a, b, m) ==> Combined(p, ws, r, c) >= MaxValue) &&
    (best.at.Some? ==>
       var o := best.at.value;
       Before(o.a, o.b, a, b, m) && best.emin == Combined(p, ws, o.a, o.b) < MaxValue &&
       forall r, c :: Before(r, c, a, b, m) ==>
         Combined(p, ws, r, c) >= best.emin && (Before(r, c, o.a, o.b, m) ==> Combined(p, ws, r, c) > best.emin))
  }

  /** Visiting one more cell keeps the state the first strict minimum. */
  lemma VisitFirst(p: Params, ws: Energies, a: nat, b: nat, best: Best)
    requires EnergiesShaped(ws, p.kernelSize) && a < Span(p) && b < Span(p)
    requires FirstMinimum(p, ws, best, a, b)
    ensures FirstMinimum(p, ws, Visit(p, ws, a, b, best), a, b + 1)
  {
    var m := Span(p);
    var next := Visit(p, ws, a, b, best);
    if next != best {
      forall r, c | Before(r, c, a, b + 1, m)
        ensures Combined(p, ws, r, c) >= next.emin && (Before(r, c, a, b, m) ==> Combined(p, ws, r, c) > next.emin)
      {
        if Before(r, c, a, b, m) {
          assert Combined(p, ws, r, c) >= best.emin;
        }
      }
    } else {
      forall r, c | Before(r, c, a, b + 1, m)
        ensures Combined(p, ws, r, c) >= next.emin
      {
        if !Before(r, c, a, b, m) {
          assert r == a && c == b;
        }
      }
    }
  }

  lemma {:induction false} SweepRowFirst(p: Params, ws: Energies, a: nat, j: nat, best: Best)
    requires EnergiesShaped(ws, p.kernelSize) && a < Span(p) && j <= Span(p)
    requires FirstMinimum(p, ws, best, a, 0)
    ensures FirstMinimum(p, ws, SweepRow(p, ws, a, j, best), a, j)
  {
    if j > 0 {
      SweepRowFirst(p, ws, a, j - 1, best);
      VisitFirst(p, ws, a, j - 1, SweepRow(p, ws, a, j - 1, best));
    }
  }

  /** A finished row is the same as the start of the next one. */
  lemma RowEnd(p: Params, ws: Energies, best: Best, a: nat)
    requires EnergiesShaped(ws, p.kernelSize) && a < Span(p)
    requires FirstMinimum(p, ws, best, a, Span(p))
    ensures FirstMinimum(p, ws, best, a + 1, 0)
  {
    var m := Span(p);
    assert forall r, c :: Before(r, c, a + 1, 0, m) <==> Before(r, c, a, m, m);
  }

  lemma {:induction false} SweepFirst(p: Params, ws: Energies, i: nat)
    requires EnergiesShaped(ws, p.kernelSize) && i <= Span(p)
    ensures FirstMinimum(p, ws, Sweep(p, ws, i), i, 0)
  {
    if i > 0 {
      SweepFirst(p, ws, i - 1);
      var before := Sweep(p, ws, i - 1);
      SweepRowFirst(p, ws, i - 1, Span(p), before);
      RowEnd(p, ws, SweepRow(p, ws, i - 1, Span(p), before), i - 1);
    }
  }

  /**
   * The scan of the whole block picks the first cell, in dx-major order,
   * of strictly least combined energy, and picks none only when every
   * candidate's energy is at least `MAX_VALUE`.
   */
  lemma SweepIsFirstMinimum(p: Params, ws: Energies)
    requires EnergiesShaped(ws, p.kernelSize)
    ensures var best, m := Sweep(p, ws, Span(p)), Span(p);
      (best.at.None? <==> forall r, c :: 0 <= r < m && 0 <= c < m ==> Combined(p, ws, r, c) >= MaxValue) &&
      (best.at.Some? ==>
         var o := best.at.value;
         o.a < m && o.b < m && Combined(p, ws, o.a, o.b) < MaxValue &&
         (forall r, c :: 0 <= r < m && 0 <= c < m ==> Combined(p, ws, o.a, o.b) <= Combined(p, ws, r, c)) &&
         (forall r, c :: 0 <= r < m && 0 <= c < m && (r < o.a || (r == o.a && c < o.b)) ==>
            Combined(p, ws, o.a, o.b) < Combined(p, ws, r, c)))
  {
    var m := Span(p);
    SweepFirst(p, ws, m);
    assert forall r: nat, c: nat :: Before(r, c, m, 0, m) <==> r < m && c < m;
  }

  // ------------------------------------------------------ the new vertex

  /** `x = cur[0] + dx` of the chosen cell, or the initial 0 when none was chosen. */
  function Chosen(cur: Point, hks: nat, best: Best): Point {
    match best.at
    case None => Point(0.0, 0.0)
    case Some(o) => Point(cur.x + (o.a - hks) as real, cur.y + (o.b - hks) as real)
  }

  /** `if (x < 1) x = 1; if (x >= width - 1) x = width - 2;`, in that order. */
  function Clamp(x: real, size: int): (r: real)
    ensures 1.0 <= x < (size - 1) as real ==> r == x
    ensures size >= 3 ==> 1.0 <= r < (size - 1) as real
  {
    var x1 := if x < 1.0 then 1.0 else x;
    if x1 >= (size - 1) as real then (size - 2) as real else x1
  }

  /** `newSnake.push([Math.floor(x), Math.floor(y)])` after clamping. */
  function Place(q: Point, w: int, h: int): Point {
    Point(Clamp(q.x, w).Floor as real, Clamp(q.y, h).Floor as real)
  }

  /** On an image of at least 3 x 3 pixels the placed vertex is an interior pixel. */
  lemma PlaceInInterior(q: Point, w: int, h: int)
    requires w >= 3 && h >= 3
    ensures var r := Place(q, w, h);
      Integral(r) && 1.0 <= r.x <= (w - 2) as real && 1.0 <= r.y <= (h - 2) as real
  {
    var cx, cy := Clamp(q.x, w), Clamp(q.y, h);
    FloorBounds(cx, w - 2);
    FloorBounds(cy, h - 2);
  }

  lemma FloorBounds(x: real, hi: int)
    requires 1.0 <= x < (hi + 1) as real
    ensures 1 <= x.Floor <= hi
  {
  }

  /** The windows of vertex i, filled and normalised, or nothing when one has absolute sum 0. */
  function WindowsOf(sqrt: real -> real, p: Params, im: Images, v: Site): (r: Option<Energies>)
    requires IsSqrt(sqrt) && ImagesShaped(im) && v.size > 0
    ensures r.Some? ==> EnergiesShaped(r.value, p.kernelSize)
  {
    var nu := Normalization(RawWindow(sqrt, UniformityTerm, v, im, p));
    var nc := Normalization(RawWindow(sqrt, CurvatureTerm, v, im, p));
    var nl := Normalization(RawWindow(sqrt, LineTerm, v, im, p));
    var ne := Normalization(RawWindow(sqrt, EdgeTerm, v, im, p));
    if nu.Undefined? || nc.Undefined? || nl.Undefined? || ne.Undefined? then None
    else
      ScaledShape(RawWindow(sqrt, UniformityTerm, v, im, p), p.kernelSize);
      ScaledShape(RawWindow(sqrt, CurvatureTerm, v, im, p), p.kernelSize);
      ScaledShape(RawWindow(sqrt, LineTerm, v, im, p), p.kernelSize);
      ScaledShape(RawWindow(sqrt, EdgeTerm, v, im, p), p.kernelSize);
      Some(Energies(nu.window, nc.window, nl.window, ne.window))
  }

  /** The windows of a vertex are missing exactly when one of the four raw windows has absolute sum 0. */
  lemma WindowsOfUndefined(sqrt: real -> real, p: Params, im: Images, v: Site)
    requires IsSqrt(sqrt) && ImagesShaped(im) && v.size > 0
    ensures WindowsOf(sqrt, p, im, v).None? <==> exists t: Term :: AbsSum(RawWindow(sqrt, t, v, im, p)) == 0.0
  {
    forall t: Term ensures AbsSum(RawWindow(sqrt, t, v, im, p)) == 0.0 ==> WindowsOf(sqrt, p, im, v).None? {
      match t
      case UniformityTerm =>
      case CurvatureTerm =>
      case LineTerm =>
      case EdgeTerm =>
    }
    if WindowsOf(sqrt, p, im, v).None? {
      if AbsSum(RawWindow(sqrt, UniformityTerm, v, im, p)) != 0.0 && AbsSum(RawWindow(sqrt, CurvatureTerm, v, im, p)) != 0.0 &&
         AbsSum(RawWindow(sqrt, LineTerm, v, im, p)) != 0.0 {
        assert AbsSum(RawWindow(sqrt, EdgeTerm, v, im, p)) == 0.0;
      }
    }
  }

  lemma ScaledShape(g: Window, k: nat)
    requires IsGrid(g, k, k) && AbsSum(g) != 0.0
    ensures IsGrid(Scaled(g, AbsSum(g)), k, k)
  {
  }

  /** Where vertex i of s goes, or nothing when `computeKASS` throws on it. */
  function NewVertex(sqrt: real -> real, p: Params, im: Images, s: Contour, snakeLength: real, i: nat): Option<Point>
    requires IsSqrt(sqrt) && ImagesShaped(im) && i < |s|
  {
    var v := SiteOf(s, snakeLength, i);
    match WindowsOf(sqrt, p, im, v)
    case None => None
    case Some(ws) => Some(Place(Chosen(v.cur, Half(p), Sweep(p, ws, Span(p))), im.w, im.h))
  }

  /** `NewVertex` by the energies of the vertex. */
  lemma NewVertexBy(sqrt: real -> real, p: Params, im: Images, s: Contour, snakeLength: real, i: nat)
    requires IsSqrt(sqrt) && ImagesShaped(im) && i < |s|
    ensures var ws := WindowsOf(sqrt, p, im, SiteOf(s, snakeLength, i));
      (ws.None? ==> NewVertex(sqrt, p, im, s, snakeLength, i) == None) &&
      (ws.Some? ==>
         NewVertex(sqrt, p, im, s, snakeLength, i) == Some(Place(Chosen(s[i], Half(p), Sweep(p, ws.value, Span(p))), im.w, im.h)))
  {
  }

  /** `NewVertex` of every vertex of s, as a function of the index. */
  function Mover(sqrt: real -> real, p: Params, im: Images, s: Contour, snakeLength: real): (f: nat -> Option<Point>)
    requires IsSqrt(sqrt) && ImagesShaped(im)
  {
    (i: nat) => if i < |s| then NewVertex(sqrt, p, im, s, snakeLength, i) else None
  }

  /** f(0), ..., f(j - 1) in order, or nothing as soon as one is missing. */
  function Gather(f: nat -> Option<Point>, j: nat): Option<seq<Point>>
    decreases j, 1
  {
    if j == 0 then Some([]) else Extend(f, j)
  }

  /** f(0), ..., f(j - 2) gathered, then f(j - 1) appended. */
  function Extend(f: nat -> Option<Point>, j: nat): Option<seq<Point>>
    requires j > 0
    decreases j, 0
  {
    match Gather(f, j - 1)
    case None => None
    case Some(front) =>
      match f(j - 1)
      case None => None
      case Some(q) => Some(front + [q])
  }

  /** A gathered list has one entry per index, each the one f gives. */
  lemma {:induction false} GatherLength(f: nat -> Option<Point>, j: nat)
    ensures var r := Gather(f, j);
      (r.Some? ==> |r.value| == j && forall i :: 0 <= i < j ==> f(i) == Some(r.value[i])) &&
      (r.None? ==> exists i :: 0 <= i < j && f(i).None?)
  {
    if j > 0 {
      assert Gather(f, j) == Extend(f, j);
      GatherLength(f, j - 1);
    }
  }

  /** `newSnake`: every vertex moved, measured against the length of the snake before the pass. */
  function NewSnake(sqrt: real -> real, p: Params, im: Images, s: Contour): Option<Contour>
    requires IsSqrt(sqrt) && ImagesShaped(im)
  {
    Gather(Mover(sqrt, p, im, s, Perimeter(sqrt, s)), |s|)
  }

  /** On an image of at least 3 x 3 pixels every moved vertex is an interior pixel. */
  lemma NewSnakeInInterior(sqrt: real -> real, p: Params, im: Images, s: Contour)
    requires IsSqrt(sqrt) && ImagesShaped(im) && im.w >= 3 && im.h >= 3
    ensures var r := NewSnake(sqrt, p, im, s);
      r.Some? ==> (|r.value| == |s| && forall i :: 0 <= i < |s| ==> InInterior(r.value[i], im))
  {
    var f := Mover(sqrt, p, im, s, Perimeter(sqrt, s));
    MoverInInterior(sqrt, p, im, s, Perimeter(sqrt, s));
    GatherInInterior(f, |s|, im);
  }

  /** Every vertex that moves lands on an interior pixel. */
  lemma MoverInInterior(sqrt: real -> real, p: Params, im: Images, s: Contour, snakeLength: real)
    requires IsSqrt(sqrt) && ImagesShaped(im) && im.w >= 3 && im.h >= 3
    ensures var f := Mover(sqrt, p, im, s, snakeLength);
      forall i :: 0 <= i < |s| && f(i).Some? ==> InInterior(f(i).value, im)
  {
    forall i | 0 <= i < |s| && Mover(sqrt, p, im, s, snakeLength)(i).Some?
      ensures InInterior(Mover(sqrt, p, im, s, snakeLength)(i).value, im)
    {
      NewVertexInInterior(sqrt, p, im, s, snakeLength, i);
    }
  }

  /** Gathering keeps a property every gathered point has. */
  lemma GatherInInterior(f: nat -> Option<Point>, j: nat, im: Images)
    requires forall i :: 0 <= i < j && f(i).Some? ==> InInterior(f(i).value, im)
    ensures var r := Gather(f, j); r.Some? ==> (|r.value| == j && forall i :: 0 <= i < j ==> InInterior(r.value[i], im))
  {
    GatherLength(f, j);
  }

  /** An integer point in [1, w - 2] x [1, h - 2]. */
  predicate InInterior(q: Point, im: Images) {
    Integral(q) && 1.0 <= q.x <= (im.w - 2) as real && 1.0 <= q.y <= (im.h - 2) as real
  }

  lemma NewVertexInInterior(sqrt: real -> real, p: Params, im: Images, s: Contour, snakeLength: real, i: nat)
    requires IsSqrt(sqrt) && ImagesShaped(im) && im.w >= 3 && im.h >= 3 && i < |s|
    ensures var q := NewVertex(sqrt, p, im, s, snakeLength, i); q.Some? ==> InInterior(q.value, im)
  {
    var ws := WindowsOf(sqrt, p, im, SiteOf(s, snakeLength, i));
    NewVertexBy(sqrt, p, im, s, snakeLength, i);
    if ws.Some? {
      PlaceInInterior(Chosen(s[i], Half(p), Sweep(p, ws.value, Span(p))), im.w, im.h);
    }
  }

  /** `computeKASS` throws exactly when, for some vertex, the four windows cannot all be normalised. */
  lemma NewSnakeUndefined(sqrt: real -> real, p: Params, im: Images, s: Contour)
    requires IsSqrt(sqrt) && ImagesShaped(im)
    ensures NewSnake(sqrt, p, im, s).None? <==>
      exists i :: 0 <= i < |s| && WindowsOf(sqrt, p, im, SiteOf(s, Perimeter(sqrt, s), i)).None?
  {
    var L := Perimeter(sqrt, s);
    GatherLength(Mover(sqrt, p, im, s, L), |s|);
    MoverUndefined(sqrt, p, im, s, L);
  }

  /** A vertex fails to move exactly when one of its windows cannot be normalised. */
  lemma MoverUndefined(sqrt: real -> real, p: Params, im: Images, s: Contour, snakeLength: real)
    requires IsSqrt(sqrt) && ImagesShaped(im)
    ensures forall i :: 0 <= i < |s| ==>
      (Mover(sqrt, p, im, s, snakeLength)(i).None? <==> WindowsOf(sqrt, p, im, SiteOf(s, snakeLength, i)).None?)
  {
    forall i | 0 <= i < |s|
      ensures Mover(sqrt, p, im, s, snakeLength)(i).None? <==> WindowsOf(sqrt, p, im, SiteOf(s, snakeLength, i)).None?
    {
      NewVertexBy(sqrt, p, im, s, snakeLength, i);
    }
  }

  /** A vertex fails to move exactly when one of its four raw windows has absolute sum 0. */
  lemma NewVertexUndefined(sqrt: real -> real, p: Params, im: Images, s: Contour, snakeLength: real, i: nat)
    requires IsSqrt(sqrt) && ImagesShaped(im) && i < |s|
    ensures NewVertex(sqrt, p, im, s, snakeLength, i).None? <==> WindowsOf(sqrt, p, im, SiteOf(s, snakeLength, i)).None?
    ensures NewVertex(sqrt, p, im, s, snakeLength, i).None? <==>
      exists t: Term :: AbsSum(RawWindow(sqrt, t, SiteOf(s, snakeLength, i), im, p)) == 0.0
  {
    WindowsOfUndefined(sqrt, p, im, SiteOf(s, snakeLength, i));
  }

  // ------------------------------------------------------ the passes

  /** `Math.abs(1 - snakeLength / getSnakelength(snake)) > 0.005`, with IEEE x / 0 (±Infinity, NaN for 0 / 0). */
  function LengthChanged(before: real, after: real): (r: bool)
    ensures r <==> Abs(after - before) > 0.005 * Abs(after)
  {
    if after == 0.0 then before != 0.0
    else
      RelativeChange(before, after);
      Abs(1.0 - before / after) > 0.005
  }

  /** `|1 - before / after|` is the change of length relative to the new length. */
  lemma RelativeChange(before: real, after: real)
    requires after != 0.0
    ensures Abs(1.0 - before / after) > 0.005 <==> Abs(after - before) > 0.005 * Abs(after)
  {
    var u := 1.0 - before / after;
    assert u * after == after - before;
    AbsProduct(u, after);
    ScaledComparison(Abs(u), 0.005, Abs(after), Abs(after - before));
  }

  lemma AbsProduct(u: real, v: real)
    ensures Abs(u) * Abs(v) == Abs(u * v)
  {
    if u < 0.0 {
      if v < 0.0 { assert Abs(u) * Abs(v) == u * v; } else { assert Abs(u) * Abs(v) == -(u * v); }
    } else {
      if v < 0.0 { assert Abs(u) * Abs(v) == -(u * v); } else { assert Abs(u) * Abs(v) == u * v; }
    }
  }

  /** Multiplying by a positive factor keeps a strict comparison. */
  lemma ScaledComparison(x: real, c: real, a: real, d: real)
    requires a > 0.0 && x * a == d
    ensures x > c <==> d > c * a
  {
    var e := x - c;
    assert d == c * a + e * a;
    if e > 0.0 {
      assert e * a > 0.0;
    } else {
      assert e * a <= 0.0;
    }
  }

  /** Whether the rebuilt snake is pushed onto `contours`. */
  function Accepted(sqrt: real -> real, rule: Acceptance, snakeLength: real, newSnake: Contour, rebuilt: Contour): bool
    requires IsSqrt(sqrt)
  {
    match rule
    case NonZeroLength => Perimeter(sqrt, rebuilt) != 0.0
    case LengthChange => Perimeter(sqrt, newSnake) != 0.0 && LengthChanged(snakeLength, Perimeter(sqrt, rebuilt))
  }

  /**
   * The settings the passes are modelled for: both variants fix the window
   * size at 4 or 5, and with a size below 2 there would be no candidates.
   */
  ghost predicate Valid(sqrt: real -> real, p: Params, im: Images) {
    IsSqrt(sqrt) && ImagesShaped(im) && p.maxDist != 0.0 && p.kernelSize >= 2
  }

  /** One pass of the outer loop: `snake = rebuild(newSnake, maxDist)`, pushed when accepted. */
  function Step(sqrt: real -> real, p: Params, im: Images, s: Contour): Option<Pass>
    requires Valid(sqrt, p, im)
  {
    match NewSnake(sqrt, p, im, s)
    case None => None
    case Some(ns) =>
      var r := Resample(sqrt, ns, p.maxDist);
      Some(Pass(r, Accepted(sqrt, p.acceptance, Perimeter(sqrt, s), ns, r)))
  }

  /** `Step` as a step function for `Runs`. */
  function Stepper(sqrt: real -> real, p: Params, im: Images): (step: Contour -> Option<Pass>)
    requires Valid(sqrt, p, im)
  {
    c => Step(sqrt, p, im, c)
  }

  /** `contours` after k passes from s, or nothing when a pass throws. */
  function Run(sqrt: real -> real, p: Params, im: Images, s: Contour, k: nat): Option<seq<Contour>>
    requires Valid(sqrt, p, im)
  {
    Recorded(Stepper(sqrt, p, im), s, k)
  }

  /** A recorded snake is made of integer points, and in KASS/KASS.js it has nonzero length. */
  predicate Recordable(sqrt: real -> real, rule: Acceptance, c: Contour)
    requires IsSqrt(sqrt)
  {
    (forall t :: 0 <= t < |c| ==> Integral(c[t])) && (rule.NonZeroLength? ==> Perimeter(sqrt, c) != 0.0)
  }

  lemma StepRecordable(sqrt: real -> real, p: Params, im: Images, s: Contour)
    requires Valid(sqrt, p, im)
    ensures var st := Step(sqrt, p, im, s);
      st.Some? ==> ((forall t :: 0 <= t < |st.value.snake| ==> Integral(st.value.snake[t])) &&
        (st.value.kept ==> Recordable(sqrt, p.acceptance, st.value.snake)))
  {
  }

  /**
   * At most one contour per pass is returned, each made of integer points,
   * and in KASS/KASS.js each of nonzero length.
   */
  lemma RunContours(sqrt: real -> real, p: Params, im: Images, s: Contour, k: nat)
    requires Valid(sqrt, p, im)
    ensures var r := Run(sqrt, p, im, s, k);
      r.Some? ==> |r.value| <= k && forall j :: 0 <= j < |r.value| ==> Recordable(sqrt, p.acceptance, r.value[j])
  {
    var step := Stepper(sqrt, p, im);
    var ok := c => Recordable(sqrt, p.acceptance, c);
    forall c | step(c).Some? && step(c).value.kept
      ensures ok(step(c).value.snake)
    {
      StepRecordable(sqrt, p, im, c);
    }
    RecordedBy(step, ok, s, k);
  }

  // ------------------------------------------------------ the loops

  /** Window e of term t holds 0 outside the block, and the term at every block cell before (a, b). */
  ghost predicate FilledTo(e: array2<real>, sqrt: real -> real, t: Term, v: Site, im: Images, p: Params, a: nat, b: nat)
    requires IsSqrt(sqrt) && ImagesShaped(im) && v.size > 0
    reads e
  {
    var k, m := p.kernelSize, Span(p);
    e.Length0 == k && e.Length1 == k &&
    (forall r, c :: 0 <= r < k && 0 <= c < k && (r >= m || c >= m) ==> e[r, c] == 0.0) &&
    (forall r: nat, c: nat :: Before(r, c, a, b, m) ==> e[r, c] == TermAt(sqrt, t, v, im, Half(p), r, c))
  }

  /** `e[hks + dx][hks + dy] = value` for the term's value at that cell. */
  method FillCell(e: array2<real>, ghost sqrt: real -> real, ghost t: Term, ghost v: Site, ghost im: Images, ghost p: Params,
                  a: nat, b: nat, value: real)
    requires IsSqrt(sqrt) && ImagesShaped(im) && v.size > 0 && a < Span(p) && b < Span(p)
    requires FilledTo(e, sqrt, t, v, im, p, a, b) && value == TermAt(sqrt, t, v, im, Half(p), a, b)
    modifies e
    ensures FilledTo(e, sqrt, t, v, im, p, a, b + 1)
  {
    e[a, b] := value;
  }

  lemma FilledRowEnd(e: array2<real>, sqrt: real -> real, t: Term, v: Site, im: Images, p: Params, a: nat)
    requires IsSqrt(sqrt) && ImagesShaped(im) && v.size > 0
    requires FilledTo(e, sqrt, t, v, im, p, a, Span(p))
    ensures FilledTo(e, sqrt, t, v, im, p, a + 1, 0)
  {
    var m := Span(p);
    assert forall r: nat, c: nat :: Before(r, c, a + 1, 0, m) ==> Before(r, c, a, m, m);
  }

  /** A window filled over the whole block is the raw window of its term. */
  lemma FilledIsRaw(e: array2<real>, sqrt: real -> real, t: Term, v: Site, im: Images, p: Params)
    requires IsSqrt(sqrt) && ImagesShaped(im) && v.size > 0
    requires FilledTo(e, sqrt, t, v, im, p, Span(p), 0)
    ensures Cells(e) == RawWindow(sqrt, t, v, im, p)
  {
    var g, raw, m := Cells(e), RawWindow(sqrt, t, v, im, p), Span(p);
    forall r | 0 <= r < p.kernelSize
      ensures g[r] == raw[r]
    {
      forall c | 0 <= c < p.kernelSize
        ensures g[r][c] == raw[r][c]
      {
        if r < m && c < m {
          assert Before(r, c, m, 0, m);
        }
      }
    }
  }

  /** The four windows are filled before cell (a, b). */
  ghost predicate AllFilledTo(sqrt: real -> real, p: Params, im: Images, v: Site,
                              eU: array2<real>, eC: array2<real>, eL: array2<real>, eE: array2<real>, a: nat, b: nat)
    requires IsSqrt(sqrt) && ImagesShaped(im) && v.size > 0
    reads eU, eC, eL, eE
  {
    FilledTo(eU, sqrt, UniformityTerm, v, im, p, a, b) && FilledTo(eC, sqrt, CurvatureTerm, v, im, p, a, b) &&
    FilledTo(eL, sqrt, LineTerm, v, im, p, a, b) && FilledTo(eE, sqrt, EdgeTerm, v, im, p, a, b)
  }

  /** The inner loop for one dx: the cells [hks + dx][hks + dy] of row a = hks + dx. */
  method FillRow(sqrt: real -> real, p: Params, im: Images, v: Site,
                 eU: array2<real>, eC: array2<real>, eL: array2<real>, eE: array2<real>, dx: int)
    requires IsSqrt(sqrt) && ImagesShaped(im) && v.size > 0
    requires eU != eC && eU != eL && eU != eE && eC != eL && eC != eE && eL != eE
    requires -(Half(p) as int) <= dx < Half(p)
    requires AllFilledTo(sqrt, p, im, v, eU, eC, eL, eE, Half(p) + dx, 0)
    modifies eU, eC, eL, eE
    ensures AllFilledTo(sqrt, p, im, v, eU, eC, eL, eE, Half(p) + dx + 1, 0)
  {
    var hks := p.kernelSize / 2;
    var a := hks + dx;
    var dy := -hks;
    while dy < hks
      invariant -hks <= dy <= hks
      invariant AllFilledTo(sqrt, p, im, v, eU, eC, eL, eE, a, hks + dy)
    {
      FillCells(sqrt, p, im, v, eU, eC, eL, eE, dx, dy);
      dy := dy + 1;
    }
    FilledRowEnd(eU, sqrt, UniformityTerm, v, im, p, a);
    FilledRowEnd(eC, sqrt, CurvatureTerm, v, im, p, a);
    FilledRowEnd(eL, sqrt, LineTerm, v, im, p, a);
    FilledRowEnd(eE, sqrt, EdgeTerm, v, im, p, a);
  }

  /** The body of the inner loop: candidate `floor(cur + (dx, dy))` and its four terms. */
  method FillCells(sqrt: real -> real, p: Params, im: Images, v: Site,
                   eU: array2<real>, eC: array2<real>, eL: array2<real>, eE: array2<real>, dx: int, dy: int)
    requires IsSqrt(sqrt) && ImagesShaped(im) && v.size > 0
    requires eU != eC && eU != eL && eU != eE && eC != eL && eC != eE && eL != eE
    requires -(Half(p) as int) <= dx < Half(p) && -(Half(p) as int) <= dy < Half(p)
    requires AllFilledTo(sqrt, p, im, v, eU, eC, eL, eE, Half(p) + dx, Half(p) + dy)
    modifies eU, eC, eL, eE
    ensures AllFilledTo(sqrt, p, im, v, eU, eC, eL, eE, Half(p) + dx, Half(p) + dy + 1)
  {
    var hks := p.kernelSize / 2;
    var a, b := hks + dx, hks + dy;
    var px := Candidate(v.cur, dx, dy);
    TermsAt(sqrt, v, im, hks, a, b, px);
    FillCell(eU, sqrt, UniformityTerm, v, im, p, a, b, Uniformity(sqrt, v.prev, v.snakeLength, AsPoint(px), v.size));
    FillCell(eC, sqrt, CurvatureTerm, v, im, p, a, b, Curvature(sqrt, v.prev, AsPoint(px), v.next));
    FillCell(eL, sqrt, LineTerm, v, im, p, a, b, Line(px.x, px.y, im.binary, im.w, im.h));
    FillCell(eE, sqrt, EdgeTerm, v, im, p, a, b, Edge(px.x, px.y, im.gradX, im.gradY, im.w, im.h));
  }

  /**
   * The filling loops of one vertex: for dx, dy in [-hks, hks) the
   * candidate `p = floor(cur + d)` and its four terms go to cell
   * [hks + dx][hks + dy] of the four windows.
   */
  method FillWindows(sqrt: real -> real, p: Params, im: Images, v: Site,
                     eU: array2<real>, eC: array2<real>, eL: array2<real>, eE: array2<real>)
    requires IsSqrt(sqrt) && ImagesShaped(im) && v.size > 0
    requires eU != eC && eU != eL && eU != eE && eC != eL && eC != eE && eL != eE
    requires AllFilledTo(sqrt, p, im, v, eU, eC, eL, eE, 0, 0)
    modifies eU, eC, eL, eE
    ensures Cells(eU) == RawWindow(sqrt, UniformityTerm, v, im, p)
    ensures Cells(eC) == RawWindow(sqrt, CurvatureTerm, v, im, p)
    ensures Cells(eL) == RawWindow(sqrt, LineTerm, v, im, p)
    ensures Cells(eE) == RawWindow(sqrt, EdgeTerm, v, im, p)
  {
    var hks := p.kernelSize / 2;
    var dx := -hks;
    while dx < hks
      invariant -hks <= dx <= hks
      invariant AllFilledTo(sqrt, p, im, v, eU, eC, eL, eE, hks + dx, 0)
    {
      FillRow(sqrt, p, im, v, eU, eC, eL, eE, dx);
      dx := dx + 1;
    }
    FilledIsRaw(eU, sqrt, UniformityTerm, v, im, p);
    FilledIsRaw(eC, sqrt, CurvatureTerm, v, im, p);
    FilledIsRaw(eL, sqrt, LineTerm, v, im, p);
    FilledIsRaw(eE, sqrt, EdgeTerm, v, im, p);
  }

  /** The four arrays are k x k. */
  predicate WindowArrays(eU: array2<real>, eC: array2<real>, eL: array2<real>, eE: array2<real>, k: nat) {
    eU.Length0 == eU.Length1 == k && eC.Length0 == eC.Length1 == k &&
    eL.Length0 == eL.Length1 == k && eE.Length0 == eE.Length1 == k
  }

  /** The four arrays as the windows of `Combined`. */
  function EnergiesOf(eU: array2<real>, eC: array2<real>, eL: array2<real>, eE: array2<real>): Energies
    reads eU, eC, eL, eE
  {
    Energies(Cells(eU), Cells(eC), Cells(eL), Cells(eE))
  }

  /** The arrays hold the energies ws cell by cell. */
  ghost predicate Holds(eU: array2<real>, eC: array2<real>, eL: array2<real>, eE: array2<real>, ws: Energies, k: nat)
    reads eU, eC, eL, eE
  {
    WindowArrays(eU, eC, eL, eE, k) && EnergiesShaped(ws, k) &&
    forall a, b :: 0 <= a < k && 0 <= b < k ==>
      eU[a, b] == ws.uniformity[a][b] && eC[a, b] == ws.curvature[a][b] &&
      eL[a, b] == ws.line[a][b] && eE[a, b] == ws.edge[a][b]
  }

  /** k x k arrays hold their own contents. */
  lemma HoldsCells(eU: array2<real>, eC: array2<real>, eL: array2<real>, eE: array2<real>, k: nat)
    requires WindowArrays(eU, eC, eL, eE, k)
    ensures Holds(eU, eC, eL, eE, EnergiesOf(eU, eC, eL, eE), k)
  {
  }

  /** The energy of the candidate (a, b), read from the arrays as the source does. */
  method EnergyAt(p: Params, eU: array2<real>, eC: array2<real>, eL: array2<real>, eE: array2<real>,
                  ghost ws: Energies, a: nat, b: nat)
    returns (e: real)
    requires Holds(eU, eC, eL, eE, ws, p.kernelSize) && a < p.kernelSize && b < p.kernelSize
    ensures e == Combined(p, ws, a, b)
  {
    e := 0.0;
    e := e + p.alpha * eU[a, b];
    e := e + p.beta * eC[a, b];
    e := e + p.wLine * eL[a, b];
    e := e + p.wEdge * eE[a, b];
  }

  /** The inner selection loop, over dy, for one dx. */
  method ScanRow(p: Params, eU: array2<real>, eC: array2<real>, eL: array2<real>, eE: array2<real>, ghost ws: Energies,
                 cur: Point, dx: int, emin0: real, x0: real, y0: real, ghost at0: Option<Offset>)
    returns (emin: real, x: real, y: real, ghost at: Option<Offset>)
    requires Holds(eU, eC, eL, eE, ws, p.kernelSize)
    requires -(Half(p) as int) <= dx < Half(p)
    requires Point(x0, y0) == Chosen(cur, Half(p), Best(emin0, at0))
    ensures Best(emin, at) == SweepRow(p, ws, Half(p) + dx, Span(p), Best(emin0, at0))
    ensures Point(x, y) == Chosen(cur, Half(p), Best(emin, at))
    ensures Best(emin0, at0) == Sweep(p, ws, Half(p) + dx) ==> Best(emin, at) == Sweep(p, ws, Half(p) + dx + 1)
  {
    var hks := p.kernelSize / 2;
    emin, x, y, at := emin0, x0, y0, at0;
    var dy := -hks;
    while dy < hks
      invariant -hks <= dy <= hks
      invariant Best(emin, at) == SweepRow(p, ws, hks + dx, hks + dy, Best(emin0, at0))
      invariant Point(x, y) == Chosen(cur, hks, Best(emin, at))
    {
      var e := EnergyAt(p, eU, eC, eL, eE, ws, hks + dx, hks + dy);
      if e < emin {
        emin := e;
        x := cur.x + dx as real;
        y := cur.y + dy as real;
        at := Some(Offset(hks + dx, hks + dy));
      }
      dy := dy + 1;
    }
  }

  /**
   * The selection loops of one vertex: the first offset of strictly least
   * energy below `Number.MAX_VALUE` gives `x = cur[0] + dx`, `y = cur[1] + dy`
   * (both 0 when there is none), which are clamped and floored.
   */
  method SelectVertex(p: Params, eU: array2<real>, eC: array2<real>, eL: array2<real>, eE: array2<real>,
                      ghost ws: Energies, cur: Point, w: int, h: int) returns (q: Point)
    requires Holds(eU, eC, eL, eE, ws, p.kernelSize)
    ensures q == Place(Chosen(cur, Half(p), Sweep(p, ws, Span(p))), w, h)
  {
    var hks := p.kernelSize / 2;
    var emin := MaxValue;
    var x, y := 0.0, 0.0;
    ghost var at: Option<Offset> := None;
    var dx := -hks;
    while dx < hks
      invariant -hks <= dx <= hks
      invariant Best(emin, at) == Sweep(p, ws, hks + dx)
      invariant Point(x, y) == Chosen(cur, hks, Best(emin, at))
    {
      emin, x, y, at := ScanRow(p, eU, eC, eL, eE, ws, cur, dx, emin, x, y, at);
      dx := dx + 1;
    }
    assert hks + dx == Span(p) && hks == Half(p);
    q := Clamped(x, y, w, h);
  }

  /** The clamping `if`s, then `[Math.floor(x), Math.floor(y)]`. */
  method Clamped(x0: real, y0: real, w: int, h: int) returns (q: Point)
    ensures q == Place(Point(x0, y0), w, h)
  {
    var x, y := x0, y0;
    if x < 1.0 { x := 1.0; }
    if x >= (w - 1) as real { x := (w - 2) as real; }
    if y < 1.0 { y := 1.0; }
    if y >= (h - 1) as real { y := (h - 2) as real; }
    q := Point(x.Floor as real, y.Floor as real);
  }

  /** The four window arrays are distinct k x k arrays holding 0 outside the candidate block. */
  ghost predicate Ready(p: Params, eU: array2<real>, eC: array2<real>, eL: array2<real>, eE: array2<real>)
    reads eU, eC, eL, eE
  {
    WindowArrays(eU, eC, eL, eE, p.kernelSize) &&
    eU != eC && eU != eL && eU != eE && eC != eL && eC != eE && eL != eE &&
    ZeroOutside(Cells(eU), Span(p)) && ZeroOutside(Cells(eC), Span(p)) &&
    ZeroOutside(Cells(eL), Span(p)) && ZeroOutside(Cells(eE), Span(p))
  }

  /** A k x k array that is 0 outside the block is filled before cell (0, 0). */
  lemma ReadyFilled(e: array2<real>, sqrt: real -> real, t: Term, v: Site, im: Images, p: Params)
    requires IsSqrt(sqrt) && ImagesShaped(im) && v.size > 0
    requires e.Length0 == e.Length1 == p.kernelSize && ZeroOutside(Cells(e), Span(p))
    ensures FilledTo(e, sqrt, t, v, im, p, 0, 0)
  {
    var g, k, m := Cells(e), p.kernelSize, Span(p);
    forall r, c | 0 <= r < k && 0 <= c < k && (r >= m || c >= m)
      ensures e[r, c] == 0.0
    {
      assert g[r][c] == e[r, c];
    }
  }

  /** `normalize` keeps the 0 cells outside the block 0, whether or not it succeeds. */
  lemma NormalizedReady(g: Window, m: nat, after: Window)
    requires ZeroOutside(g, m)
    requires after == g || (Normalization(g).Normal? && after == Normalization(g).window)
    ensures ZeroOutside(after, m)
  {
    if after != g {
      ScaledZeroOutside(g, AbsSum(g), m);
    }
  }

  /**
   * The body of the vertex loop: the neighbours of vertex i, the filling
   * loops, the four `normalize` calls and the selection. A window that
   * `normalize` leaves `undefined` makes the next read throw; the result is
   * then nothing.
   */
  method PlaceVertex(sqrt: real -> real, p: Params, im: Images, snake: Contour, snakeLength: real, i: nat,
                     eU: array2<real>, eC: array2<real>, eL: array2<real>, eE: array2<real>)
    returns (q: Option<Point>)
    requires IsSqrt(sqrt) && ImagesShaped(im) && i < |snake|
    requires Ready(p, eU, eC, eL, eE)
    modifies eU, eC, eL, eE
    ensures Ready(p, eU, eC, eL, eE)
    ensures q == NewVertex(sqrt, p, im, snake, snakeLength, i)
  {
    var n := |snake|;
    var prev := snake[(i + n - 1) % n];
    var cur := snake[i];
    var next := snake[(i + 1) % n];
    var v := Site(prev, cur, next, snakeLength, n);
    assert v == SiteOf(snake, snakeLength, i);
    var ok := PrepareWindows(sqrt, p, im, v, eU, eC, eL, eE);
    NewVertexBy(sqrt, p, im, snake, snakeLength, i);
    if ok {
      HoldsCells(eU, eC, eL, eE, p.kernelSize);
      var x := SelectVertex(p, eU, eC, eL, eE, EnergiesOf(eU, eC, eL, eE), cur, im.w, im.h);
      q := Some(x);
    } else {
      q := None;
    }
  }

  /**
   * The filling loops and the four `normalize` calls for the vertex at site
   * v: the arrays end up holding its energies, when it has them.
   */
  method PrepareWindows(sqrt: real -> real, p: Params, im: Images, v: Site,
                        eU: array2<real>, eC: array2<real>, eL: array2<real>, eE: array2<real>)
    returns (ok: bool)
    requires IsSqrt(sqrt) && ImagesShaped(im) && v.size > 0
    requires Ready(p, eU, eC, eL, eE)
    modifies eU, eC, eL, eE
    ensures Ready(p, eU, eC, eL, eE)
    ensures ok <==> WindowsOf(sqrt, p, im, v).Some?
    ensures ok ==> WindowsOf(sqrt, p, im, v) == Some(EnergiesOf(eU, eC, eL, eE))
  {
    ReadyFilled(eU, sqrt, UniformityTerm, v, im, p);
    ReadyFilled(eC, sqrt, CurvatureTerm, v, im, p);
    ReadyFilled(eL, sqrt, LineTerm, v, im, p);
    ReadyFilled(eE, sqrt, EdgeTerm, v, im, p);
    FillWindows(sqrt, p, im, v, eU, eC, eL, eE);
    ghost var rU, rC, rL, rE := Cells(eU), Cells(eC), Cells(eL), Cells(eE);
    RawWindowsZero(sqrt, p, im, v, rU, rC, rL, rE);
    ok := NormalizeWindows(eU, eC, eL, eE, Span(p));
    WindowsOfRaw(sqrt, p, im, v, rU, rC, rL, rE);
  }

  /**
   * The four `normalize` calls. Each window is normalised in turn, whether
   * or not an earlier one came out `undefined`.
   */
  method NormalizeWindows(eU: array2<real>, eC: array2<real>, eL: array2<real>, eE: array2<real>, ghost m: nat)
    returns (ok: bool)
    requires eU != eC && eU != eL && eU != eE && eC != eL && eC != eE && eL != eE
    requires ZeroOutside(Cells(eU), m) && ZeroOutside(Cells(eC), m)
    requires ZeroOutside(Cells(eL), m) && ZeroOutside(Cells(eE), m)
    modifies eU, eC, eL, eE
    ensures ZeroOutside(Cells(eU), m) && ZeroOutside(Cells(eC), m)
    ensures ZeroOutside(Cells(eL), m) && ZeroOutside(Cells(eE), m)
    ensures ok <==> Normalization(old(Cells(eU))).Normal? && Normalization(old(Cells(eC))).Normal? &&
                    Normalization(old(Cells(eL))).Normal? && Normalization(old(Cells(eE))).Normal?
    ensures ok ==> Cells(eU) == Normalization(old(Cells(eU))).window && Cells(eC) == Normalization(old(Cells(eC))).window &&
                   Cells(eL) == Normalization(old(Cells(eL))).window && Cells(eE) == Normalization(old(Cells(eE))).window
  {
    ghost var rU, rC, rL, rE := Cells(eU), Cells(eC), Cells(eL), Cells(eE);
    var okU := Normalize(eU);
    ghost var gU := Cells(eU);
    var okC := Normalize(eC);
    ghost var gC := Cells(eC);
    var okL := Normalize(eL);
    ghost var gL := Cells(eL);
    var okE := Normalize(eE);
    ghost var gE := Cells(eE);
    assert Cells(eU) == gU && Cells(eC) == gC && Cells(eL) == gL;
    NormalizedReady(rU, m, gU);
    NormalizedReady(rC, m, gC);
    NormalizedReady(rL, m, gL);
    NormalizedReady(rE, m, gE);
    ok := okU && okC && okL && okE;
  }

  /** The four filled windows are 0 outside the block of candidates. */
  lemma RawWindowsZero(sqrt: real -> real, p: Params, im: Images, v: Site, rU: Window, rC: Window, rL: Window, rE: Window)
    requires IsSqrt(sqrt) && ImagesShaped(im) && v.size > 0
    requires rU == RawWindow(sqrt, UniformityTerm, v, im, p) && rC == RawWindow(sqrt, CurvatureTerm, v, im, p)
    requires rL == RawWindow(sqrt, LineTerm, v, im, p) && rE == RawWindow(sqrt, EdgeTerm, v, im, p)
    ensures ZeroOutside(rU, Span(p)) && ZeroOutside(rC, Span(p)) && ZeroOutside(rL, Span(p)) && ZeroOutside(rE, Span(p))
  {
    RawWindowSum(sqrt, UniformityTerm, v, im, p);
    RawWindowSum(sqrt, CurvatureTerm, v, im, p);
    RawWindowSum(sqrt, LineTerm, v, im, p);
    RawWindowSum(sqrt, EdgeTerm, v, im, p);
  }

  /** The energies of a vertex, from its four filled windows. */
  lemma WindowsOfRaw(sqrt: real -> real, p: Params, im: Images, v: Site, rU: Window, rC: Window, rL: Window, rE: Window)
    requires IsSqrt(sqrt) && ImagesShaped(im) && v.size > 0
    requires rU == RawWindow(sqrt, UniformityTerm, v, im, p) && rC == RawWindow(sqrt, CurvatureTerm, v, im, p)
    requires rL == RawWindow(sqrt, LineTerm, v, im, p) && rE == RawWindow(sqrt, EdgeTerm, v, im, p)
    ensures var nu, nc, nl, ne := Normalization(rU), Normalization(rC), Normalization(rL), Normalization(rE);
      (WindowsOf(sqrt, p, im, v).None? <==> nu.Undefined? || nc.Undefined? || nl.Undefined? || ne.Undefined?) &&
      (nu.Normal? && nc.Normal? && nl.Normal? && ne.Normal? ==>
         WindowsOf(sqrt, p, im, v) == Some(Energies(nu.window, nc.window, nl.window, ne.window)))
  {
  }

  /** Once a vertex is missing, every longer gathering is missing. */
  lemma {:induction false} GatherNone(f: nat -> Option<Point>, i: nat, j: nat)
    requires i <= j && Gather(f, i).None?
    decreases j - i
    ensures Gather(f, j).None?
  {
    if i < j {
      GatherNone(f, i, j - 1);
      assert Gather(f, j) == Extend(f, j);
    }
  }

  /** The vertex loop: `newSnake` from every vertex of the snake, or nothing when one throws. */
  method MoveSnake(sqrt: real -> real, p: Params, im: Images, snake: Contour, snakeLength: real,
                   eU: array2<real>, eC: array2<real>, eL: array2<real>, eE: array2<real>)
    returns (r: Option<Contour>)
    requires IsSqrt(sqrt) && ImagesShaped(im)
    requires Ready(p, eU, eC, eL, eE)
    modifies eU, eC, eL, eE
    ensures r == Gather(Mover(sqrt, p, im, snake, snakeLength), |snake|)
  {
    ghost var f := Mover(sqrt, p, im, snake, snakeLength);
    var newSnake := [];
    var i := 0;
    while i < |snake|
      invariant 0 <= i <= |snake| && Ready(p, eU, eC, eL, eE)
      invariant Gather(f, i) == Some(newSnake)
    {
      var q := PlaceVertex(sqrt, p, im, snake, snakeLength, i, eU, eC, eL, eE);
      assert f(i) == q;
      assert Gather(f, i + 1) == Extend(f, i + 1);
      if q.None? {
        GatherNone(f, i + 1, |snake|);
        return None;
      }
      newSnake := newSnake + [q.value];
      i := i + 1;
    }
    r := Some(newSnake);
  }

  /** Fresh all-zero windows are ready. */
  lemma ZeroReady(p: Params, eU: array2<real>, eC: array2<real>, eL: array2<real>, eE: array2<real>)
    requires WindowArrays(eU, eC, eL, eE, p.kernelSize)
    requires eU != eC && eU != eL && eU != eE && eC != eL && eC != eE && eL != eE
    requires forall i, j :: 0 <= i < p.kernelSize && 0 <= j < p.kernelSize ==>
      eU[i, j] == 0.0 && eC[i, j] == 0.0 && eL[i, j] == 0.0 && eE[i, j] == 0.0
    ensures Ready(p, eU, eC, eL, eE)
  {
  }

  /** Whether a pass records its rebuilt snake, measured as the source does. */
  method Accept(sqrt: real -> real, rule: Acceptance, snakeLength: real, newSnake: Contour, rebuilt: Contour)
    returns (kept: bool)
    requires IsSqrt(sqrt)
    ensures kept == Accepted(sqrt, rule, snakeLength, newSnake, rebuilt)
  {
    match rule
    case NonZeroLength =>
      var l := GetSnakeLength(sqrt, rebuilt);
      kept := l != 0.0;
    case LengthChange =>
      var l0 := GetSnakeLength(sqrt, newSnake);
      if l0 != 0.0 {
        var l1 := GetSnakeLength(sqrt, rebuilt);
        kept := LengthChanged(snakeLength, l1);
      } else {
        kept := false;
      }
  }

  /**
   * The body of the outer loop: measure the snake, allocate the four
   * windows, move every vertex, rebuild with `maxDist` and decide whether
   * the rebuilt snake is recorded.
   */
  method OnePass(sqrt: real -> real, p: Params, im: Images, snake: Contour) returns (r: Option<Pass>)
    requires Valid(sqrt, p, im)
    ensures r == Step(sqrt, p, im, snake)
  {
    var snakeLength := GetSnakeLength(sqrt, snake);
    var k := p.kernelSize;
    var eU := ZeroWindow(k);
    var eC := ZeroWindow(k);
    var eL := ZeroWindow(k);
    var eE := ZeroWindow(k);
    ZeroReady(p, eU, eC, eL, eE);
    var newSnake := MoveSnake(sqrt, p, im, snake, snakeLength, eU, eC, eL, eE);
    if newSnake.None? {
      return None;
    }
    var tmp := CubicInterpolation(sqrt, newSnake.value, p.maxDist);
    var kept := Accept(sqrt, p.acceptance, snakeLength, newSnake.value, tmp);
    r := Some(Pass(tmp, kept));
  }

  /**
   * One pass of the outer loop, seen against the whole run from s0: the run
   * fails when the pass throws, and otherwise goes on from the snake it leaves.
   */
  method Advance(sqrt: real -> real, p: Params, im: Images, ghost s0: Contour, ghost total: nat,
                 ghost done: seq<Contour>, snake: Contour, ghost left: nat)
    returns (r: Option<Pass>)
    requires Valid(sqrt, p, im) && 0 < left
    requires Run(sqrt, p, im, s0, total) == After(done, Run(sqrt, p, im, snake, left))
    ensures r.None? ==> Run(sqrt, p, im, s0, total) == None
    ensures r.Some? && r.value.kept ==>
      Run(sqrt, p, im, s0, total) == After(done + [r.value.snake], Run(sqrt, p, im, r.value.snake, left - 1))
    ensures r.Some? && !r.value.kept ==>
      Run(sqrt, p, im, s0, total) == After(done, Run(sqrt, p, im, r.value.snake, left - 1))
  {
    r := OnePass(sqrt, p, im, snake);
    RecordedAdvance(Stepper(sqrt, p, im), s0, total, done, snake, left, r);
  }

  /**
   * The outer loop of `computeKASS`: `it` passes from `initPoints`; the
   * result lists the recorded snakes, or is nothing when a pass throws.
   */
  method Compute(sqrt: real -> real, p: Params, im: Images, initPoints: Contour) returns (r: Option<seq<Contour>>)
    requires Valid(sqrt, p, im)
    ensures r == Run(sqrt, p, im, initPoints, Iterations(p.it))
  {
    ghost var total := Iterations(p.it);
    var contours: seq<Contour> := [];
    var snake := initPoints;
    var i := 0;
    ghost var left := total;
    RecordedEnds(Stepper(sqrt, p, im), snake, total, contours);
    while i < p.it
      invariant 0 <= i <= total && left == total - i
      invariant Run(sqrt, p, im, initPoints, total) == After(contours, Run(sqrt, p, im, snake, left))
    {
      var pass := Advance(sqrt, p, im, initPoints, total, contours, snake, left);
      if pass.None? {
        return None;
      }
      snake := pass.value.snake;
      if pass.value.kept {
        contours := contours + [snake];
      }
      left := left - 1;
      i := i + 1;
    }
    RecordedEnds(Stepper(sqrt, p, im), snake, total, contours);
    r := Some(contours);
  }
}
