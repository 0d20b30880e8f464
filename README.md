# Active-contour engine of the OHIF contour tool, in Dafny

This project models the two deformable-contour ("snake") engines of the
OHIF contour tool and proves properties of the model. The engines live under
`extensions/cornerstone/src/ohif-contour-tool/src/active-contour/`.

- **The flow snake** (`ACM/ACM.js`, and its variant `KASS/ACM.js`).
  - It turns an image into a flow field: a Sobel edge map, a threshold, a
    chamfer distance transform and its normalised gradient.
  - Each pass moves every vertex along that flow. Vertices on or beyond the
    image border are removed.
  - The snake is then re-spaced: a vertex is kept, dropped, or replaced by
    the midpoints of its two edges, depending on the summed length of those
    edges.
  - `ACM/ACM.js` records a cubic B-spline resampling of each pass and stops
    with no result when a rebuilt snake has length 0. `KASS/ACM.js` records
    every re-spaced snake and never stops early.
- **The greedy Kass snake** (`computeKASS` of `KASS/KASS.js`, and its variant
  `KASS/KASS_test.js`).
  - For every vertex it fills four small energy windows over the candidate
    pixels around the vertex: uniformity, curvature, line and edge.
  - It normalises each window by its absolute sum and moves the vertex to the
    first candidate of least weighted energy, clamped to the image interior.
  - It resamples the new snake with the same cubic B-spline (`rebuild`) and
    records it when it passes the variant's acceptance test.

## Layout

| file | module | source |
|---|---|---|
| wrappers.dfy | `Wrappers` | — (Option) |
| geometry.dfy | `Geometry` | points, `dist` and the squared `distance` |
| grids.dfy | `Grids` | `init2DArray` of `ACM/utils.js` and its copies under `KASS/`, grid shapes |
| contours.dfy | `Contours` | `getSnakelength`, cyclic indices, arc lengths |
| preprocessing.dfy | `Preprocessing` | `thresholding`, `Sobel`, `countGradient` of `ACM/preprocessing.js` |
| chamfer.dfy | `Chamfer` | `ChamferDistance` of `ACM/ChamferDistance.js` and of `KASS/ACM.js` |
| movement.dfy | `Movement` | the flow step of `loop`, the `v \|\| d` defaults |
| respacing.dfy | `Respacing` | `rebuild(maxLen, minLen, snake)` of `ACM/ACM.js` and the inline copy in `KASS/ACM.js` |
| resampling.dfy | `Resampling` | `cubicInterpolation` / `rebuild(snake, maxlen)` |
| runs.dfy | `Runs` | the outer loops, as iterations of one pass |
| acm.dfy | `Acm` | class `ACM` of `ACM/ACM.js` (class `FlowSnake`) |
| kass_acm.dfy | `KassAcm` | class `ACM` of `KASS/ACM.js` (class `FlowSnake`) |
| energy.dfy | `Energy` | `f_uniformity`, `f_curvature`, `f_line`, `f_edge`, `normalize` |
| greedy.dfy | `Greedy` | the passes of `computeKASS`, shared by both variants |
| kass.dfy | `Kass` | `computeKASS` of `KASS/KASS.js` |
| kass_test.dfy | `KassTest` | `computeKASS` of `KASS/KASS_test.js` |
| bounds.dfy | `Bounds` | `getBoundingBox` of `KASS/utils.js` |

## How the model is built

**Form of the model**
- The source's loops are methods with `while` loops. Each is proved against a
  specification function, and the properties are proved about those
  functions as lemmas.
- Grids that are only read are `seq<seq<int>>` values. Grids updated in place
  are `array2`: the chamfer distance grid, the energy windows and the
  `Float32Array` flow fields.
- The two `ACM` classes are Dafny classes. `snake` and `contours` are the
  fields that `loop` updates.

**Orientation of the grids**
- The chamfer grids are column-major (`g[x][y]`), as in the source.
- Images are row-major (`image[y][x]`).

**Numbers**
- Coordinates and energies are `real`. `Math.sqrt` is a parameter `sqrt`,
  constrained by `Geometry.IsSqrt` to be the non-negative square root.
- `Number.MAX_VALUE` is the constant `Energy.MaxValue`.
- `Math.floor(Math.sqrt(n))` on an integer is `Preprocessing.Isqrt`.
- `~~v` is truncation toward zero (`Movement.Trunc`).

**Errors and falsy defaults**
- A `normalize` of a window whose absolute sum is 0 returns `undefined` in
  the source, and the next read of that window throws. The model returns
  `None` and the whole computation returns `None`.
- Every `configValues.k || d` is `Movement.OrDefault`: a missing setting or a
  0 takes the default.

**Following the code where it differs from its description**
- `KASS/KASS.js` and `KASS/KASS_test.js` import `thresholding`,
  `countGradient`, `Sobel` and `Gauss` from `./preprocessing`. However,
  `KASS/preprocessing.js` exports only `init2DArray` and `dist`.
  - The model uses the definitions of `ACM/preprocessing.js`, the only ones
    in the repository.
- The Sobel `sy` adds `p10` twice and never reads `p20`. It is modelled as
  written, and `Preprocessing.SobelNotTransposeSymmetric` exhibits a window
  on which this makes the magnitude differ from that of its transpose.
- The 5 x 5 windows of `KASS/KASS_test.js` take offsets in [-2, 2), so only
  their top-left 4 x 4 block is ever written. The model proves that the
  fifth row and column stay 0 and do not change the normalisation.
- Vertices on the border are dropped by the flow step, not frozen.

## Model

| member | source | states |
|---|---|---|
| Geometry.Dist | extensions/cornerstone/src/ohif-contour-tool/src/active-contour/ACM/utils.js:12-16 | `dist(a, b)` is never negative; it is the non-negative root of dx² + dy² |
| Geometry.DistSquared | extensions/cornerstone/src/ohif-contour-tool/src/active-contour/KASS/preprocessing.js:13-15 | the square of `dist(a, b)` is exactly dx² + dy² |
| Geometry.DistSymmetric | extensions/cornerstone/src/ohif-contour-tool/src/active-contour/KASS/utils.js:12-16 | `dist(a, b) == dist(b, a)` |
| Geometry.DistZeroIff | extensions/cornerstone/src/ohif-contour-tool/src/active-contour/KASS/preprocessing.js:12-16 | `dist(a, b)` is 0 exactly when a and b are the same point (both directions) |
| Geometry.SqDistSymmetric | extensions/cornerstone/src/ohif-contour-tool/src/active-contour/KASS/ACM.js:67-71 | the squared `distance` of KASS/ACM.js is symmetric |
| Geometry.SqDistPositive | extensions/cornerstone/src/ohif-contour-tool/src/active-contour/KASS/ACM.js:67-71 | two distinct points are at a positive squared `distance` |
| Grids.Init2DArray | extensions/cornerstone/src/ohif-contour-tool/src/active-contour/ACM/utils.js:1-10 | the result has `rows` rows of exactly `columns` entries, all 0 (the same helper is copied in KASS/utils.js:1-10 and KASS/preprocessing.js:1-10) |
| Chamfer.Init2DArray | extensions/cornerstone/src/ohif-contour-tool/src/active-contour/ACM/ChamferDistance.js:10-16 | a fresh w x h array indexed [x, y], every cell 0 |
| Contours.GetSnakeLength | extensions/cornerstone/src/ohif-contour-tool/src/active-contour/ACM/ACM.js:110-118 | the accumulating loop returns the closed-polygon perimeter, which is never negative |
| Contours.PrefixLengthMonotone | extensions/cornerstone/src/ohif-contour-tool/src/active-contour/ACM/utils.js:20-26 | the running arc lengths `clength[i]` never decrease with i |
| Contours.PerimeterRotationInvariant | extensions/cornerstone/src/ohif-contour-tool/src/active-contour/ACM/ACM.js:110-118 | moving the first vertex to the end does not change the snake length |
| Contours.PerimeterZeroIff | extensions/cornerstone/src/ohif-contour-tool/src/active-contour/KASS/KASS.js:174-182 | the length is 0 exactly when all vertices coincide, the empty snake and a single point included (both directions) |
| Preprocessing.Binarize | extensions/cornerstone/src/ohif-contour-tool/src/active-contour/ACM/preprocessing.js:8-12 | each cell is 0 or 1, and 1 exactly when `image > threshold` differs from `inv` |
| Preprocessing.InvertedIsComplement | extensions/cornerstone/src/ohif-contour-tool/src/active-contour/ACM/preprocessing.js:8-12 | with `inv` set every cell is 1 minus the uninverted cell |
| Preprocessing.ThresholdAntitone | extensions/cornerstone/src/ohif-contour-tool/src/active-contour/ACM/preprocessing.js:11 | raising the threshold never turns a 0 cell into 1 |
| Preprocessing.Thresholding | extensions/cornerstone/src/ohif-contour-tool/src/active-contour/ACM/preprocessing.js:4-16 | the result is an h x w grid whose cell [y][x] is the binarised `image[y][x]` |
| Preprocessing.Isqrt | extensions/cornerstone/src/ohif-contour-tool/src/active-contour/ACM/preprocessing.js:76 | `Math.floor(Math.sqrt(n))` for an integer n: the r with r² <= n < (r+1)² |
| Preprocessing.IsqrtUnique | extensions/cornerstone/src/ohif-contour-tool/src/active-contour/ACM/preprocessing.js:76 | any r with r² <= n < (r+1)² is that integer root |
| Preprocessing.SobelAt | extensions/cornerstone/src/ohif-contour-tool/src/active-contour/ACM/preprocessing.js:66-76 | the magnitude is the integer square root of sx² + sy², with `sy` as written (`p10` twice, no `p20`) |
| Preprocessing.Sobel | extensions/cornerstone/src/ohif-contour-tool/src/active-contour/ACM/preprocessing.js:61-84 | inner cells hold the magnitude of the 3 x 3 window around them; the outer ring stays 0 |
| Preprocessing.SobelOfConstant | extensions/cornerstone/src/ohif-contour-tool/src/active-contour/ACM/preprocessing.js:66-78 | a constant window has magnitude 0 |
| Preprocessing.SobelShiftInvariant | extensions/cornerstone/src/ohif-contour-tool/src/active-contour/ACM/preprocessing.js:66-76 | adding a constant to the image does not change any magnitude |
| Preprocessing.SobelNegationInvariant | extensions/cornerstone/src/ohif-contour-tool/src/active-contour/ACM/preprocessing.js:66-76 | negating the image does not change any magnitude |
| Preprocessing.SobelNotTransposeSymmetric | extensions/cornerstone/src/ohif-contour-tool/src/active-contour/ACM/preprocessing.js:75 | a concrete window whose transpose has a different magnitude: the written `sy` is not the transpose of `sx` |
| Preprocessing.CountGradient | extensions/cornerstone/src/ohif-contour-tool/src/active-contour/ACM/preprocessing.js:86-128 | on a square grid (w == h >= 2), the outputs are w x h and hold the row and column differences: one-sided at index 0, central inside, 0 at the last index |
| Preprocessing.ShiftLeft | extensions/cornerstone/src/ohif-contour-tool/src/active-contour/ACM/preprocessing.js:106-111 | each row shifted left by one, with its second-to-last sample repeated at the end |
| Preprocessing.ShiftRight | extensions/cornerstone/src/ohif-contour-tool/src/active-contour/ACM/preprocessing.js:113-118 | each row shifted right by one, with its first sample repeated at the start |
| Preprocessing.Subtract | extensions/cornerstone/src/ohif-contour-tool/src/active-contour/ACM/preprocessing.js:120-124 | each output cell is the difference of the two stacked cells |
| Preprocessing.GradientOfConstant | extensions/cornerstone/src/ohif-contour-tool/src/active-contour/ACM/preprocessing.js:100-124 | a constant image has zero gradients everywhere |
| Preprocessing.GradYOfRamp | extensions/cornerstone/src/ohif-contour-tool/src/active-contour/ACM/preprocessing.js:92-104 | on a vertical ramp of slope a, the y gradient is a on row 0, 2a inside, 0 on the last row |
| Chamfer.SelectMask | extensions/cornerstone/src/ohif-contour-tool/src/active-contour/ACM/ChamferDistance.js:28 | a missing mask selects `chamfer13`, a given one is used as is |
| Chamfer.TablesAreValid | extensions/cornerstone/src/ohif-contour-tool/src/active-contour/ACM/ChamferDistance.js:3-7 | every kernel table points forward in raster order with positive weights |
| Chamfer.Relax | extensions/cornerstone/src/ohif-contour-tool/src/active-contour/ACM/ChamferDistance.js:18-24 | the value `testAndSet` leaves is at most the offer, at most a known old value, and one of the two |
| Chamfer.RelaxSettles | extensions/cornerstone/src/ohif-contour-tool/src/active-contour/ACM/ChamferDistance.js:22-23 | a positive offer keeps a seed 0, never raises a known cell and never makes it unknown |
| Chamfer.SettlesTransitive | extensions/cornerstone/src/ohif-contour-tool/src/active-contour/ACM/ChamferDistance.js:44-93 | the per-cell invariant composes across the two passes |
| Chamfer.TestAndSet | extensions/cornerstone/src/ohif-contour-tool/src/active-contour/ACM/ChamferDistance.js:18-24 | a target outside [0, w) x [0, h) changes nothing; otherwise only the target cell changes, to `Relax` of its value |
| Chamfer.TargetsAfter | extensions/cornerstone/src/ohif-contour-tool/src/active-contour/ACM/ChamferDistance.js:54-61 | every kernel target lies after the source cell in the pass's raster order |
| Chamfer.Spread | extensions/cornerstone/src/ohif-contour-tool/src/active-contour/ACM/ChamferDistance.js:48-63 | for a known source value v, each in-range target of each kernel entry ends known and at most v + dt; cells at or before the source are untouched; no cell leaves the invariant |
| Chamfer.SeedFromMask | extensions/cornerstone/src/ohif-contour-tool/src/active-contour/ACM/ChamferDistance.js:33-40 | a cell [x, y] is 0 exactly when `data[y][x] == 1`, -1 otherwise (column-major grid, row-major input) |
| Chamfer.SeedFromThreshold | extensions/cornerstone/src/ohif-contour-tool/src/active-contour/KASS/ACM.js:116-125 | a cell [x, y] is 0 exactly when `data[y][x] / 255 > threshold`, -1 otherwise |
| Chamfer.ForwardPass | extensions/cornerstone/src/ohif-contour-tool/src/active-contour/ACM/ChamferDistance.js:44-68 | `max` >= 0; no cell leaves the invariant (seeds stay 0, known cells never grow or become unknown); with a non-empty mask every cell ends at most `max` |
| Chamfer.BackwardPass | extensions/cornerstone/src/ohif-contour-tool/src/active-contour/ACM/ChamferDistance.js:71-93 | `max` only grows; no cell leaves the invariant; every cell with x, y >= 1 ends at most `max` (row 0 and column 0 are never sources) |
| Chamfer.FlowOfFlat | extensions/cornerstone/src/ohif-contour-tool/src/active-contour/ACM/ChamferDistance.js:102-105 | equal neighbours give a flow of exactly 0.5 |
| Chamfer.FlowInUnitRange | extensions/cornerstone/src/ohif-contour-tool/src/active-contour/ACM/ChamferDistance.js:102-105 | neighbours within [0, max] give a flow in [0, 1] |
| Chamfer.FlowMonotone | extensions/cornerstone/src/ohif-contour-tool/src/active-contour/ACM/ChamferDistance.js:102-105 | the flow grows with the distance on the far side |
| Chamfer.Flow | extensions/cornerstone/src/ohif-contour-tool/src/active-contour/ACM/ChamferDistance.js:96-107 | flow is 0 on the border and `((g[x+1][y] - g[x-1][y]) / 2 + max / 2) / max` (likewise for y) inside; it requires `max > 0` whenever inner cells exist |
| Chamfer.Propagate | extensions/cornerstone/src/ohif-contour-tool/src/active-contour/ACM/ChamferDistance.js:41-107 | both passes keep every cell's invariant; inner cells end at most `max`; `defined` holds exactly when `max > 0` or the grid has no inner cell, and then the flow is that of the final distances |
| Chamfer.ComputeFromMask | extensions/cornerstone/src/ohif-contour-tool/src/active-contour/ACM/ChamferDistance.js:26-110 | after the transform a cell is 0 exactly at the mask's 1 pixels and otherwise unknown or a positive distance; inner cells are at most `max`; the flow is as in `Flow` when defined |
| Chamfer.ComputeFromThreshold | extensions/cornerstone/src/ohif-contour-tool/src/active-contour/KASS/ACM.js:108-202 | the same for the threshold variant, with seeds exactly where `data / 255 > threshold` |
| Movement.OrDefault | extensions/cornerstone/src/ohif-contour-tool/src/active-contour/ACM/ACM.js:8-14 | `v || d`: the default exactly when the setting is missing, 0 or equal to the default |
| Movement.OrDefaultInt | extensions/cornerstone/src/ohif-contour-tool/src/active-contour/ACM/ACM.js:7 | the same for the iteration count |
| Movement.Iterations | extensions/cornerstone/src/ohif-contour-tool/src/active-contour/ACM/ACM.js:28 | `for (j = 0; j < it; j++)` makes `it` passes, none when `it <= 0` |
| Movement.Trunc | extensions/cornerstone/src/ohif-contour-tool/src/active-contour/ACM/ACM.js:32-33 | `~~v` truncates toward zero |
| Movement.InteriorCell | extensions/cornerstone/src/ohif-contour-tool/src/active-contour/ACM/ACM.js:31-33 | a vertex that survives the border test reads the flow at a cell in [0, w-2] x [0, h-2] |
| Movement.ShiftBounds | extensions/cornerstone/src/ohif-contour-tool/src/active-contour/ACM/ACM.js:32-35 | a flow of 0.5 gives no displacement; a flow in [0, 1] moves at most `gamma` either way |
| Movement.DisplaceBounds | extensions/cornerstone/src/ohif-contour-tool/src/active-contour/ACM/ACM.js:32-35 | the same bound on both axes of a moved vertex |
| Movement.MoveVertex | extensions/cornerstone/src/ohif-contour-tool/src/active-contour/ACM/ACM.js:31-36 | the body of the `forEach` for one vertex: nothing on or beyond the border, otherwise the displaced vertex |
| Movement.MoveVertices | extensions/cornerstone/src/ohif-contour-tool/src/active-contour/ACM/ACM.js:29-37 | `newSnake` is the moved image of every vertex, in order |
| Movement.MovedPrefixBound | extensions/cornerstone/src/ohif-contour-tool/src/active-contour/ACM/ACM.js:29-37 | a flow step never adds vertices |
| Movement.MovedInterior | extensions/cornerstone/src/ohif-contour-tool/src/active-contour/ACM/ACM.js:29-37 | when every vertex is inside, all are kept, in order, each moved by the flow at its own cell |
| Movement.MovedBorder | extensions/cornerstone/src/ohif-contour-tool/src/active-contour/KASS/ACM.js:23-32 | vertices on the border are removed, not frozen: a snake entirely on the border vanishes |
| Respacing.Measure | extensions/cornerstone/src/ohif-contour-tool/src/active-contour/KASS/ACM.js:67-71 | both edge measures (Euclidean `dist`, squared `distance`) are non-negative |
| Respacing.SquaredIsDistSquared | extensions/cornerstone/src/ohif-contour-tool/src/active-contour/KASS/ACM.js:67-71 | the squared measure is the square of the Euclidean one, so KASS/ACM.js compares 0.3 and 6 against squared lengths |
| Respacing.LerpProperties | extensions/cornerstone/src/ohif-contour-tool/src/active-contour/ACM/ACM.js:120-122 | `lerp` runs from a to b, and `lerp(.5, a, b)` is the midpoint (a + b) / 2 |
| Respacing.Pred | extensions/cornerstone/src/ohif-contour-tool/src/active-contour/ACM/ACM.js:93 | `i - 1 < 0 ? n - 1 : i - 1` is the cyclic predecessor: an index below n whose successor is i |
| Respacing.Rebuild | extensions/cornerstone/src/ohif-contour-tool/src/active-contour/ACM/ACM.js:90-108 | the loop returns, in order, what each vertex contributes: itself, nothing, or the midpoints of its two edges, as `Rebuilt` defines |
| Respacing.RespaceVertex | extensions/cornerstone/src/ohif-contour-tool/src/active-contour/ACM/ACM.js:93-105 | the body of the loop for vertex i pushes exactly that vertex's contribution: itself when its two edges sum strictly between the limits, nothing at or below `minLen`, the midpoints of its two edges otherwise |
| Respacing.RespacedKeeps | extensions/cornerstone/src/ohif-contour-tool/src/active-contour/ACM/ACM.js:97-99 | a vertex strictly between the limits is kept as it is |
| Respacing.RespacedDrops | extensions/cornerstone/src/ohif-contour-tool/src/active-contour/ACM/ACM.js:97 | a vertex at most `minLen` is dropped |
| Respacing.RespacedSplits | extensions/cornerstone/src/ohif-contour-tool/src/active-contour/ACM/ACM.js:100-103 | a vertex above `minLen` and at least `maxLen` becomes the two midpoints of its edges |
| Respacing.RebuildBound | extensions/cornerstone/src/ohif-contour-tool/src/active-contour/KASS/ACM.js:34-60 | re-spacing yields at most 2n points |
| Respacing.RebuildOrigin | extensions/cornerstone/src/ohif-contour-tool/src/active-contour/ACM/ACM.js:93-104 | every output point is an input vertex or the midpoint of two cyclically adjacent vertices |
| Respacing.RebuildKeeps | extensions/cornerstone/src/ohif-contour-tool/src/active-contour/ACM/ACM.js:90-108 | a contour whose every vertex lies strictly between the limits comes back unchanged |
| Respacing.RebuildDrops | extensions/cornerstone/src/ohif-contour-tool/src/active-contour/ACM/ACM.js:90-108 | a contour whose every vertex is at most `minLen` vanishes |
| Respacing.RebuildSplits | extensions/cornerstone/src/ohif-contour-tool/src/active-contour/KASS/ACM.js:51-58 | a contour whose every vertex splits doubles, vertex i giving entries 2i and 2i+1 |
| Respacing.RebuildSingleton | extensions/cornerstone/src/ohif-contour-tool/src/active-contour/ACM/ACM.js:93-97 | a single vertex is its own neighbour, so with `minLen >= 0` it is dropped |
| Resampling.WeightsSumToSix | extensions/cornerstone/src/ohif-contour-tool/src/active-contour/ACM/utils.js:44-47 | the four basis weights sum to 6 for every t |
| Resampling.BlendPoints | extensions/cornerstone/src/ohif-contour-tool/src/active-contour/ACM/utils.js:48-51 | the blend of four vertices is an integer point |
| Resampling.BlendOfCoincident | extensions/cornerstone/src/ohif-contour-tool/src/active-contour/ACM/utils.js:44-51 | four copies of P blend to `floor(0.5 + P)` |
| Resampling.EdgeParameter | extensions/cornerstone/src/ohif-contour-tool/src/active-contour/ACM/utils.js:41 | t lies in [0, 1) on an edge of positive length |
| Resampling.Lengths | extensions/cornerstone/src/ohif-contour-tool/src/active-contour/ACM/utils.js:20-26 | `clength` has n + 1 entries, entry k the arc length to vertex k |
| Resampling.LengthsNonDecreasing | extensions/cornerstone/src/ohif-contour-tool/src/active-contour/ACM/utils.js:20-26 | `clength` never decreases |
| Resampling.Search | extensions/cornerstone/src/ohif-contour-tool/src/active-contour/ACM/utils.js:33-35 | from any bracket below d the search ends at a bracket of d |
| Resampling.BracketUnique | extensions/cornerstone/src/ohif-contour-tool/src/active-contour/ACM/utils.js:33 | in a non-decreasing table a position has at most one bracket |
| Resampling.Resample | extensions/cornerstone/src/ohif-contour-tool/src/active-contour/ACM/utils.js:18-55 | the result has `floor(0.5 + total / maxLen)` integer points (none when that is not positive) |
| Resampling.ResampleAtBracket | extensions/cornerstone/src/ohif-contour-tool/src/active-contour/ACM/utils.js:31-51 | sample j is the blend on the one edge whose arc interval contains `j * total / nmb` |
| Resampling.NoSamplesOfZeroLength | extensions/cornerstone/src/ohif-contour-tool/src/active-contour/ACM/utils.js:28-29 | a perimeter of 0 gives no samples |
| Resampling.SamplesNeedLength | extensions/cornerstone/src/ohif-contour-tool/src/active-contour/ACM/utils.js:28-31 | samples exist only when the perimeter is positive |
| Resampling.SamplePositionBounds | extensions/cornerstone/src/ohif-contour-tool/src/active-contour/ACM/utils.js:32 | sample positions start at 0, never decrease with j and stay below the perimeter |
| Resampling.ResampleOfDegenerate | extensions/cornerstone/src/ohif-contour-tool/src/active-contour/ACM/utils.js:28-31 | a contour whose vertices all coincide (the empty list and a single point included) resamples to the empty list |
| Resampling.CumulativeLengths | extensions/cornerstone/src/ohif-contour-tool/src/active-contour/ACM/utils.js:20-26 | the loop builds the arc-length table |
| Resampling.FindBracket | extensions/cornerstone/src/ohif-contour-tool/src/active-contour/ACM/utils.js:33-35 | the `while` search ends, not before its start, at an index i < n with `clength[i] <= d < clength[i + 1]` |
| Resampling.NextSample | extensions/cornerstone/src/ohif-contour-tool/src/active-contour/ACM/utils.js:32-51 | one sample: the bracket found never lies before the previous one, and the point is the blend on it |
| Resampling.CubicInterpolation | extensions/cornerstone/src/ohif-contour-tool/src/active-contour/ACM/utils.js:18-55 | the method's output is `Resample` of its input (also ACM/ACM.js:52-88, KASS/KASS.js:184-227 and KASS/KASS_test.js:210-253) |
| Runs.Iterates | extensions/cornerstone/src/ohif-contour-tool/src/active-contour/KASS/ACM.js:21-63 | k passes record k snakes |
| Runs.ChainIterates | extensions/cornerstone/src/ohif-contour-tool/src/active-contour/KASS/ACM.js:21-63 | a list where each snake is the step of the one before is the list of iterates, and its last snake the last iterate |
| Runs.IteratesChain | extensions/cornerstone/src/ohif-contour-tool/src/active-contour/KASS/ACM.js:21-63 | conversely the iterates form such a chain |
| Runs.TracePass | extensions/cornerstone/src/ohif-contour-tool/src/active-contour/ACM/ACM.js:39-46 | one pass either keeps the new snake and continues from it or ends the run |
| Runs.TraceLength | extensions/cornerstone/src/ohif-contour-tool/src/active-contour/ACM/ACM.js:28-49 | a run keeps at most k snakes and stops early exactly when it keeps fewer than k |
| Runs.TraceIterates | extensions/cornerstone/src/ohif-contour-tool/src/active-contour/ACM/ACM.js:28-49 | the kept snakes are the first iterates, none of length 0, and an early end means the next iterate has length 0 |
| Runs.TraceWithoutStop | extensions/cornerstone/src/ohif-contour-tool/src/active-contour/ACM/ACM.js:28-49 | without a collapse the run keeps all k iterates |
| Runs.RecordedPass | extensions/cornerstone/src/ohif-contour-tool/src/active-contour/KASS/KASS.js:29-104 | one pass either throws, or records the rebuilt snake when accepted, and always continues from it |
| Runs.RecordedBy | extensions/cornerstone/src/ohif-contour-tool/src/active-contour/KASS/KASS.js:101-103 | at most one contour per pass is recorded, each satisfying what every recorded snake satisfies |
| Acm.Applied | extensions/cornerstone/src/ohif-contour-tool/src/active-contour/ACM/ACM.js:39-41 | the step functions of the model compute the pass, and the stop test is exactly `getSnakelength(tmp) == 0` |
| Acm.ResampleAll | extensions/cornerstone/src/ohif-contour-tool/src/active-contour/ACM/ACM.js:42 | each kept snake is recorded as its resampling at spacing 1 |
| Acm.ResampleAllAppend | extensions/cornerstone/src/ohif-contour-tool/src/active-contour/ACM/ACM.js:42 | recording more snakes appends their resamplings |
| Acm.FlowSnake.constructor | extensions/cornerstone/src/ohif-contour-tool/src/active-contour/ACM/ACM.js:6-24 | the defaults `it` 100, `minLen` 0.5, `maxLen` 2, `gamma` 100, threshold 50; a cell of the distance map is 0 exactly where the thresholded Sobel magnitude of the image is 1 (the outer ring has magnitude 0), every other cell unknown or a positive distance |
| Acm.FlowSnake.Pass | extensions/cornerstone/src/ohif-contour-tool/src/active-contour/ACM/ACM.js:29-41 | one pass moves the snake, re-spaces it with Euclidean lengths and measures the result |
| Acm.FlowSnake.Record | extensions/cornerstone/src/ohif-contour-tool/src/active-contour/ACM/ACM.js:42-43 | a kept pass records the resampled snake and continues from the unresampled one |
| Acm.FlowSnake.Iteration | extensions/cornerstone/src/ohif-contour-tool/src/active-contour/ACM/ACM.js:29-46 | one pass either keeps and records the snake, or ends the run with nothing changed |
| Acm.FlowSnake.Loop | extensions/cornerstone/src/ohif-contour-tool/src/active-contour/ACM/ACM.js:26-50 | the contours gain the resamplings of exactly the snakes the run keeps; the result is nothing after a collapse and otherwise the contours |
| KassAcm.Applied | extensions/cornerstone/src/ohif-contour-tool/src/active-contour/KASS/ACM.js:23-62 | the step function of the model computes the pass; the new snake has at most twice as many vertices, each a moved vertex or the midpoint of a moved vertex and a neighbour |
| KassAcm.FlowSnake.constructor | extensions/cornerstone/src/ohif-contour-tool/src/active-contour/KASS/ACM.js:2-16 | the defaults `it` 100 and threshold 0.1; the seeds are exactly the pixels with `data / 255 > threshold` |
| KassAcm.FlowSnake.Pass | extensions/cornerstone/src/ohif-contour-tool/src/active-contour/KASS/ACM.js:22-60 | one pass moves with gain 100 and re-spaces with squared lengths against 0.3 and 6 |
| KassAcm.FlowSnake.Loop | extensions/cornerstone/src/ohif-contour-tool/src/active-contour/KASS/ACM.js:18-65 | exactly `it` contours are appended, each the step of the one before (empty ones included), and the result is all contours |
| Energy.Uniformity | extensions/cornerstone/src/ohif-contour-tool/src/active-contour/KASS/KASS.js:127-137 | `f_uniformity` is >= 0, and 0 exactly when `dist(prev, p)` is the mean edge length |
| Energy.Curvature | extensions/cornerstone/src/ohif-contour-tool/src/active-contour/KASS/KASS.js:139-156 | `f_curvature` is >= 0 |
| Energy.NormIsDist | extensions/cornerstone/src/ohif-contour-tool/src/active-contour/KASS/KASS.js:140-146 | `un` and `vn` are the distances to the two neighbours |
| Energy.CurvatureOfDists | extensions/cornerstone/src/ohif-contour-tool/src/active-contour/KASS/KASS.js:139-156 | `f_curvature` is 0 when p meets a neighbour and otherwise the squared norm of (u + v) / (un vn) |
| Energy.CurvatureZeroIff | extensions/cornerstone/src/ohif-contour-tool/src/active-contour/KASS/KASS.js:148-155 | the curvature energy is 0 exactly when p meets a neighbour or is the midpoint of the two |
| Energy.LineOfBinary | extensions/cornerstone/src/ohif-contour-tool/src/active-contour/KASS/KASS.js:158-164 | on a 0/1 image `f_line` is `MAX_VALUE` exactly outside the image, and inside it is the pixel `binary[y][x]` itself, 0 or 1 |
| Energy.Line | extensions/cornerstone/src/ohif-contour-tool/src/active-contour/KASS/KASS.js:158-164 | `f_line` is `MAX_VALUE` outside the image and the pixel `binary[y][x]` inside it |
| Energy.Edge | extensions/cornerstone/src/ohif-contour-tool/src/active-contour/KASS/KASS.js:166-172 | `f_edge` is `MAX_VALUE` exactly outside the image; inside it is <= 0, and 0 exactly when both gradients vanish |
| Energy.ZeroWindow | extensions/cornerstone/src/ohif-contour-tool/src/active-contour/KASS/KASS.js:34-37 | a fresh k x k window of zeros |
| Energy.NormalizedSumIsOne | extensions/cornerstone/src/ohif-contour-tool/src/active-contour/KASS/KASS.js:108-125 | after dividing by a non-zero sum the absolute values sum to 1 |
| Energy.AbsSumCorner | extensions/cornerstone/src/ohif-contour-tool/src/active-contour/KASS/KASS_test.js:134-151 | a window that is 0 outside its top-left m x m block has the sum of that block |
| Energy.Normalize | extensions/cornerstone/src/ohif-contour-tool/src/active-contour/KASS/KASS.js:108-125 | with a non-zero absolute sum every entry is divided by it in place; with sum 0 the window is unchanged and the result undefined |
| Greedy.Span | extensions/cornerstone/src/ohif-contour-tool/src/active-contour/KASS/KASS.js:33 | the offsets [-hks, hks) cover 2·hks <= k indices, so every `hks + dx` lies in the window |
| Greedy.SiteOf | extensions/cornerstone/src/ohif-contour-tool/src/active-contour/KASS/KASS.js:40-42 | the moved vertex and the snake size of one inner iteration |
| Greedy.RawWindowSum | extensions/cornerstone/src/ohif-contour-tool/src/active-contour/KASS/KASS_test.js:70-91 | cells outside the written block stay 0 and leave the window's sum unchanged |
| Greedy.FillCell | extensions/cornerstone/src/ohif-contour-tool/src/active-contour/KASS/KASS.js:49-63 | one cell of a window is written with its term |
| Greedy.FillCells | extensions/cornerstone/src/ohif-contour-tool/src/active-contour/KASS/KASS.js:46-63 | one candidate fills its cell in all four windows |
| Greedy.FillRow | extensions/cornerstone/src/ohif-contour-tool/src/active-contour/KASS/KASS.js:45-64 | one dx fills a whole row of candidates |
| Greedy.FillWindows | extensions/cornerstone/src/ohif-contour-tool/src/active-contour/KASS/KASS.js:44-65 | the fill loops leave each window equal to its term over all candidates |
| Greedy.VisitFirst | extensions/cornerstone/src/ohif-contour-tool/src/active-contour/KASS/KASS.js:84-88 | a strict `<` keeps the running best the first strict minimum |
| Greedy.SweepIsFirstMinimum | extensions/cornerstone/src/ohif-contour-tool/src/active-contour/KASS/KASS.js:72-91 | the chosen offset has the least combined energy, every earlier offset is strictly higher, it is below `MAX_VALUE`, and there is none exactly when every energy is at least `MAX_VALUE` |
| Greedy.ScanRow | extensions/cornerstone/src/ohif-contour-tool/src/active-contour/KASS/KASS.js:78-89 | one dx of the selection loop advances the running minimum and its x, y |
| Greedy.SelectVertex | extensions/cornerstone/src/ohif-contour-tool/src/active-contour/KASS/KASS.js:72-95 | the vertex goes to the first strict minimum (x = y = 0 when there is none), clamped |
| Greedy.Clamp | extensions/cornerstone/src/ohif-contour-tool/src/active-contour/KASS/KASS.js:92-95 | a coordinate already in [1, size-1) is unchanged; on a grid of at least 3 the result lies in [1, size-1) |
| Greedy.Clamped | extensions/cornerstone/src/ohif-contour-tool/src/active-contour/KASS/KASS.js:92-97 | the clamping statements and the floor |
| Greedy.PlaceInInterior | extensions/cornerstone/src/ohif-contour-tool/src/active-contour/KASS/KASS.js:92-97 | on an image of at least 3 x 3 pixels the new vertex is an integer point in [1, w-2] x [1, h-2] |
| Greedy.WindowsOf | extensions/cornerstone/src/ohif-contour-tool/src/active-contour/KASS/KASS.js:44-70 | the normalised windows, when they exist, are k x k |
| Greedy.WindowsOfUndefined | extensions/cornerstone/src/ohif-contour-tool/src/active-contour/KASS/KASS.js:67-70 | the windows of a vertex are missing exactly when one of its four filled windows has absolute sum 0, the case where `normalize` returns `undefined` |
| Greedy.GatherLength | extensions/cornerstone/src/ohif-contour-tool/src/active-contour/KASS/KASS.js:39-98 | a gathered list has one entry per vertex, each the one computed for it; it is missing exactly when some vertex throws |
| Greedy.NewVertexInInterior | extensions/cornerstone/src/ohif-contour-tool/src/active-contour/KASS/KASS.js:39-97 | on an image of at least 3 x 3 pixels, a vertex that moves lands on an interior pixel |
| Greedy.NewSnakeInInterior | extensions/cornerstone/src/ohif-contour-tool/src/active-contour/KASS/KASS.js:39-97 | `newSnake` has the length of `snake` and every vertex is an interior integer pixel |
| Greedy.NewSnakeUndefined | extensions/cornerstone/src/ohif-contour-tool/src/active-contour/KASS/KASS.js:67-80 | a pass throws exactly when some vertex has no normalised windows (by `Greedy.WindowsOfUndefined`, one of its windows has absolute sum 0) |
| Greedy.StepRecordable | extensions/cornerstone/src/ohif-contour-tool/src/active-contour/KASS/KASS.js:99-103 | the rebuilt snake has integer points, and one pushed by KASS/KASS.js has non-zero length |
| Greedy.RunContours | extensions/cornerstone/src/ohif-contour-tool/src/active-contour/KASS/KASS.js:29-105 | at most `it` contours, each made of integer points, and in KASS/KASS.js each of non-zero length |
| Greedy.PrepareWindows | extensions/cornerstone/src/ohif-contour-tool/src/active-contour/KASS/KASS.js:44-70 | filling and normalising the four windows succeeds exactly when all sums are non-zero and leaves the normalised windows |
| Greedy.NormalizeWindows | extensions/cornerstone/src/ohif-contour-tool/src/active-contour/KASS/KASS.js:67-70 | the four `normalize` calls, each leaving its window normalised, and success exactly when all four are defined |
| Greedy.PlaceVertex | extensions/cornerstone/src/ohif-contour-tool/src/active-contour/KASS/KASS.js:39-97 | the whole body of the vertex loop computes `NewVertex` |
| Greedy.MoveSnake | extensions/cornerstone/src/ohif-contour-tool/src/active-contour/KASS/KASS.js:39-98 | the vertex loop computes every new vertex in order, or throws |
| Greedy.LengthChanged | extensions/cornerstone/src/ohif-contour-tool/src/active-contour/KASS/KASS_test.js:127 | the length test holds exactly when the length moved by more than 0.5 % of the new length, including the IEEE cases of a new length 0 |
| Greedy.Accept | extensions/cornerstone/src/ohif-contour-tool/src/active-contour/KASS/KASS_test.js:127-129 | the push test of each variant: non-zero length (KASS/KASS.js), or non-zero moved length and a length change above 0.5 % (KASS/KASS_test.js) |
| Greedy.OnePass | extensions/cornerstone/src/ohif-contour-tool/src/active-contour/KASS/KASS.js:30-103 | one pass of the outer loop: move every vertex, `rebuild`, and the push test |
| Greedy.Advance | extensions/cornerstone/src/ohif-contour-tool/src/active-contour/KASS/KASS.js:29-104 | one pass keeps the run's result: it throws, or records the rebuilt snake when accepted and continues from it |
| Greedy.Compute | extensions/cornerstone/src/ohif-contour-tool/src/active-contour/KASS/KASS.js:29-105 | the outer loop computes `Run`, the contours of `it` passes or nothing when a pass throws |
| Kass.Settings | extensions/cornerstone/src/ohif-contour-tool/src/active-contour/KASS/KASS.js:6-13 | window 4 with hks 2 (so the whole window is written), `maxDist` 4, the push test is a non-zero length, no weight is 0, `w_line = gamma || 0.5`, `w_edge = delta || 0.5` |
| Kass.Prepared | extensions/cornerstone/src/ohif-contour-tool/src/active-contour/KASS/KASS.js:24-27 | the binary image is 1 exactly where `image > threshold`, and the gradients are those of `countGradient` |
| Kass.ComputeKass | extensions/cornerstone/src/ohif-contour-tool/src/active-contour/KASS/KASS.js:4-106 | `computeKASS` computes `Run` over the prepared images with its settings |
| Kass.KassContours | extensions/cornerstone/src/ohif-contour-tool/src/active-contour/KASS/KASS.js:29-105 | at most `it` contours, each of integer points and non-zero length |
| KassTest.Settings | extensions/cornerstone/src/ohif-contour-tool/src/active-contour/KASS/KASS_test.js:8-14 | window 5 with hks 2 (so only 4 x 4 cells written), `w_line = delta || 1`, `w_edge = gamma || 1`, `maxDist = threshold || 6` |
| KassTest.ComputeKassTest | extensions/cornerstone/src/ohif-contour-tool/src/active-contour/KASS/KASS_test.js:55-131 | the passes compute `Run` with the settings of this variant |
| KassTest.FifthRowAndColumn | extensions/cornerstone/src/ohif-contour-tool/src/active-contour/KASS/KASS_test.js:59-96 | row and column 4 of every window stay 0 and do not change the normalisation sum |
| KassTest.KassTestContours | extensions/cornerstone/src/ohif-contour-tool/src/active-contour/KASS/KASS_test.js:55-131 | at most `it` contours, each made of integer points |
| Bounds.GetBoundingBox | extensions/cornerstone/src/ohif-contour-tool/src/active-contour/KASS/utils.js:18-42 | the running min/max loop computes the box as a fold over the polygon |
| Bounds.RunMinIsLeast | extensions/cornerstone/src/ohif-contour-tool/src/active-contour/KASS/utils.js:19-27 | the running minimum is missing exactly for the empty polygon and otherwise is the least coordinate |
| Bounds.RunMaxIsGreatest | extensions/cornerstone/src/ohif-contour-tool/src/active-contour/KASS/utils.js:20-28 | the running maximum is >= 0, at least every coordinate, and 0 or one of them |
| Bounds.BoxWithinGrid | extensions/cornerstone/src/ohif-contour-tool/src/active-contour/KASS/utils.js:31-39 | the lower corner is finite exactly for a non-empty polygon, and then >= 0; the upper corner lies in [0, w] x [0, h] because the running maxima start at 0 |
| Bounds.BoxContainsVertices | extensions/cornerstone/src/ohif-contour-tool/src/active-contour/KASS/utils.js:24-39 | in a polygon inside [0, w] x [0, h] every floored vertex lies in the box |
| Bounds.BoxOrderIndependent | extensions/cornerstone/src/ohif-contour-tool/src/active-contour/KASS/utils.js:24-29 | two polygons with the same set of vertices (in any order, with any repeats) have the same box |
| Movement.MoveOne | extensions/cornerstone/src/ohif-contour-tool/src/active-contour/ACM/ACM.js:31-36 | one vertex yields at most one vertex |
| Runs.IteratesSnoc | extensions/cornerstone/src/ohif-contour-tool/src/active-contour/KASS/ACM.js:21-63 | one more pass appends the step of the last iterate |
| Runs.ChainSnoc | extensions/cornerstone/src/ohif-contour-tool/src/active-contour/KASS/ACM.js:61-62 | appending the step of the last snake keeps the chain and makes the new snake the last |
| Runs.RecordedAdvance | extensions/cornerstone/src/ohif-contour-tool/src/active-contour/KASS/KASS.js:29-104 | the state kept across one pass: a throw ends the run with nothing, an accepted pass records its snake, a rejected pass records nothing, and both continue from the rebuilt snake |
| Greedy.EnergyAt | extensions/cornerstone/src/ohif-contour-tool/src/active-contour/KASS/KASS.js:79-83 | the weighted sum of the four window cells of one candidate |
| Greedy.NewVertexUndefined | extensions/cornerstone/src/ohif-contour-tool/src/active-contour/KASS/KASS.js:67-80 | a vertex throws exactly when its windows are missing, that is exactly when one of its four filled windows has absolute sum 0 |
| Greedy.MoverInInterior | extensions/cornerstone/src/ohif-contour-tool/src/active-contour/KASS/KASS.js:92-97 | every vertex computed for a snake lies in the interior of an image of at least 3 x 3 pixels |
| Energy.RowAbsSumScaled | extensions/cornerstone/src/ohif-contour-tool/src/active-contour/KASS/KASS.js:118-122 | dividing a row by s > 0 divides its absolute sum by s |
| Chamfer.Offer | extensions/cornerstone/src/ohif-contour-tool/src/active-contour/ACM/ChamferDistance.js:54-61 | one `testAndSet` of a kernel entry: only its target changes, to `Relax`, and the pass invariant is kept |
| Chamfer.OfferEntry | extensions/cornerstone/src/ohif-contour-tool/src/active-contour/ACM/ChamferDistance.js:50-63 | all the offers of one kernel entry: the in-range targets end known and at most v + dt, the invariant is kept |

## Left out

**Source files and functions outside the model**
- `Gauss` and `createKernel` (ACM/preprocessing.js:18-59): a convolution done through TensorFlow.js and floating-point `exp`. They are reached only through the CT and MR branches of `KASS/KASS_test.js`.
- The `type` parameter and the CT / MR branches of `KASS/KASS_test.js` (35-53): `KassTest.ComputeKassTest` takes the binary image and the gradient fields as inputs. With any other `type` the source reads an undefined image.
- `index.js`, `dialog.js`, `utils/calculateTransform.js` and the other files of the package are not part of this model: they hold UI wiring and coordinate transforms.
- The commented-out threshold estimate of `KASS/KASS_test.js` (16-28) and its `mathjs` import are not modelled.
- The `console.log` calls of `KASS/KASS.js` (15-18) are not modelled: they are I/O.
- The `min` tracker of the chamfer transforms is not modelled: it is computed and never read.
- `lerp`, `norm` and `map` at the end of `KASS/ACM.js` are not modelled: they are only referenced from commented-out code.

**Floating point and integer width**
- IEEE arithmetic is not modelled: coordinates and energies are exact reals, and `NaN`, infinities and rounding are absent.
  - `Float32Array` storage of the distance grid and the flows is not modelled; the distances are exact integers.
  - `Number.MAX_VALUE` is an exact constant. Sums that would overflow to infinity in the source stay finite here.
    At a vertex with x == 1 or y == 1, which `Math.floor` and the clamp often produce, a row or column of four candidates lies outside the image. The source's `f_line` and `f_edge` sums then become `Infinity`, `normalize` turns those windows into all zeros, and only uniformity and curvature choose the vertex. The model sums the sentinels exactly, so each one normalises to about 1/4, and the chosen vertex can differ.
- `~~v` is exact truncation. The 32-bit wrap-around of `~~` applies only beyond 2^31, and such a vertex is already removed by the border test.
- `Math.sqrt` is a parameter `sqrt` with `Geometry.IsSqrt`, having no implementation.

**Contracts stated weaker than, or narrower than, the source**
- Chamfer.Flow: requires `max > 0` when inner cells exist, because the source then divides by 0 and yields `NaN` flows.
- Chamfer.Propagate: returns `defined == false` instead of computing `NaN` flows when `max` is 0.
- Chamfer.ComputeFromMask: requires `ValidMask`: every offset points forward in raster order with a positive weight, as all five tables of the source do (`Chamfer.TablesAreValid`). An arbitrary user mask is not covered.
- Chamfer.ComputeFromThreshold: requires `ValidMask`, for the same reason.
- Chamfer.ForwardPass: the source updates `max` inside the kernel loop. The model updates it once per seed cell after all the offers. This is the same value when the mask is non-empty, because no offer changes the source cell.
- Acm.FlowSnake.Loop: requires `flowDefined`. With `max == 0` on a grid with inner cells, the source moves vertices by `NaN`.
- KassAcm.FlowSnake.Loop: requires `flowDefined`, for the same reason.
- Acm.Applied: the stop test of `loop` is modelled as "all vertices coincide" (`Contours.AllSame`). This is equivalent to `getSnakelength(tmp) == 0` by `Contours.PerimeterZeroIff`, and `Acm.Applied` states that equivalence.
- Preprocessing.CountGradient: requires a square grid (`w == h`) of at least 2 rows. The source builds `w` x `h` outputs from `h`-row stacks, so a non-square image reads past a row or leaves `NaN` cells.
- Kass.ComputeKass: requires a square image, because it calls `countGradient`.
- Kass.Prepared: requires a square image, because it calls `countGradient`.
- Greedy.Valid: requires a window size of at least 2. Both variants fix it at 4 or 5. With a smaller size `hks` is 0, the source's candidate loops never run, and every vertex goes to (1, 1), the clamp of its initial (0, 0).
