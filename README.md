# waifu2x-go numeric core, in Dafny

This project models the inference engine of waifu2x-go (`waifu2x/waifu2x.go`).
The engine takes the luminance (Y) channel of an image and pads it by as many
cells as the model has layers. It then runs every layer: a 3×3 "valid"
correlation of each input plane with its kernel, the correlations summed, the
bias added and a leaky rectifier applied. At the end it requires a single
plane, clamps it into [0, 1], scales it by 255 and truncates it back into the
Y channel.

Values are Dafny `real` in place of `float64`. A matrix is `Mat.Dense(rows,
cols, data)`, a row-major flat buffer like gonum's `mat64.Dense`. A cell
outside the matrix is a precondition violation, as `At` panics on it.

The modules follow the program:

- `Mat`: the matrix value, a row-major tabulation, and gonum's `Add`.
- `Helpers`: `mul`, `add`, `maximum`, `minimum`, the plane-count minimum
  taken through `math.Min`, the leaky rectifier, the clamp rule and `uint8(v)`.
- `Padding`: `pad` exactly as written, and the edge-replicating padding it was
  meant to be.
- `Conv`: `calcConv` and `correlate`.
- `Broadcast`: `broadcastMat`, `broadcastVec` and `clip`.
- `Sums`: sums over a sequence, and their independence from order.
- `Layers`: the layer loop of `Exec`.
- `Engine`: `extY`, the store into Y, and `Exec` on a `Waifu2x` object.

The Go functions that fill a fresh buffer through a running `idx` (`pad`,
`correlate`, `broadcastMat`, `clip`) are methods over arrays. Each has loop
invariants on `idx` and an `ensures` that ties the buffer to a specification
function: `Padded`, `Correlated`, `Broadcasted`, `Clipped`. `extY` is a method
that writes `res[i]` at its range index, and its result is `Luma`. The
properties are proved about those functions. `broadcastVec` and the Y store
update their array in place. `Exec` is a method of the class `Engine.Waifu2x`
that writes its `dst` field, or returns `Exit(1)` where the program calls
`os.Exit(1)`. Its result is specified by the function `Engine.Upscale`.

`pad` departs from the edge padding of the reference implementation that the
source header cites (waifu2x.py, waifu2x/waifu2x.go:7), which pads with
numpy's `'edge'` mode. The corner values `topLeft` … `bottomRight`
(waifu2x/waifu2x.go:144-147) point the same way. The model follows the code,
and "## Findings" records two differences:

- The code does not replicate edges. Interior cells read the source without
  the padding offset. The top band reads row `padding`. The bottom
  `2 * padding` rows read the last row. So a network that only copies its
  input shifts the image: `Engine.IdentityLayerShiftsImage` shows a pixel
  with luminance 10 coming out with luminance 40.
- The code does not pad every image. `pad` fails exactly when p > r, or when
  p == r and c > p (the negation of `PadFits`). When c > p >= r, the top band
  reads row `padding` (waifu2x/waifu2x.go:160), which is past the last row.
  When p > r and c <= p, the loops write 3p rows into a buffer of r + 2p rows.

## Model

| member | source | states |
|---|---|---|
| `Helpers.Maximum` | waifu2x/waifu2x.go:381-386 | the result is at least both arguments and is one of them |
| `Helpers.Minimum` | waifu2x/waifu2x.go:387-392 | the result is at most both arguments and is one of them |
| `Helpers.Mul` | waifu2x/waifu2x.go:369-371 | `mul(a, b)` is a * b; it has no contract of its own, and what is proved about its uses is in `Activation` and `FinalY` |
| `Helpers.Plus` | waifu2x/waifu2x.go:377-379 | `add(a, b)` is a + b; it has no contract of its own, and the bias it adds is stated in `OutputPlaneCell` |
| `Helpers.MinCount` | waifu2x/waifu2x.go:306 | `int(math.Min(..))` of two plane counts is at most both and is one of them |
| `Helpers.Activation` | waifu2x/waifu2x.go:333-338 | `max(v,0) + 0.1*min(v,0)` is v for v >= 0 and v/10 for v < 0 (the leaky rectifier) |
| `Helpers.ClipValue` | waifu2x/waifu2x.go:268-275 | in [start, end] when start <= end; unchanged when in range; start below it; end above it |
| `Helpers.Trunc8` | waifu2x/waifu2x.go:354 | `uint8(v)` of a value in [0, 256) is its floor: b <= v < b + 1 |
| `Mat.Add` | waifu2x/waifu2x.go:324 | gonum's `Add` keeps the shape and adds cell by cell |
| `Padding.Padded` | waifu2x/waifu2x.go:136-198 | `pad` returns an (r+2p)×(c+2p) matrix whose cell (i, j) is the `PadCell` region rule |
| `Padding.PadRow` | waifu2x/waifu2x.go:150-162 | one inner `for j` loop appends exactly one row of newCols cells: the left value, the source row divided by 255, the right value |
| `Padding.PadTop` | waifu2x/waifu2x.go:149-163 | the first `padding` rows are written in order and idx ends at padding*newCols |
| `Padding.PadMiddle` | waifu2x/waifu2x.go:164-180 | rows [padding, r) follow, the sides from row `row` = i - padding and the middle from row i |
| `Padding.PadBottom` | waifu2x/waifu2x.go:182-196 | the last 2*padding rows follow, reading the last source row and the bottom corners; idx ends after the `PadRowsWritten` rows of the three loops, at newRows*newCols |
| `Padding.Pad` | waifu2x/waifu2x.go:136-198 | the buffer written by the three loops is exactly `Padded`, every cell written once and none past the end |
| `Padding.PaddedInUnitRange` | waifu2x/waifu2x.go:144-196 | every padded value is a source value divided by 255, so an 8-bit source gives values in [0, 1] |
| `Padding.PadShiftsInterior` | waifu2x/waifu2x.go:176 | an interior cell (i, j) holds source cell (i, j), which edge replication puts at (i + p, j + p) |
| `Padding.PadWithoutPaddingNormalises` | waifu2x/waifu2x.go:136-198 | with padding 0, `pad` only divides by 255 and equals edge replication |
| `Padding.PadIsNotEdgeReplication` | waifu2x/waifu2x.go:160 | on a 3×3 source with values 1..9 and padding 1, cells (1,1) and (0,1) hold 5/255 where edge replication gives 1/255 |
| `Padding.PadRowsWrittenFit` | waifu2x/waifu2x.go:140-196 | the three loops write r + 2p rows exactly when p <= r; with p > r they write 3p rows |
| `Padding.PadFitsExactly` | waifu2x/waifu2x.go:140-196 | on a non-empty image, `PadFits` fails exactly when the three loops write more rows than the buffer holds, or when a top-band cell in column p exists and reads source row p, which is past the last row (line 160) |
| `Padding.PadOverflowsShortImage` | waifu2x/waifu2x.go:182 | a 1×1 image padded by 2 gets 5 rows but 6 are written; edge replication pads it to a 5×5 copy of the value /255 |
| `Padding.EdgePadded` | waifu2x/waifu2x.go:136-198 | the intended padding: (r+2p)×(c+2p), cell (i, j) the source cell nearest to (i-p, j-p), divided by 255 |
| `Padding.EdgePadReplicates` | waifu2x/waifu2x.go:136-198 | edge replication: the middle is the shifted source, the corner blocks repeat the corners, the bands repeat the nearest edge row or column |
| `Conv.Transposed` | waifu2x/waifu2x.go:205-213 | rows and columns of the 3×3 kernel exchanged |
| `Conv.CalcConv` | waifu2x/waifu2x.go:200-216 | the nine products added in the order of the source; it has no contract of its own, and what is proved about it is in `CalcConvIsTransposedWindow` |
| `Conv.CalcConvIsTransposedWindow` | waifu2x/waifu2x.go:200-216 | `calcConv` pairs f[a][b] with cell (x-1+b, y-1+a): the cross-correlation with the transposed kernel, equal to the plain one for a symmetric kernel |
| `Conv.Correlated` | waifu2x/waifu2x.go:218-238 | (r-2)×(c-2), cell (i, j) is `calcConv(i+1, j+1)` |
| `Conv.InteriorBefore` | waifu2x/waifu2x.go:229 | the number of non-border indices below k is k - 1 for 1 <= k < n, at most n - 2 |
| `Conv.CorrelateRow` | waifu2x/waifu2x.go:228-234 | a border row writes nothing; an interior row i appends output row i - 1, skipping the first and last column |
| `Conv.Correlate` | waifu2x/waifu2x.go:218-238 | the buffer written over the interior cells in row-major order is exactly `Correlated` |
| `Broadcast.Broadcasted` | waifu2x/waifu2x.go:240-254 | same dimensions, cell (y, x) is f(mat[y][x], n) |
| `Broadcast.BroadcastedData` | waifu2x/waifu2x.go:247-252 | as a flat buffer, element k is f of input element k |
| `Broadcast.BroadcastRow` | waifu2x/waifu2x.go:248-251 | one `for x` loop appends row y of the broadcast |
| `Broadcast.BroadcastMat` | waifu2x/waifu2x.go:240-254 | the fresh buffer is exactly `Broadcasted`; the input is a value and is left as it was |
| `Broadcast.MapVec` | waifu2x/waifu2x.go:256-260 | same length, element i is f(old element i, n) |
| `Broadcast.BroadcastVec` | waifu2x/waifu2x.go:256-260 | the slice is overwritten in place with `MapVec` of its old contents |
| `Broadcast.Clipped` | waifu2x/waifu2x.go:262-280 | same shape, cell (y, x) is the clamp of the input cell |
| `Broadcast.ClippedData` | waifu2x/waifu2x.go:262-280 | flat element k is the clamp of input element k, and lies in [start, end] when start <= end |
| `Broadcast.ClipRow` | waifu2x/waifu2x.go:267-277 | one `for x` loop appends row y of the clamped matrix |
| `Broadcast.Clip` | waifu2x/waifu2x.go:262-280 | a fresh vector of length r*c equal to the buffer of `Clipped` |
| `Sums.SumOfRemove` | waifu2x/waifu2x.go:319-325 | any one received plane can be taken as the last one added |
| `Sums.SumOfPermutation` | waifu2x/waifu2x.go:313-328 | two sequences with the same elements in any order have the same sum |
| `Layers.OutCount` | waifu2x/waifu2x.go:306 | `fi` is at most len(Bias) and at most len(Weight) |
| `Layers.InCount` | waifu2x/waifu2x.go:312 | `fj` is at most len(planes) and at most len(Weight[i]) |
| `Layers.SumPlanes` | waifu2x/waifu2x.go:319-325 | the sum of the received planes keeps their shape |
| `Layers.SumPlanesSnoc` | waifu2x/waifu2x.go:324 | receiving one more plane adds it to `partial` |
| `Layers.SumPlanesCells` | waifu2x/waifu2x.go:319-325 | cell (y, x) of `partial` is the sum of the cells (y, x) of the received planes |
| `Layers.ArrivalOrderIrrelevant` | waifu2x/waifu2x.go:313-328 | the planes received in any order from the goroutines give the same `partial` |
| `Layers.Correlations` | waifu2x/waifu2x.go:314-318 | fj planes, the j-th being `correlate(planes[j], Weight[i][j])`, each (rows-2)×(cols-2) |
| `Layers.PlaneFits` | waifu2x/waifu2x.go:312-318 | every output plane draws on at least one input plane, and each correlation it needs is defined |
| `Layers.OutputPlane` | waifu2x/waifu2x.go:308-330 | output plane i before activation is (rows-2)×(cols-2) |
| `Layers.OutputPlaneCell` | waifu2x/waifu2x.go:308-330 | cell (y, x) of output plane i is the sum over j < fj of the correlations' cells plus Bias[i] |
| `Layers.Activated` | waifu2x/waifu2x.go:333-338 | the three `broadcastMat` calls and `Add` keep the shape and apply the leaky rectifier cell by cell |
| `Layers.LayerOut` | waifu2x/waifu2x.go:305-339 | a layer leaves exactly min(len(Bias), len(Weight)) planes, each (rows-2)×(cols-2) |
| `Layers.LayerCell` | waifu2x/waifu2x.go:305-339 | plane i at (y, x) is the rectified sum of correlations plus bias: the sum when non-negative, a tenth of it otherwise |
| `Layers.ReceiveSum` | waifu2x/waifu2x.go:309-328 | the receive loop, starting from nil `partial`, ends with the sum of the fj correlations |
| `Layers.OutputPlaneOf` | waifu2x/waifu2x.go:308-330 | one iteration over i yields `OutputPlane` |
| `Layers.ActivatePlane` | waifu2x/waifu2x.go:333-338 | the activation as computed equals `Activated` |
| `Layers.OutputPlanes` | waifu2x/waifu2x.go:307-331 | `oPlanes` holds fi planes, the k-th being `OutputPlane` k |
| `Layers.LayerStep` | waifu2x/waifu2x.go:305-339 | one iteration of the layer loop yields `LayerOut` |
| `Layers.Forward` | waifu2x/waifu2x.go:305-340 | L layers need rows, cols >= 2L, shrink both by 2L, and leave OutCount(last layer) planes |
| `Layers.RunLayers` | waifu2x/waifu2x.go:305-340 | the loop over the layers ends with `Forward` |
| `Engine.Luma` | waifu2x/waifu2x.go:125-134 | one value per pixel, its Y sample as a float in [0, 255] |
| `Engine.ExtY` | waifu2x/waifu2x.go:125-134 | a fresh slice equal to `Luma` |
| `Engine.LumaPlane` | waifu2x/waifu2x.go:290 | the height×width matrix of the luminance, well formed when the pixel count matches |
| `Engine.WithY` | waifu2x/waifu2x.go:353-355 | the first len(vec) pixels get the truncated value as Y with chroma kept; the rest are untouched |
| `Engine.StoreY` | waifu2x/waifu2x.go:353-355 | the pixels are updated in place to `WithY` |
| `Engine.FinalY` | waifu2x/waifu2x.go:350-351 | one value per cell, 255 times the clamp into [0, 1], so in [0, 255] |
| `Engine.FinalPlanes` | waifu2x/waifu2x.go:293-340 | after padding by L and L layers the planes are height×width again |
| `Engine.Upscale` | waifu2x/waifu2x.go:283-355 | the run aborts exactly when the last layer does not leave one plane; otherwise one pixel per source pixel |
| `Engine.UpscalePixel` | waifu2x/waifu2x.go:344-355 | pixel (row, col) gets Y = trunc(255 * clip(final cell (row, col), 0, 1)) and keeps its chroma |
| `Engine.NoLayersKeepsImage` | waifu2x/waifu2x.go:290-355 | without layers the image comes back unchanged |
| `Engine.FinalYAt` | waifu2x/waifu2x.go:350-354 | cell (row, col) of the final plane is the value stored for pixel row*cols + col, clamped and scaled by 255 |
| `Engine.IdentityKernelPicksCentre` | waifu2x/waifu2x.go:200-216 | with the identity kernel, `correlate` copies the centre of each window: output cell (i, j) is input cell (i + 1, j + 1), on any plane of at least 3×3 |
| `Engine.IdentityForward` | waifu2x/waifu2x.go:305-340 | one identity layer over a 4×4 plane leaves a plane whose cell (0, 0) is the activation of the input's cell (1, 1) |
| `Engine.IdentityRunPlane` | waifu2x/waifu2x.go:290-340 | for the 2×2 image 10, 20 / 30, 40 and one identity layer, the final plane holds 40/255 at (0, 0) |
| `Engine.IdentityLayerShiftsImage` | waifu2x/waifu2x.go:283-355 | the identity network does not give the image back: pixel (0, 0) with luminance 10 comes out with luminance 40 |
| `Engine.PaddedLuma` | waifu2x/waifu2x.go:286-293 | the luminance matrix padded by L is `Padded(LumaPlane, L)` |
| `Engine.LayerPlanes` | waifu2x/waifu2x.go:286-340 | the planes after the layer loop are `FinalPlanes` |
| `Engine.StoreFinal` | waifu2x/waifu2x.go:350-355 | clip, scale and store leave the pixels `WithY(.., FinalY(plane))` |
| `Engine.IntendedUpscale` | waifu2x/waifu2x.go:293 | the run with edge replication: aborts exactly when the last layer does not leave one plane, one pixel per source pixel otherwise, for any image height |
| `Engine.IntendedAgreesWithoutLayers` | waifu2x/waifu2x.go:293 | without layers the run as written and the intended run agree and return the image |
| `Engine.Waifu2x.constructor` | waifu2x/waifu2x.go:43-53 | the engine holds the models and the source image, and no output yet |
| `Engine.Waifu2x.Exec` | waifu2x/waifu2x.go:283-365 | exits with status 1 leaving `dst` unchanged when `Upscale` aborts, otherwise stores `Upscale`'s pixels in `dst` |

## Left out

- `loadModel` (JSON read and unmarshal), `getImage` (decoding and the
  nearest-neighbour resize of `nfnt/resize`) and `SaveImage` (PNG/JPEG
  encoding) are file I/O and foreign libraries. The model and the pixels are
  parameters of `Engine.Waifu2x.constructor` instead.
- `convertYCbCr` and the final `w.dst.Set` loop (waifu2x/waifu2x.go:357-364)
  are conversions of `image/color`, which is not part of this model. `dst` is
  the sequence of YCbCr pixels in row-major order, which is what that loop
  reads.
- The goroutines and the channel (waifu2x/waifu2x.go:313-320) are replaced by
  a sequential loop over j. `Layers.ArrivalOrderIrrelevant` proves that any
  arrival order gives the same sum.
- The progress counter and the printing to stderr and stdout
  (waifu2x/waifu2x.go:299-303, 326-327, 341, 345) are side output only.
- IEEE-754 rounding is not modelled: values are exact reals. Only that makes
  the arrival order irrelevant.
- `os.Exit(1)` becomes the `Exit(1)` status returned by `Exec`.
- Panics are preconditions: an `At` out of range, a nil `partial` when fj is
  0, an index past a buffer, and a model or image shape the layers cannot use.
  These are `PadFits`, `CorrelateFits`, `LayerFits`, `ForwardFits` and
  `ExecFits`.
- `div` (waifu2x/waifu2x.go:373-375) is never called.
- main.go and options.go parse command-line flags.
- waifu2x/waifu2x_test.go needs a model file at an absolute path and a local
  image file (`miku_small.png`), and it calls `NewWaifu2x` with two of its
  three arguments.
- `Mat.Add` models gonum's in-place `partial.Add(partial, p)` and
  `max.Add(max, part)` as a value. Neither aliased matrix is read again, so
  the update in place is not modelled.
- The inner loops of `pad`, `correlate`, `broadcastMat` and `clip`, and the
  three row loops of `pad`, are separate methods (`PadRow`, `PadTop`,
  `PadMiddle`, `PadBottom`, `CorrelateRow`, `BroadcastRow`, `ClipRow`), and
  the body of the third row loop is `BottomRow`. Each
  takes and returns the running index. `Exec` likewise delegates to
  `PaddedLuma`, `LayerPlanes` and `StoreFinal`. Some reads are hoisted.
  `PadBottom` reads the two bottom corners when its loop starts, where the
  source reads all four corners before any loop (waifu2x/waifu2x.go:144-147).
  `PadMiddle` reads the two side values once per row, where the source reads
  them once per side cell (waifu2x/waifu2x.go:168, 172), and not at all when
  the padding is 0. Under `PadFits` every such read is in range, so no stored
  value changes.
- `correlate` on inputs smaller than 3×3 (a zero-sized gonum matrix) is
  excluded by `CorrelateFits`.
- The `Model` fields `nOutputPlane`, `kW`, `kH` and `nInputPlane` are carried
  but unused: in the source they only feed the progress counter.

## Findings

| source | as written | input that shows it | evidently intended | confidence | as-written member | corrected member |
|---|---|---|---|---|---|---|
| waifu2x/waifu2x.go:149-196 | `pad` reads row `padding` for the top band, source cell (i, j) instead of (i - p, j - p) for the interior, and the last row for all 2p bottom rows | a 3×3 source with values 1..9 and padding 1: cell (1,1) holds 5/255 where the top-left value 1/255 belongs | edge replication: each added cell copies the nearest source cell, each kept cell is the source shifted by the padding | high (proved on the model; not executed) | `Padding.PadIsNotEdgeReplication` | `Padding.EdgePadReplicates` |
| waifu2x/waifu2x.go:140-196 | `pad` fails on images too short for the padding (p > r, or p == r and c > p). With c > p the top band reads row p, past the last row. With p > r and c <= p the three row loops write 3p rows into a buffer of r + 2p rows | a 1×1 image and a two-layer model (padding 2): 6 rows written, 5 allocated, so the write panics past the buffer | every non-empty image can be padded, however many layers | high (proved on the model; not executed) | `Padding.PadOverflowsShortImage` | `Engine.IntendedUpscale` |
