# Mandelbrot navigator: a Dafny model

This project models the sequential core of rolfl/mandelbrot, a Swing application
for exploring the Mandelbrot set. The model has four parts, each in its own
module.

- **The escape-time engine and compositor** (`Mandelbrot`, in `mandelbrot.dfy`).
  - The `Window` refuses a zoom that is not positive.
  - `countIterations` is a bounded loop, proved against the escape time of the
    orbit of 0 under z := z² + c.
  - `mandelbrot` builds a `pixHeight × pixWidth` matrix of counts. It reads them
    off per-axis coordinate tables, or gives the two-quadrant `overZoom`
    sentinel once the per-pixel step drops below `4 × Double.MIN_NORMAL`.
  - `mapMandelbrot` flattens that matrix row by row through a palette.
  - `buildColors` builds the reversed palette.
  - `getAppropriateHeight` returns an odd height.
  - Doubles are exact reals here.
- **The value type `WindowState`** (`WindowStates`, in `windowstate.dfy`).
  - Its doubles are raw IEEE 754 binary64 bit patterns (`bv64`).
  - `equals` compares them through `Double.doubleToLongBits`, using the
    `Ieee754` module in `ieee754.dfy`, and is proved an equivalence relation.
  - `hashCode` is the 31-multiplier fold in `bv32` (32-bit wrap-around). It is
    proved consistent with `equals`.
- **The render scheduler of the main frame** (`Mandy`, in `mandy.dfy`). It is a
  class holding:
  - the current-state reference;
  - the request queue;
  - the control thread's `pending` deque;
  - the palette cache;
  - the zoom spinner's value;
  - the canvas;
  - ghost history: every state ever queued, how many were taken, and which of
    them were rendered.

  Each UI handler call and each pass of the control loop is one method call.
  The methods are:
  - `checkState`: dedup, then enqueue;
  - `manageQueue`: take, drain, render only the newest;
  - `buildBrot`: with `computeIfAbsent` palette memoisation;
  - the wheel handler's zoom clamp.
- **The export resolutions** (`Resolutions`, in `resolution.dfy`).
  - The enum table with its getters.
  - The `"%s (%d x %d)"` label, including a decimal printer proved to read back.
  - A lemma that every resolution exports a full raster.

`java.dfy` holds the Java facts shared by the modules:
- the 32-bit `int`;
- the exceptions the core can throw, as a `Result`;
- the truncating `%` and `(int)` cast.

## Model

| member | source | states |
|---|---|---|
| Java.JavaRem | src/net/tuis/mandelbrot/Mandelbrot.java:130 | Java's `%` for a positive divisor: it agrees with the mathematical remainder on non-negative dividends, has magnitude below the divisor, and for a negative dividend is the non-positive remainder that differs from the dividend by a multiple of the divisor |
| Java.MultipleRemainder | src/net/tuis/mandelbrot/Mandelbrot.java:130 | a multiple of the divisor has remainder 0 |
| Java.TruncToInt | src/net/tuis/mandelbrot/Mandelbrot.java:166 | the `(int)` cast truncates toward zero: it is the largest integer not above a non-negative value and the smallest not below a negative one |
| Ieee754.SameLongBits | src/net/tuis/mandelbrot/WindowState.java:71-76 | two doubles have the same `doubleToLongBits` exactly when their bits are identical or both are NaN |
| Ieee754.LongBitsCanonical | src/net/tuis/mandelbrot/WindowState.java:47-55 | `doubleToLongBits` is idempotent, and the only NaN it returns is the canonical one |
| Ieee754.SignedZeros | src/net/tuis/mandelbrot/WindowState.java:86-88 | +0.0 and -0.0 are the same number, but `doubleToLongBits` tells them apart |
| Mandelbrot.NewWindow | src/net/tuis/mandelbrot/Mandelbrot.java:33-64 | the constructor fails with `IllegalArgumentException` exactly when zoom <= 0; otherwise the getters return the three arguments |
| Mandelbrot.EscapeFrom | src/net/tuis/mandelbrot/Mandelbrot.java:109-114 | the first step from n at which the orbit has escaped or the limit is reached: no step before it escapes, and for a start below the limit it is at most the limit |
| Mandelbrot.EscapeTime | src/net/tuis/mandelbrot/Mandelbrot.java:105-116 | the count is in [0, limit]; below the limit the orbit has escaped at that step; it has not escaped at any earlier step |
| Mandelbrot.CountIterations | src/net/tuis/mandelbrot/Mandelbrot.java:105-116 | the loop returns the escape time: in [0, limit], and below the limit only when the final point has x² + y² >= 4 |
| Mandelbrot.OrbitOfMinusOne | src/net/tuis/mandelbrot/Mandelbrot.java:110-112 | every point of the orbit of c = -1 is 0 or -1, so it stays within {0, -1} |
| Mandelbrot.MinusOneInSet | src/net/tuis/mandelbrot/Mandelbrot.java:105-116 | the point -1 never escapes, so its count is the limit (0 for a negative limit) |
| Mandelbrot.FarPointEscapes | src/net/tuis/mandelbrot/Mandelbrot.java:105-116 | the point 2 + 2i escapes after exactly one step for any positive limit |
| Mandelbrot.OverZoomQuadrants | src/net/tuis/mandelbrot/Mandelbrot.java:172-181 | the sentinel has pixHeight rows of pixWidth cells; the cell is `limit` in the top-right and bottom-left quadrants and 0 elsewhere, split at pixHeight / 2 and pixWidth / 2 |
| Mandelbrot.Fill | src/net/tuis/mandelbrot/Mandelbrot.java:175-179 | `Arrays.fill` sets every index in [from, to) to the value and leaves every other index as it was |
| Mandelbrot.OverZoom | src/net/tuis/mandelbrot/Mandelbrot.java:172-181 | filling two rows and the two halves of the result builds exactly the sentinel pattern |
| Mandelbrot.Mandelbrot | src/net/tuis/mandelbrot/Mandelbrot.java:77-103 | the matrix: rows of empty rows for width 0, the sentinel below `MINSTEP`, otherwise the escape time of each pixel's coordinates; its shape and cells are stated by `MandelbrotShape`, `MandelbrotOverZoom` and `MandelbrotCells` |
| Mandelbrot.MandelbrotSized | src/net/tuis/mandelbrot/Mandelbrot.java:77-84 | `mandelbrot` on any `int` sizes: non-negative sizes give the matrix; a negative width, or a negative height when the step is below `MINSTEP`, makes `overZoom` (Mandelbrot.java:173-175) throw `NegativeArraySizeException`; any other negative height gives no rows |
| Mandelbrot.OverZoomPattern | src/net/tuis/mandelbrot/Mandelbrot.java:172-181 | the sentinel matrix: an upper and a lower row pattern; its quadrants are stated by `OverZoomQuadrants` and `OverZoom` builds it in place |
| Mandelbrot.MandelbrotShape | src/net/tuis/mandelbrot/Mandelbrot.java:77-103 | the matrix has pixHeight rows of pixWidth counts, each in [0, limit] for a non-negative limit, in both the normal and the over-zoom branch |
| Mandelbrot.MandelbrotOverZoom | src/net/tuis/mandelbrot/Mandelbrot.java:83-84 | when the step is below `MINSTEP`, the matrix is the sentinel |
| Mandelbrot.MandelbrotCells | src/net/tuis/mandelbrot/Mandelbrot.java:87-101 | otherwise cell [y][x] is the escape time of the pixel's logical coordinates, left + x·step and bottom + y·step |
| Mandelbrot.PixelGeometry | src/net/tuis/mandelbrot/Mandelbrot.java:80-93 | both axes advance by the same step (3.5 / zoom) / pixWidth; the columns span exactly 3.5 / zoom starting half a span left of the center; row pixHeight / 2 lies on the center, and so does column pixWidth / 2 for even widths |
| Mandelbrot.CenterOnMinusOneInSet | src/net/tuis/mandelbrot/Mandelbrot.java:77-101 | centered on -1 at an even width, the middle pixel is counted as inside the set |
| Mandelbrot.BuildColors | src/net/tuis/mandelbrot/Mandelbrot.java:142-151 | the palette of counts maxIndex down to 0, empty for a negative maxIndex; its length and order are stated by `BuildColorsLayout` |
| Mandelbrot.BuildColorsLayout | src/net/tuis/mandelbrot/Mandelbrot.java:142-151 | the palette has maxIndex + 1 entries; the entry for count k is the shade of maxIndex - k, so in-set points (count maxIndex) get the shade of 0 |
| Mandelbrot.MapMandelbrot | src/net/tuis/mandelbrot/Mandelbrot.java:124-134 | the flattened image or the exception the source raises first (empty matrix, empty first row, empty palette, unindexable row or count); success and pixels are stated by `MapMandelbrotSucceeds` and `MapMandelbrotPixel` |
| Mandelbrot.MapMandelbrotSucceeds | src/net/tuis/mandelbrot/Mandelbrot.java:124-133 | a non-empty rectangular matrix whose counts all have a non-negative Java remainder modulo the palette size, and a non-empty palette, give width × height pixels, each of them a palette entry |
| Mandelbrot.MapMandelbrotPixel | src/net/tuis/mandelbrot/Mandelbrot.java:129-130 | for the same inputs, the pixel at flat index r · width + c is the palette entry at the Java remainder of cell [r][c] modulo the palette size, the ordinary remainder for a non-negative count |
| Mandelbrot.NonNegativeIndexable | src/net/tuis/mandelbrot/Mandelbrot.java:130 | non-negative counts can always be indexed after the remainder, so the engine's own matrices meet the condition above |
| Mandelbrot.ComposeRender | src/net/tuis/mandelbrot/Mandelbrot.java:124-151 | mapping a rendered matrix through the palette of its own limit never throws; it has one pixel per cell, and the pixel of row y, column x is the shade of the inverted count |
| Mandelbrot.GetAppropriateHeight | src/net/tuis/mandelbrot/Mandelbrot.java:165-170 | the height is odd, and equal to the truncated (width / 3.5) · 2 or one more; it stays within one row of 4 · width / 7 |
| Mandelbrot.DefaultHeights | src/net/tuis/mandelbrot/Mandelbrot.java:165-170 | the default 1024-column canvas gets 585 rows, and an 800-column raster gets 457 |
| WindowStates.Equals | src/net/tuis/mandelbrot/WindowState.java:70-89 | the field comparisons of `equals` in the source's order, doubles by `doubleToLongBits`; characterised by `EqualsIff` and proved an equivalence by the three lemmas below |
| WindowStates.EqualsObject | src/net/tuis/mandelbrot/WindowState.java:60-90 | `equals(Object)` with its identity, null and class checks; stated by `EqualsObjectCases` and `EqualsObjectOnStates` |
| WindowStates.HashCode | src/net/tuis/mandelbrot/WindowState.java:43-57 | the 31-fold from 1 over focusX, focusY, limit, pixHeight, pixWidth and zoom in `bv32`; its consistency with `Equals` is `HashConsistentWithEquals` |
| WindowStates.EqualsIff | src/net/tuis/mandelbrot/WindowState.java:70-89 | two states are equal exactly when width, height and limit agree and each double has identical bits or is NaN in both |
| WindowStates.EqualsObjectCases | src/net/tuis/mandelbrot/WindowState.java:60-69 | `equals` is false for null and for another class, and true for the same object |
| WindowStates.EqualsObjectOnStates | src/net/tuis/mandelbrot/WindowState.java:60-90 | on a `WindowState` argument, `equals(Object)` is field-by-field equality, identity shortcut included |
| WindowStates.EqualsReflexive | src/net/tuis/mandelbrot/WindowState.java:70-89 | every state equals itself, NaN fields included |
| WindowStates.EqualsSymmetric | src/net/tuis/mandelbrot/WindowState.java:70-89 | a equals b exactly when b equals a |
| WindowStates.EqualsTransitive | src/net/tuis/mandelbrot/WindowState.java:70-89 | equality is transitive |
| WindowStates.EqualsIgnoresStep | src/net/tuis/mandelbrot/WindowState.java:70-89 | states that differ only in `step` are equal |
| WindowStates.EqualsOnSpecialDoubles | src/net/tuis/mandelbrot/WindowState.java:86-88 | NaNs with different payloads compare equal; +0.0 and -0.0 do not |
| WindowStates.HashConsistentWithEquals | src/net/tuis/mandelbrot/WindowState.java:43-57 | equal states have equal 32-bit hash codes |
| WindowStates.HashIgnoresStep | src/net/tuis/mandelbrot/WindowState.java:43-57 | `step` does not enter the hash |
| Resolutions.Resolution.Width | src/net/tuis/mandelbrot/Resolution.java:20-22 | `getWidth` of each constant; the values are stated by `CatalogTable`, and `AllPositive` and `StrictlyIncreasing` state what holds of them |
| Resolutions.Resolution.Height | src/net/tuis/mandelbrot/Resolution.java:24-26 | `getHeight` of each constant; the values are stated by `CatalogTable`, and `AllPositive` and `StrictlyIncreasing` state what holds of them |
| Resolutions.Resolution.Label | src/net/tuis/mandelbrot/Resolution.java:4-9 | the `text` argument each constant passes to the constructor (Resolution.java:14-17); the labels are stated by `CatalogTable` |
| Resolutions.Values | src/net/tuis/mandelbrot/Resolution.java:4-9 | `values()`: the six constants in declaration order, as `CatalogTable` states; `ValuesDistinct` says none repeats |
| Resolutions.Resolution.ToString | src/net/tuis/mandelbrot/Resolution.java:28-31 | the text formatted once from the label, width and height; its layout is `FormatLayout` and the SVGA text is `SvgaText` |
| Resolutions.Format | src/net/tuis/mandelbrot/Resolution.java:17 | `"%s (%d x %d)"` of a name and two non-negative ints; its parts are stated by `FormatLayout` |
| Resolutions.Decimal | src/net/tuis/mandelbrot/Resolution.java:17 | `%d` of a non-negative int is non-empty; `DecimalDigits` and `DecimalRoundTrip` state that it is digits only and reads back |
| Resolutions.DigitChar | src/net/tuis/mandelbrot/Resolution.java:17 | the character of a digit value is a decimal digit |
| Resolutions.DigitValue | src/net/tuis/mandelbrot/Resolution.java:17 | the value of a decimal digit is below 10 |
| Resolutions.DecimalDigits | src/net/tuis/mandelbrot/Resolution.java:17 | `%d` of a non-negative number prints only digits, with no leading zero except for 0 itself |
| Resolutions.DecimalRoundTrip | src/net/tuis/mandelbrot/Resolution.java:17 | the printed number reads back as the number, so distinct sizes print differently |
| Resolutions.FormatLayout | src/net/tuis/mandelbrot/Resolution.java:17 | the label is the name, " (", the decimal width, " x ", the decimal height and ")", in that order |
| Resolutions.SvgaText | src/net/tuis/mandelbrot/Resolution.java:4-31 | the first resolution is shown as exactly "SVGA (800 x 600)" |
| Resolutions.CatalogTable | src/net/tuis/mandelbrot/Resolution.java:4-26 | there are exactly six constants in declaration order, with the sizes and names as declared, and every constant is among them |
| Resolutions.ValuesDistinct | src/net/tuis/mandelbrot/Resolution.java:4-9 | no constant appears twice in `values()` |
| Resolutions.AllPositive | src/net/tuis/mandelbrot/Resolution.java:4-9 | every width and height is positive |
| Resolutions.StrictlyIncreasing | src/net/tuis/mandelbrot/Resolution.java:4-9 | widths and heights both strictly increase in declaration order |
| Resolutions.ExportRendersFullRaster | src/net/tuis/mandelbrot/ExportAction.java:121-124 | for a positive zoom and a non-negative limit, the export matrix of any resolution has its height in rows, and mapping it through the limit's palette succeeds with width × height pixels |
| Mandy.WheelZoom | src/net/tuis/mandelbrot/Mandy.java:184-186 | the new zoom is val - rotation · 0.1 clamped to [-1.0, 150]: unchanged inside the bounds and the nearer bound outside them |
| Mandy.WheelZoomUndo | src/net/tuis/mandelbrot/Mandy.java:184-186 | the reverse rotation restores a zoom that stayed within the bounds |
| Mandy.Render | src/net/tuis/mandelbrot/Mandy.java:264-268 | `buildBrot`'s window, matrix and image for a state and palette; its outcome for every state is stated by `RenderOutcome` |
| Mandy.RenderOutcome | src/net/tuis/mandelbrot/Mandy.java:266-269 | rendering with the limit's own palette fails for a non-positive zoom (IllegalArgument), then a negative width, or a negative height when over-zoomed (NegativeArraySize), then any other height that is not positive (IndexOutOfBounds), then an empty width (IllegalArgument), then a negative limit (Arithmetic); otherwise it succeeds with width × height pixels |
| Mandy.RenderRespectsEquals | src/net/tuis/mandelbrot/Mandy.java:244-247 | two equal renderable states render identically, so skipping an equal state loses no image |
| Mandy.StillTracking | src/net/tuis/mandelbrot/Mandy.java:244-247 | a request equal to the previous state, where that state matches the newest queued one, matches the newest queued one too |
| Mandy.NewestTracked | src/net/tuis/mandelbrot/Mandy.java:250 | a state just appended to the queue is equal to the newest queued state |
| Mandy.Mandy.constructor | src/net/tuis/mandelbrot/Mandy.java:55-73 | the frame starts with the all-zero current state, an empty queue, no palettes, the zoom spinner at 0, no image and a live control thread |
| Mandy.Mandy.CheckState | src/net/tuis/mandelbrot/Mandy.java:232-258 | the new state always replaces the current one. If it equals the previous state, nothing is queued and the controls are untouched. Otherwise it is appended to the queue and the controls are derived from it, or, on a full queue, `IllegalStateException` is thrown. After a successful call, the current state keeps matching the newest queued state |
| Mandy.Mandy.Schedule | src/net/tuis/mandelbrot/Mandy.java:249-256 | below capacity the state is appended and the controls follow it; at capacity the handler throws and nothing changes |
| Mandy.Mandy.Offer | src/net/tuis/mandelbrot/Mandy.java:250 | `offer` appends at the tail exactly when the queue is below `Integer.MAX_VALUE` elements, and otherwise leaves the queue alone |
| Mandy.Mandy.ColorsFor | src/net/tuis/mandelbrot/Mandy.java:264 | the palette returned is `buildColors(limit)`. A present key leaves the cache unchanged; an absent key gets that palette stored under it; no other key changes |
| Mandy.Mandy.BuildBrot | src/net/tuis/mandelbrot/Mandy.java:262-276 | the cache gets the limit's palette. The image of the state replaces the canvas, or the exception ends the control thread and the canvas is kept |
| Mandy.Mandy.ManageQueueStep | src/net/tuis/mandelbrot/Mandy.java:213-227 | while the control thread is alive and the queue is not empty, one pass empties the queue and `pending` and renders only the most recently queued state, recording it as the newest rendered one; otherwise nothing happens |
| Mandy.Mandy.TakeLatest | src/net/tuis/mandelbrot/Mandy.java:217-220 | every queued state is taken, and the one kept is the last of them, which is the newest state ever queued (`LastQueued`) |
| Mandy.Mandy.TakeAndDrain | src/net/tuis/mandelbrot/Mandy.java:217-218 | `take` then `drainTo` move every queued state, in order, into `pending` |
| Mandy.Mandy.MouseWheelMoved | src/net/tuis/mandelbrot/Mandy.java:179-188 | the spinner's zoom becomes the clamped `WheelZoom` value and stays in [-1.0, 150] |
| Mandy.RequestBurst | src/net/tuis/mandelbrot/Mandy.java:232-256 | from the initial frame, three requests that differ in their limit are all queued, in order, and the last becomes the current state |
| Mandy.CoalescingScenario | src/net/tuis/mandelbrot/Mandy.java:213-258 | three different requests made before the control thread wakes are rendered as one image of the third; repeating that request queues nothing, and the next pass is idle |

The scheduler's class invariant `Valid` holds these facts:
- `pending` is empty between passes.
- The queue is the untaken tail of everything ever queued, within capacity.
- Every queued state has finite doubles (`Renderable`).
- Every cached palette is `buildColors` of its key.
- The rendered positions strictly increase, so the rendered states form an
  order-preserving subsequence of the queued ones.
- The last rendered position is the last state taken, so each rendered state
  is the newest of its drained batch.
- The zoom spinner stays within its bounds.

`Tracks` (the current state matches the newest queued one) is preserved by
every successful `CheckState`.

## Left out

- The Swing user interface is not modelled. This covers:
  - layout, spinners, labels, the activity flag and `invokeLater`;
  - the icons the frame sets;
  - the drag and double-click handlers, which only set the focus spinners and call `checkState`;
  - the text of the zoom and span labels.

  The step sizes and labels `checkState` updates are modelled as one field, `controlsFrom`: the state they were derived from.
- The constructor's own `checkState` call (Mandy.java:202) is not part of the constructor model; it is an ordinary `CheckState` call.
- Threads are not modelled. This covers the daemon control thread, the blocking `take` and interrupts. A pass on an empty queue returns at once instead of blocking. An `InterruptedException` would be printed and the loop would continue (Mandy.java:222-225), which leaves the state as it is. Any other exception ends the thread; this is modelled as `controlAlive` becoming false.
- The parallel stream over rows in `mandelbrot` is not modelled: rows are computed as independent values.
- Floating point:
  - IEEE rounding in the engine is not modelled. The engine computes on exact reals, so the `MINSTEP` comparison and the coordinate tables are exact.
  - `WindowState` keeps the doubles' bits, and `Mandy` reads finite ones as reals through `Ieee754.DoubleValue`.
  - `checkState` computes `z = Math.pow(10, zoom)` and `step = span / w` itself (Mandy.java:236, 240). The model's `CheckState` takes `z` and `step` as arguments and does not read `zoomValue`, so the link from the wheel handler's new spinner value to the queued state (Mandy.java:185-187) is the caller's.
  - The zoom spinner's value `zoomValue` and the wheel handler's `val - rotation * 0.1` (`WheelZoom`) are exact reals, not doubles: the clamp is modelled exactly, but the rounding of each step is not.
- Mandy.WheelZoomUndo: holds only in exact arithmetic. With Java doubles, 0.2 rolled up one notch gives 0.30000000000000004 and rolled back gives 0.20000000000000004, so the undo can be off by one unit in the last place.
- `Color.getHSBColor` and `getRGB` are foreign calls. They are a function parameter `shade(c, maxIndex)`, so `buildColors` is modelled for length and order only.
- `System.nanoTime` and the render-time label are not modelled.
- `BufferedImage` construction and `setRGB` are not modelled. The image is the flat pixel sequence. The exceptions `mapMandelbrot` can throw are kept:
  - an empty matrix has no `mand[0]` (Mandelbrot.java:125) and throws `IndexOutOfBounds`;
  - an empty first row makes `new BufferedImage` (Mandelbrot.java:127) throw `IllegalArgument`;
  - an empty palette makes `% color.length` (Mandelbrot.java:130) throw an arithmetic fault;
  - indexing `mand[...]` or `color[...]` (Mandelbrot.java:130) throws `IndexOutOfBounds` for a row too short, or for a count whose Java remainder modulo the palette size is negative (a negative multiple of the palette size has remainder 0 and picks `color[0]`).
- In `overZoom` the rows share two arrays. The model copies each row into an immutable sequence, which is indistinguishable because the matrix is only read afterwards.
- The `int` overflow of `width * height` in `mapMandelbrot` is not modelled; sizes are unbounded.
- Mandy.Mandy.CheckState: requires finite focus and zoom doubles, which the model needs to decode them as reals; any canvas size is accepted. `SpinnerNumberModel.setValue` does no bounds check, so the focus is not kept finite by the spinners' bounds. It stays finite because the drag and click handlers (Mandy.java:147-148, 172-173) move it by a pixel offset times the step `3.5 / z / w`, which is finite for a canvas with a width, as is any canvas that receives mouse events; the model does not prove this. The zoom is `Math.pow(10, v)` for a spinner value in [-1, 150], which is finite.
- Three things in `buildBrot` are not modelled:
  - the EDT's repeated `checkState` after an image is shown (Mandy.java:274), which is a separate `CheckState` call;
  - the icon;
  - the timing label.
- The null checks on `currentState.get()` in the mouse handlers are not modelled; the reference is never null.
- `ExportAction.java` is not modelled beyond the raster it renders. This leaves out:
  - the file chooser, the progress monitor, the executor, the PNG write and the file name;
  - a detail of `actionPerformed`: it disables the action (ExportAction.java:58), and only `saveFile`'s `finally` block re-enables it (ExportAction.java:114-117). A cancelled dialog closes the monitor without re-enabling the action (ExportAction.java:80-82).
- `FractIcons.java` is not part of this model. It is a one-time call into the engine plus icon painting; its constant `S63` has size 64 (FractIcons.java:17).
- Resolutions.SvgaText: assumes a default locale whose digits are the ASCII digits. `String.format` prints `%d` with the default locale's digits, and `Decimal` always prints ASCII digits.
- Resolutions.SvgaText: the exact full label is proved for SVGA only. For every constant, `FormatLayout` and `DecimalRoundTrip` state how the label is composed and where its numbers read back.
- Resolutions.FormatLayout: states where each part of the label lies, rather than parsing the label back in one step.

Three facts about the source that shape the model:
- `new LinkedBlockingQueue<>()` (Mandy.java:55) has capacity `Integer.MAX_VALUE`, so `offer` can fail; the throwing branch is modelled.
- Mandy.java:73 and :242 pass seven arguments to `WindowState`, whose constructor (WindowState.java:8) takes six, and Mandy.java:147 and :170 read a `getStep()` that `WindowState.java` does not declare. The model adds `step` as a field that `equals` and `hashCode` ignore.
- `BorderLayout` gives the CENTER canvas whatever width is left beside the EAST panel (Mandy.java:195, 198) without clamping it at zero, so a frame narrower than the panel hands `checkState` (called from `componentResized`, Mandy.java:126) a negative width. That state is queued, its negative step is below `MINSTEP`, and `overZoom` throws `NegativeArraySizeException`, which ends the control thread. `CheckState` accepts any size, and `Render` fails with `NegativeArraySize` there.
