/** The escape-time engine and the compositor of `Mandelbrot.java`: the window a
    render looks through, the per-pixel iteration count, the iteration matrix with
    its over-zoom fallback, the palette, the mapping of a matrix through a palette
    and the odd height that suits a width. Doubles are modelled as exact reals. */
module Mandelbrot {
  import opened Java
  import Ieee754

  /** Width of the logical plane shown at zoom 1 (the set spans -2.5 to 1.0). */
  const SPAN: real := 3.5

  /** Below this per-pixel step doubles cannot resolve neighbouring pixels:
      `Double.MIN_NORMAL * 4`. */
  const MINSTEP: real := Ieee754.MIN_NORMAL * 4.0

  // ---------------------------------------------------------------------------
  // Window

  /** The center of focus and the zoom degree of a render. */
  datatype Window = Window(centerX: real, centerY: real, zoom: real)

  /** The `Window` constructor: it refuses a zoom that is not positive. */
  function NewWindow(centerX: real, centerY: real, zoom: real): (r: Result<Window>)
    ensures r.Failure? <==> zoom <= 0.0
    ensures r.Failure? ==> r.fault == IllegalArgument
    ensures r.Success? ==> r.value.centerX == centerX && r.value.centerY == centerY && r.value.zoom == zoom
  {
    if zoom <= 0.0 then Failure(IllegalArgument) else Success(Window(centerX, centerY, zoom))
  }

  // ---------------------------------------------------------------------------
  // Escape time of one point

  datatype Point = Point(x: real, y: real)

  /** One step of z := z*z + c, with z = (x, y) and c = (x0, y0). */
  function Iterate(z: Point, x0: real, y0: real): Point {
    Point(z.x * z.x - z.y * z.y + x0, 2.0 * z.x * z.y + y0)
  }

  /** The n-th point of the orbit of 0 under z := z*z + c. */
  function Orbit(x0: real, y0: real, n: nat): Point {
    if n == 0 then Point(0.0, 0.0) else Iterate(Orbit(x0, y0, n - 1), x0, y0)
  }

  /** The orbit has left the disc of radius 2. */
  predicate Escaped(z: Point) {
    z.x * z.x + z.y * z.y >= 4.0
  }

  /** The first iteration, from n on, at which the orbit has escaped or the limit is reached. */
  function EscapeFrom(limit: int, x0: real, y0: real, n: nat): (r: nat)
    decreases limit - n
    ensures n <= r
    ensures n < limit ==> r <= limit
    ensures r >= limit || Escaped(Orbit(x0, y0, r))
    ensures forall k :: n <= k < r ==> k < limit && !Escaped(Orbit(x0, y0, k))
  {
    if n >= limit || Escaped(Orbit(x0, y0, n)) then n else EscapeFrom(limit, x0, y0, n + 1)
  }

  /** The escape count of the point (x0, y0): the number of steps taken before the
      orbit leaves the disc of radius 2, or `limit` if it never does in time. */
  function EscapeTime(limit: int, x0: real, y0: real): (r: nat)
    ensures limit <= 0 ==> r == 0
    ensures limit >= 0 ==> r <= limit
    ensures r < limit ==> Escaped(Orbit(x0, y0, r))
    ensures forall k :: 0 <= k < r ==> !Escaped(Orbit(x0, y0, k))
  {
    EscapeFrom(limit, x0, y0, 0)
  }

  /** `countIterations`: iterate until the orbit escapes or the limit is reached. */
  method CountIterations(limit: Int32, x0: real, y0: real) returns (iterations: int)
    ensures iterations == EscapeTime(limit, x0, y0)
    ensures 0 <= iterations && (limit >= 0 ==> iterations <= limit)
    ensures iterations < limit ==> Escaped(Orbit(x0, y0, iterations))
  {
    var x := 0.0;
    var y := 0.0;
    iterations := 0;
    while !Escaped(Point(x, y)) && iterations < limit
      invariant 0 <= iterations
      invariant Point(x, y) == Orbit(x0, y0, iterations)
      invariant EscapeFrom(limit, x0, y0, iterations) == EscapeTime(limit, x0, y0)
      decreases limit - iterations
    {
      var next := Iterate(Point(x, y), x0, y0);
      x, y := next.x, next.y;
      iterations := iterations + 1;
    }
  }

  /** The orbit of c = -1 never leaves the two points 0 and -1. */
  lemma {:induction false} OrbitOfMinusOne(n: nat)
    ensures Orbit(-1.0, 0.0, n) == Point(0.0, 0.0) || Orbit(-1.0, 0.0, n) == Point(-1.0, 0.0)
  {
    if n > 0 {
      OrbitOfMinusOne(n - 1);
    }
  }

  /** The point -1 lies in the body of the set: it never escapes, whatever the limit. */
  lemma MinusOneInSet(limit: int)
    ensures EscapeTime(limit, -1.0, 0.0) == if limit >= 0 then limit else 0
  {
    var r := EscapeTime(limit, -1.0, 0.0);
    if r < limit {
      OrbitOfMinusOne(r);
    }
  }

  /** The point 2 + 2i escapes after a single step for any positive limit. */
  lemma FarPointEscapes(limit: int)
    requires limit >= 1
    ensures EscapeTime(limit, 2.0, 2.0) == 1
  {
    var start := Orbit(2.0, 2.0, 0);
    assert start == Point(0.0, 0.0);
    assert !Escaped(start) by {
      assert start.x * start.x + start.y * start.y == 0.0;
    }
    var first := Orbit(2.0, 2.0, 1);
    assert first == Iterate(start, 2.0, 2.0);
    assert first == Point(2.0, 2.0) by {
      assert start.x * start.x - start.y * start.y + 2.0 == 2.0;
      assert 2.0 * start.x * start.y + 2.0 == 2.0;
    }
    assert Escaped(first) by {
      assert first.x * first.x + first.y * first.y == 8.0;
    }
    assert EscapeFrom(limit, 2.0, 2.0, 1) == 1;
    assert EscapeFrom(limit, 2.0, 2.0, 0) == EscapeFrom(limit, 2.0, 2.0, 1);
  }

  // ---------------------------------------------------------------------------
  // The iteration matrix

  /** Logical distance between neighbouring pixels, on both axes. */
  function PixelStep(pixWidth: nat, zoom: real): real
    requires pixWidth > 0 && zoom > 0.0
  {
    SPAN / zoom / pixWidth as real
  }

  /** The step is too small for doubles to resolve; the engine gives up iterating. */
  predicate OverZoomed(pixWidth: nat, window: Window)
    requires window.zoom > 0.0
  {
    pixWidth > 0 && PixelStep(pixWidth, window.zoom) < MINSTEP
  }

  /** The sentinel drawn when the zoom is beyond double precision: rows in the upper
      half hold 0 left of the middle column and `limit` from it on, rows in the lower
      half the reverse. */
  function OverZoomPattern(pixWidth: nat, pixHeight: nat, limit: int): seq<seq<int>> {
    var top := seq(pixWidth, x => if x < pixWidth / 2 then 0 else limit);
    var bottom := seq(pixWidth, x => if x < pixWidth / 2 then limit else 0);
    seq(pixHeight, y => if y < pixHeight / 2 then top else bottom)
  }

  /** The sentinel paints `limit` into the top-right and bottom-left quadrants and 0
      into the other two. */
  lemma OverZoomQuadrants(pixWidth: nat, pixHeight: nat, limit: int)
    ensures |OverZoomPattern(pixWidth, pixHeight, limit)| == pixHeight
    ensures forall y :: 0 <= y < pixHeight ==> |OverZoomPattern(pixWidth, pixHeight, limit)[y]| == pixWidth
    ensures forall y, x :: 0 <= y < pixHeight && 0 <= x < pixWidth ==>
      OverZoomPattern(pixWidth, pixHeight, limit)[y][x] ==
        if (y < pixHeight / 2) == (x < pixWidth / 2) then 0 else limit
  {
  }

  /** `Arrays.fill(a, from, to, v)`. */
  method Fill<T>(a: array<T>, from: nat, to: nat, v: T)
    requires from <= to <= a.Length
    modifies a
    ensures forall i :: 0 <= i < a.Length ==> a[i] == if from <= i < to then v else old(a[i])
  {
    var i := from;
    while i < to
      invariant from <= i <= to
      invariant forall k :: 0 <= k < a.Length ==> a[k] == if from <= k < i then v else old(a[k])
    {
      a[i] := v;
      i := i + 1;
    }
  }

  /** `overZoom`: builds the sentinel with two filled rows, each shared by one half
      of the result. */
  method OverZoom(pixWidth: nat, pixHeight: nat, limit: int) returns (result: seq<seq<int>>)
    ensures result == OverZoomPattern(pixWidth, pixHeight, limit)
  {
    var rows := new seq<int>[pixHeight](_ => []);
    var row := new int[pixWidth](_ => 0);
    Fill(row, pixWidth / 2, pixWidth, limit);
    Fill(rows, 0, pixHeight / 2, row[..]);
    row := new int[pixWidth](_ => 0);
    Fill(row, 0, pixWidth / 2, limit);
    Fill(rows, pixHeight / 2, pixHeight, row[..]);
    result := rows[..];
    var expected := OverZoomPattern(pixWidth, pixHeight, limit);
    assert |result| == |expected|;
    forall y | 0 <= y < pixHeight
      ensures result[y] == expected[y]
    {
      assert |result[y]| == |expected[y]|;
    }
  }

  /** Logical x of the left edge: half a span left of the center. */
  function Left(window: Window): real
    requires window.zoom > 0.0
  {
    window.centerX - SPAN / window.zoom / 2.0
  }

  /** Logical y of row 0: `pixHeight / 2` whole steps below the center. */
  function Bottom(pixWidth: nat, pixHeight: nat, window: Window): real
    requires pixWidth > 0 && window.zoom > 0.0
  {
    window.centerY - (pixHeight / 2) as real * PixelStep(pixWidth, window.zoom)
  }

  /** The i-th entry of a per-axis coordinate table. */
  function Coordinate(origin: real, step: real, i: int): real {
    origin + i as real * step
  }

  /** `mandelbrot`: the escape count of every pixel, row by row, read off two
      per-axis coordinate tables that use the same step. */
  function Mandelbrot(pixWidth: nat, pixHeight: nat, limit: int, window: Window): (m: seq<seq<int>>)
    requires window.zoom > 0.0
  {
    if pixWidth == 0 then
      // the step is 3.5 / zoom / 0, positive infinity, so the rows are computed and empty
      seq(pixHeight, _ => [])
    else if OverZoomed(pixWidth, window) then
      OverZoomPattern(pixWidth, pixHeight, limit)
    else
      var xStep := PixelStep(pixWidth, window.zoom);
      var left := Left(window);
      var bottom := Bottom(pixWidth, pixHeight, window);
      var scaleX := seq(pixWidth, x => Coordinate(left, xStep, x));
      var scaleY := seq(pixHeight, y => Coordinate(bottom, xStep, y));
      seq(pixHeight, y requires 0 <= y < pixHeight =>
        seq(pixWidth, x requires 0 <= x < pixWidth => EscapeTime(limit, scaleX[x], scaleY[y])))
  }

  /** `mandelbrot` on any pair of Java `int` sizes. A negative width makes the step
      negative, so below MINSTEP, and `overZoom` allocates an array of negative
      size. A negative height with a width does the same when the step is too small
      and otherwise streams no rows. */
  function MandelbrotSized(pixWidth: int, pixHeight: int, limit: int, window: Window): (r: Result<seq<seq<int>>>)
    requires window.zoom > 0.0
    ensures pixWidth >= 0 && pixHeight >= 0 ==> r == Success(Mandelbrot(pixWidth, pixHeight, limit, window))
    ensures r.Failure? <==> pixWidth < 0 || (pixHeight < 0 && OverZoomed(pixWidth, window))
    ensures r.Failure? ==> r.fault == NegativeArraySize
    ensures pixWidth >= 0 && pixHeight < 0 && r.Success? ==> r.value == []
  {
    if pixWidth < 0 then Failure(NegativeArraySize)
    else if pixHeight < 0 then
      if OverZoomed(pixWidth, window) then Failure(NegativeArraySize) else Success([])
    else Success(Mandelbrot(pixWidth, pixHeight, limit, window))
  }

  /** Logical coordinates of the pixel in column x and row y. */
  function PixelX(pixWidth: nat, window: Window, x: int): real
    requires pixWidth > 0 && window.zoom > 0.0
  {
    Coordinate(Left(window), PixelStep(pixWidth, window.zoom), x)
  }

  function PixelY(pixWidth: nat, pixHeight: nat, window: Window, y: int): real
    requires pixWidth > 0 && window.zoom > 0.0
  {
    Coordinate(Bottom(pixWidth, pixHeight, window), PixelStep(pixWidth, window.zoom), y)
  }

  /** The matrix has `pixHeight` rows of `pixWidth` counts, each in [0, limit], in
      the normal and in the over-zoom case alike. */
  lemma MandelbrotShape(pixWidth: nat, pixHeight: nat, limit: int, window: Window)
    requires window.zoom > 0.0
    ensures |Mandelbrot(pixWidth, pixHeight, limit, window)| == pixHeight
    ensures forall y :: 0 <= y < pixHeight ==> |Mandelbrot(pixWidth, pixHeight, limit, window)[y]| == pixWidth
    ensures limit >= 0 ==> forall y, x :: 0 <= y < pixHeight && 0 <= x < pixWidth ==>
      0 <= Mandelbrot(pixWidth, pixHeight, limit, window)[y][x] <= limit
  {
    if OverZoomed(pixWidth, window) {
      OverZoomQuadrants(pixWidth, pixHeight, limit);
    }
  }

  /** Below the precision floor the engine returns the sentinel. */
  lemma MandelbrotOverZoom(pixWidth: nat, pixHeight: nat, limit: int, window: Window)
    requires window.zoom > 0.0 && OverZoomed(pixWidth, window)
    ensures Mandelbrot(pixWidth, pixHeight, limit, window) == OverZoomPattern(pixWidth, pixHeight, limit)
  {
  }

  /** Otherwise every cell is the escape count of its pixel's logical coordinates. */
  lemma MandelbrotCells(pixWidth: nat, pixHeight: nat, limit: int, window: Window, y: int, x: int)
    requires window.zoom > 0.0 && pixWidth > 0 && !OverZoomed(pixWidth, window)
    requires 0 <= y < pixHeight && 0 <= x < pixWidth
    ensures y < |Mandelbrot(pixWidth, pixHeight, limit, window)|
    ensures x < |Mandelbrot(pixWidth, pixHeight, limit, window)[y]|
    ensures Mandelbrot(pixWidth, pixHeight, limit, window)[y][x] ==
      EscapeTime(limit, PixelX(pixWidth, window, x), PixelY(pixWidth, pixHeight, window, y))
  {
  }

  /** The pixel grid is square, spans exactly `3.5 / zoom` horizontally, and puts the
      center of focus on row `pixHeight / 2` and, for even widths, on column
      `pixWidth / 2`. */
  lemma PixelGeometry(pixWidth: nat, pixHeight: nat, window: Window)
    requires window.zoom > 0.0 && pixWidth > 0
    ensures forall x :: PixelX(pixWidth, window, x + 1) - PixelX(pixWidth, window, x) == PixelStep(pixWidth, window.zoom)
    ensures forall y :: PixelY(pixWidth, pixHeight, window, y + 1) - PixelY(pixWidth, pixHeight, window, y) == PixelStep(pixWidth, window.zoom)
    ensures PixelX(pixWidth, window, pixWidth) - PixelX(pixWidth, window, 0) == SPAN / window.zoom
    ensures PixelX(pixWidth, window, 0) == window.centerX - SPAN / window.zoom / 2.0
    ensures PixelY(pixWidth, pixHeight, window, pixHeight / 2) == window.centerY
    ensures pixWidth % 2 == 0 ==> PixelX(pixWidth, window, pixWidth / 2) == window.centerX
  {
    var step := PixelStep(pixWidth, window.zoom);
    var w := pixWidth as real;
    assert w * step == SPAN / window.zoom;
    if pixWidth % 2 == 0 {
      assert (pixWidth / 2) as real == w / 2.0;
      assert (pixWidth / 2) as real * step == SPAN / window.zoom / 2.0;
    }
  }

  /** Centered on -1 at an even width, the middle pixel is classified as inside the set. */
  lemma CenterOnMinusOneInSet(pixWidth: nat, pixHeight: nat, limit: int, zoom: real)
    requires zoom > 0.0 && pixWidth > 0 && pixWidth % 2 == 0 && pixHeight > 0 && limit >= 0
    requires !OverZoomed(pixWidth, Window(-1.0, 0.0, zoom))
    ensures Mandelbrot(pixWidth, pixHeight, limit, Window(-1.0, 0.0, zoom))[pixHeight / 2][pixWidth / 2] == limit
  {
    var window := Window(-1.0, 0.0, zoom);
    MandelbrotCells(pixWidth, pixHeight, limit, window, pixHeight / 2, pixWidth / 2);
    PixelGeometry(pixWidth, pixHeight, window);
    MinusOneInSet(limit);
  }

  // ---------------------------------------------------------------------------
  // Palette and compositing

  /** `buildColors`: one colour per count 0..maxIndex, in reverse, so that entry i is
      the colour of `maxIndex - i`. `shade(c, maxIndex)` stands for the HSB colour
      the source computes from c and the square root of maxIndex. */
  function BuildColors(maxIndex: int, shade: (int, int) -> int): seq<int> {
    if maxIndex < 0 then [] else seq(maxIndex + 1, i => shade(maxIndex - i, maxIndex))
  }

  /** The palette has `maxIndex + 1` entries; the entry for count k is the shade of
      the inverted count `maxIndex - k`, so points in the set (count `maxIndex`) get
      the shade of 0 and count 0 gets the shade of `maxIndex`. */
  lemma BuildColorsLayout(maxIndex: int, shade: (int, int) -> int)
    requires maxIndex >= 0
    ensures |BuildColors(maxIndex, shade)| == maxIndex + 1
    ensures forall c :: 0 <= c <= maxIndex ==> BuildColors(maxIndex, shade)[maxIndex - c] == shade(c, maxIndex)
    ensures BuildColors(maxIndex, shade)[maxIndex] == shade(0, maxIndex)
    ensures BuildColors(maxIndex, shade)[0] == shade(maxIndex, maxIndex)
  {
  }

  /** Every row is at least `width` long. */
  predicate WideRows(mand: seq<seq<int>>, width: nat) {
    forall r :: 0 <= r < |mand| ==> width <= |mand[r]|
  }

  /** No count in the first `width` columns has a negative Java remainder modulo n. */
  predicate IndexableCounts(mand: seq<seq<int>>, width: nat, n: int)
    requires n > 0 && WideRows(mand, width)
  {
    forall r, c :: 0 <= r < |mand| && 0 <= c < width ==> JavaRem(mand[r][c], n) >= 0
  }

  lemma {:induction false} MulAtLeast(k: int, w: int)
    requires k >= 1 && w > 0
    ensures k * w >= w
  {
    if k > 1 {
      MulAtLeast(k - 1, w);
      assert k * w == (k - 1) * w + w;
    }
  }

  /** A flat index below width * height lies in one of the `height` rows. */
  lemma RowOfIndex(p: int, width: int, height: int)
    requires width > 0 && 0 <= p < width * height
    ensures 0 <= p / width < height
  {
    var q := p / width;
    if q >= height {
      MulAtLeast(q - height + 1, width);
    }
  }

  /** Row r, column c sits at flat index r * width + c. */
  lemma RowMajorIndex(r: int, c: int, width: int)
    requires r >= 0 && 0 <= c < width
    ensures (r * width + c) / width == r
    ensures (r * width + c) % width == c
  {
    var n := r * width + c;
    var q, m := n / width, n % width;
    assert (r - q) * width == m - c;
    if r > q {
      MulAtLeast(r - q, width);
    } else if r < q {
      MulAtLeast(q - r, width);
    }
  }

  /** `mapMandelbrot`: the width is that of row 0; pixel p is the palette entry of
      the count in row `p / width`, column `p % width`, modulo the palette size.
      An empty matrix, an empty first row (a raster with no width), an empty palette
      and a row or count that cannot be indexed each raise what the source raises. */
  function MapMandelbrot(mand: seq<seq<int>>, color: seq<int>): (pixels: Result<seq<int>>)
  {
    if |mand| == 0 then Failure(IndexOutOfBounds)
    else
      var width := |mand[0]|;
      var height := |mand|;
      if width == 0 then Failure(IllegalArgument)
      else if |color| == 0 then Failure(Arithmetic)
      else if !WideRows(mand, width) || !IndexableCounts(mand, width, |color|) then Failure(IndexOutOfBounds)
      else
        Success(seq(width * height, p requires 0 <= p < width * height =>
          RowOfIndex(p, width, height);
          color[JavaRem(mand[p / width][p % width], |color|)]))
  }

  /** Every row is as long as row 0. */
  predicate Rectangular(mand: seq<seq<int>>) {
    forall r :: 0 <= r < |mand| ==> |mand[r]| == |mand[0]|
  }

  predicate NonNegativeCounts(mand: seq<seq<int>>) {
    forall r, c :: 0 <= r < |mand| && 0 <= c < |mand[r]| ==> mand[r][c] >= 0
  }

  /** A non-empty rectangular matrix whose counts all have a non-negative Java
      remainder modulo the palette size, and a non-empty palette, map to
      `width * height` pixels, each of them a palette colour. */
  lemma MapMandelbrotSucceeds(mand: seq<seq<int>>, color: seq<int>)
    requires |mand| > 0 && |mand[0]| > 0 && |color| > 0
    requires Rectangular(mand) && IndexableCounts(mand, |mand[0]|, |color|)
    ensures MapMandelbrot(mand, color).Success?
    ensures |MapMandelbrot(mand, color).value| == |mand[0]| * |mand|
    ensures forall p :: 0 <= p < |MapMandelbrot(mand, color).value| ==> MapMandelbrot(mand, color).value[p] in color
  {
  }

  /** Non-negative counts always have a non-negative remainder. */
  lemma NonNegativeIndexable(mand: seq<seq<int>>, n: int)
    requires |mand| > 0 && n > 0
    requires Rectangular(mand) && NonNegativeCounts(mand)
    ensures IndexableCounts(mand, |mand[0]|, n)
  {
  }

  /** The pixel of row r, column c sits at flat index `r * width + c` and is the
      palette entry at the Java remainder of that cell's count modulo the palette
      size, which for a non-negative count is the ordinary remainder. */
  lemma MapMandelbrotPixel(mand: seq<seq<int>>, color: seq<int>, r: int, c: int)
    requires |mand| > 0 && |mand[0]| > 0 && |color| > 0
    requires Rectangular(mand) && IndexableCounts(mand, |mand[0]|, |color|)
    requires 0 <= r < |mand| && 0 <= c < |mand[0]|
    ensures MapMandelbrot(mand, color).Success?
    ensures 0 <= r * |mand[0]| + c < |MapMandelbrot(mand, color).value|
    ensures MapMandelbrot(mand, color).value[r * |mand[0]| + c] == color[JavaRem(mand[r][c], |color|)]
    ensures mand[r][c] >= 0 ==> MapMandelbrot(mand, color).value[r * |mand[0]| + c] == color[mand[r][c] % |color|]
  {
    var width, height := |mand[0]|, |mand|;
    MapMandelbrotSucceeds(mand, color);
    RowMajorIndex(r, c, width);
    MulAtLeast(height - r, width);
    assert width * height == r * width + (height - r) * width;
  }

  /** Mapping a rendered matrix through the palette of its limit never raises and
      never wraps: the image has one pixel per cell, and the pixel of row y, column x
      is the shade of the inverted count, so points in the set get the shade of 0. */
  lemma ComposeRender(pixWidth: nat, pixHeight: nat, limit: int, window: Window, shade: (int, int) -> int,
                      y: int, x: int)
    requires window.zoom > 0.0 && limit >= 0
    requires 0 <= y < pixHeight && 0 <= x < pixWidth
    ensures MapMandelbrot(Mandelbrot(pixWidth, pixHeight, limit, window), BuildColors(limit, shade)).Success?
    ensures |MapMandelbrot(Mandelbrot(pixWidth, pixHeight, limit, window), BuildColors(limit, shade)).value|
      == pixWidth * pixHeight
    ensures 0 <= y * pixWidth + x < pixWidth * pixHeight
    ensures MapMandelbrot(Mandelbrot(pixWidth, pixHeight, limit, window), BuildColors(limit, shade)).value[y * pixWidth + x]
      == shade(limit - Mandelbrot(pixWidth, pixHeight, limit, window)[y][x], limit)
  {
    var m := Mandelbrot(pixWidth, pixHeight, limit, window);
    var colors := BuildColors(limit, shade);
    MandelbrotShape(pixWidth, pixHeight, limit, window);
    BuildColorsLayout(limit, shade);
    assert Rectangular(m) && NonNegativeCounts(m);
    NonNegativeIndexable(m, |colors|);
    MapMandelbrotSucceeds(m, colors);
    MapMandelbrotPixel(m, colors, y, x);
    ModOfSmall(m[y][x], |colors|);
  }

  lemma ModOfSmall(a: int, n: int)
    requires 0 <= a < n
    ensures a % n == a
  {
  }

  // ---------------------------------------------------------------------------
  // Image proportions

  /** `getAppropriateHeight`: `(int)((width / 3.5) * 2.0)`, bumped to the next odd
      number when even, so that the center lies on a whole row. */
  function GetAppropriateHeight(width: Int32): (h: int)
    ensures h % 2 == 1
    ensures var t := TruncToInt(width as real / 3.5 * 2.0); h == t || h == t + 1
    ensures width >= 0 ==> 7 * (h - 1) <= 4 * width < 7 * (h + 1)
  {
    var height := TruncToInt(width as real / 3.5 * 2.0);
    if height % 2 == 0 then height + 1 else height
  }

  /** The default canvas of 1024 columns gets 585 rows; an 800-column raster gets 457. */
  lemma DefaultHeights()
    ensures GetAppropriateHeight(1024) == 585
    ensures GetAppropriateHeight(800) == 457
  {
  }
}
