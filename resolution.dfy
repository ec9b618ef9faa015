/** `Resolution.java`: the catalog of export raster sizes, each with the label the
    resolution chooser shows. */
module Resolutions {
  import opened Java
  import Mandelbrot

  /** The six resolutions, in declaration order. */
  datatype Resolution = SVGA | HD720 | HD900 | HD1080 | UHD4K | CHD {

    /** `getWidth`. */
    function Width(): nat {
      match this
      case SVGA => 800
      case HD720 => 1280
      case HD900 => 1600
      case HD1080 => 1920
      case UHD4K => 4096
      case CHD => 8192
    }

    /** `getHeight`. */
    function Height(): nat {
      match this
      case SVGA => 600
      case HD720 => 720
      case HD900 => 900
      case HD1080 => 1080
      case UHD4K => 2304
      case CHD => 4608
    }

    /** The short name handed to the enum constructor. */
    function Label(): string {
      match this
      case SVGA => "SVGA"
      case HD720 => "HD 720"
      case HD900 => "HD+"
      case HD1080 => "HD 1080"
      case UHD4K => "UHD 4K"
      case CHD => "Crazy 8K"
    }

    /** `toString`: the text formatted once as `"%s (%d x %d)"` from the label,
        the width and the height. */
    function ToString(): string {
      Format(Label(), Width(), Height())
    }
  }

  /** `Resolution.values()`: the constants in declaration order. */
  const Values: seq<Resolution> := [SVGA, HD720, HD900, HD1080, UHD4K, CHD]

  // ---------------------------------------------------------------------------
  // `String.format("%s (%d x %d)", ...)` for non-negative ints

  function Format(name: string, width: nat, height: nat): string {
    name + " (" + Decimal(width) + " x " + Decimal(height) + ")"
  }

  predicate IsDigit(ch: char) {
    '0' <= ch <= '9'
  }

  function DigitChar(d: nat): (ch: char)
    requires d < 10
    ensures IsDigit(ch)
  {
    ('0' as int + d) as char
  }

  /** The decimal text `%d` prints for a non-negative number: digits only, most
      significant first, with no leading zero. */
  function Decimal(n: nat): (s: string)
    ensures |s| >= 1
  {
    if n < 10 then [DigitChar(n)] else Decimal(n / 10) + [DigitChar(n % 10)]
  }

  /** `%d` prints digits only, with no leading zero. */
  lemma {:induction false} DecimalDigits(n: nat)
    ensures forall i :: 0 <= i < |Decimal(n)| ==> IsDigit(Decimal(n)[i])
    ensures Decimal(n)[0] == '0' ==> n == 0
  {
    if n >= 10 {
      DecimalDigits(n / 10);
    }
  }

  function DigitValue(ch: char): (d: nat)
    requires IsDigit(ch)
    ensures d < 10
  {
    ch as int - '0' as int
  }

  /** The value of a string of decimal digits, or None when it holds anything else. */
  function ParseDecimal(s: string): Option<nat> {
    if s == [] || !IsDigit(s[|s| - 1]) then None
    else if |s| == 1 then Some(DigitValue(s[0]))
    else match ParseDecimal(s[..|s| - 1])
      case None => None
      case Some(v) => Some(10 * v + DigitValue(s[|s| - 1]))
  }

  /** The printed number reads back as itself, so distinct numbers print as
      distinct texts. */
  lemma {:induction false} DecimalRoundTrip(n: nat)
    ensures ParseDecimal(Decimal(n)) == Some(n)
  {
    if n >= 10 {
      DecimalRoundTrip(n / 10);
      var s := Decimal(n);
      assert s[..|s| - 1] == Decimal(n / 10);
    }
  }

  // ---------------------------------------------------------------------------
  // Properties of the catalog

  /** The table exactly as declared. */
  lemma CatalogTable()
    ensures |Values| == 6
    ensures Values[0].Width() == 800 && Values[0].Height() == 600 && Values[0].Label() == "SVGA"
    ensures Values[1].Width() == 1280 && Values[1].Height() == 720 && Values[1].Label() == "HD 720"
    ensures Values[2].Width() == 1600 && Values[2].Height() == 900 && Values[2].Label() == "HD+"
    ensures Values[3].Width() == 1920 && Values[3].Height() == 1080 && Values[3].Label() == "HD 1080"
    ensures Values[4].Width() == 4096 && Values[4].Height() == 2304 && Values[4].Label() == "UHD 4K"
    ensures Values[5].Width() == 8192 && Values[5].Height() == 4608 && Values[5].Label() == "Crazy 8K"
    ensures forall r: Resolution :: r in Values
  {
    forall r: Resolution ensures r in Values {
      match r
      case SVGA => assert Values[0] == r;
      case HD720 => assert Values[1] == r;
      case HD900 => assert Values[2] == r;
      case HD1080 => assert Values[3] == r;
      case UHD4K => assert Values[4] == r;
      case CHD => assert Values[5] == r;
    }
  }

  /** Every constant appears exactly once, so the chooser's selected index picks one
      resolution and each resolution has one index. */
  lemma ValuesDistinct()
    ensures forall i, j :: 0 <= i < j < |Values| ==> Values[i] != Values[j]
  {
  }

  /** Every size is positive: each entry is a valid raster for the export. */
  lemma AllPositive(r: Resolution)
    ensures r.Width() > 0 && r.Height() > 0
  {
  }

  /** Widths and heights both strictly increase in declaration order. */
  lemma StrictlyIncreasing()
    ensures forall i, j :: 0 <= i < j < |Values| ==>
      Values[i].Width() < Values[j].Width() && Values[i].Height() < Values[j].Height()
  {
  }

  /** The text shown for the first resolution, in full. */
  lemma SvgaText()
    ensures SVGA.ToString() == "SVGA (800 x 600)"
  {
    ThreeDigits(800);
    ThreeDigits(600);
  }

  lemma ThreeDigits(n: nat)
    requires 100 <= n < 1000
    ensures Decimal(n) == [DigitChar(n / 100), DigitChar(n / 10 % 10), DigitChar(n % 10)]
  {
    assert n / 10 / 10 == n / 100;
    assert Decimal(n / 10) == Decimal(n / 100) + [DigitChar(n / 10 % 10)];
    assert Decimal(n / 100) == [DigitChar(n / 100)];
  }

  /** The formatted text is the name, " (", the decimal width, " x ", the decimal
      height and ")", so with `DecimalRoundTrip` the two numbers read back from it. */
  lemma FormatLayout(name: string, width: nat, height: nat)
    ensures var text := Format(name, width, height);
      var p := |name| + 2;
      var q := p + |Decimal(width)|;
      q + 4 <= |text|
      && text[..p - 2] == name && text[p - 2..p] == " (" && text[p..q] == Decimal(width)
      && text[q..q + 3] == " x " && text[q + 3..|text| - 1] == Decimal(height)
      && text[|text| - 1] == ')'
  {
    TextSlices(name, Decimal(width), Decimal(height));
  }

  /** Where each part of `"%s (%s x %s)"` lies in the text. */
  lemma TextSlices(name: string, w: string, h: string)
    ensures var text := name + " (" + w + " x " + h + ")";
      var p := |name| + 2;
      var q := p + |w|;
      |text| == q + 3 + |h| + 1
      && text[..p - 2] == name && text[p - 2..p] == " (" && text[p..q] == w
      && text[q..q + 3] == " x " && text[q + 3..|text| - 1] == h && text[|text| - 1] == ')'
  {
  }

  /** The export of any resolution renders a full raster: the matrix has the
      resolution's rows and columns, and mapping it through the palette of the
      state's limit succeeds with one pixel per cell. */
  lemma ExportRendersFullRaster(r: Resolution, limit: int, window: Mandelbrot.Window, shade: (int, int) -> int)
    requires window.zoom > 0.0 && limit >= 0
    ensures |Mandelbrot.Mandelbrot(r.Width(), r.Height(), limit, window)| == r.Height()
    ensures Mandelbrot.MapMandelbrot(Mandelbrot.Mandelbrot(r.Width(), r.Height(), limit, window),
                                     Mandelbrot.BuildColors(limit, shade)).Success?
    ensures |Mandelbrot.MapMandelbrot(Mandelbrot.Mandelbrot(r.Width(), r.Height(), limit, window),
                                      Mandelbrot.BuildColors(limit, shade)).value| == r.Width() * r.Height()
  {
    AllPositive(r);
    Mandelbrot.MandelbrotShape(r.Width(), r.Height(), limit, window);
    Mandelbrot.ComposeRender(r.Width(), r.Height(), limit, window, shade, 0, 0);
  }
}
