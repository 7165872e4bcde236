/** The filters of src/model/filters: per-pixel maps over an image (channel
    isolation, brightening and darkening) and the two-image blends (difference,
    multiply, screen) with their single-image forms. A filter object carries no
    state, so each is a value of the Filter datatype. */
module Filters {
  import opened Wrappers
  import opened Pixels
  import opened Hsl
  import opened Images

  /** The colour channel a channel filter keeps. */
  datatype Isolate = KeepRed | KeepGreen | KeepBlue

  /** The value a brighten or darken filter adds to, or takes from, every channel. */
  datatype Measure = Intensity | Luma | MaxValue

  /** The per-pixel rule of a two-image filter. */
  datatype Blend = DifferenceBlend | MultiplyBlend | ScreenBlend

  /** Every filter object of the catalog: NormalFilter, the three channel filters,
      the six brighten/darken filters and the three two-image filters. */
  datatype Filter =
    | NormalFilter
    | ChannelFilter(keep: Isolate)
    | BrightenDarken(measure: Measure, brighten: bool)
    | TwoFilter(blend: Blend)

  function Max3(a: int, b: int, c: int): int {
    if a >= b && a >= c then a else if b >= c then b else c
  }

  function Min3(a: int, b: int, c: int): int {
    if a <= b && a <= c then a else if b <= c then b else c
  }

  // ---------------------------------------------------------------------------
  // Channel filters

  /** createResultPixel of the red, green and blue filters: the kept channel of
      asRGBA and the alpha, rebuilt on the pixel's own scale getMax(). The kept
      channel and the alpha are stored exactly and the others are 0. */
  function IsolatePixel(keep: Isolate, p: Pixel): (r: Pixel)
    ensures keep == KeepRed ==> r == Pixel(p.red, 0, 0, p.alpha)
    ensures keep == KeepGreen ==> r == Pixel(0, p.green, 0, p.alpha)
    ensures keep == KeepBlue ==> r == Pixel(0, 0, p.blue, p.alpha)
  {
    var data := AsRGBA(p);
    match keep
    case KeepRed =>
      FromScaledAt255(data[0], 0, 0, data[3]);
      FromScaled(data[0], 0, 0, data[3], GetMax(p)).value
    case KeepGreen =>
      FromScaledAt255(0, data[1], 0, data[3]);
      FromScaled(0, data[1], 0, data[3], GetMax(p)).value
    case KeepBlue =>
      FromScaledAt255(0, 0, data[2], data[3]);
      FromScaled(0, 0, data[2], data[3], GetMax(p)).value
  }

  /** Applying a channel filter to its own output changes nothing. */
  lemma IsolateIdempotent(keep: Isolate, p: Pixel)
    ensures IsolatePixel(keep, IsolatePixel(keep, p)) == IsolatePixel(keep, p)
  {
  }

  /** The channel-filter vectors of the filter and layer tests. */
  lemma IsolateExamples()
    ensures IsolatePixel(KeepRed, Pixel(12, 40, 48, 255)) == Pixel(12, 0, 0, 255)
    ensures IsolatePixel(KeepRed, Blank) == Pixel(255, 0, 0, 0)
    ensures IsolatePixel(KeepGreen, Pixel(12, 40, 48, 255)) == Pixel(0, 40, 0, 255)
    ensures IsolatePixel(KeepGreen, Blank) == Pixel(0, 255, 0, 0)
    ensures IsolatePixel(KeepBlue, Pixel(12, 40, 48, 255)) == Pixel(0, 0, 48, 255)
    ensures IsolatePixel(KeepBlue, Pixel(134, 122, 3, 5)) == Pixel(0, 0, 3, 5)
  {
  }

  // ---------------------------------------------------------------------------
  // Brighten and darken

  /** createDifference before its sign: the rounded mean of the channels
      (intensity), their rounded BT.709 luma, or their largest value. Each lies
      between the smallest and the largest channel, and the largest value is
      reached exactly by MaxValue. */
  function Measured(m: Measure, red: Channel, green: Channel, blue: Channel): (v: int)
    ensures Min3(red, green, blue) <= v <= Max3(red, green, blue)
    ensures m == MaxValue ==> v == Max3(red, green, blue)
  {
    var lo := Min3(red, green, blue);
    var hi := Max3(red, green, blue);
    match m
    case Intensity =>
      var x := (red + green + blue) as real / 3.0;
      RoundWithin(x, lo, hi);
      Round(x)
    case Luma =>
      var x := red as real * 0.2126 + green as real * 0.7152 + blue as real * 0.0722;
      RoundWithin(x, lo, hi);
      Round(x)
    case MaxValue =>
      hi
  }

  /** createDifference: the measure itself for the brighten filters and its
      negation (-1 times it) for the darken filters. */
  function Shift(m: Measure, brighten: bool, red: Channel, green: Channel, blue: Channel): (d: int)
    ensures brighten ==> 0 <= d <= 255
    ensures !brighten ==> -255 <= d <= 0
  {
    if brighten then Measured(m, red, green, blue) else -1 * Measured(m, red, green, blue)
  }

  /** A darken filter's difference is exactly the negation of the matching
      brighten filter's. */
  lemma DarkenNegatesBrighten(m: Measure, red: Channel, green: Channel, blue: Channel)
    ensures Shift(m, false, red, green, blue) == -Shift(m, true, red, green, blue)
  {
  }

  /** The clamp of the brighten/darken filters: values above 255 become 255 and
      values below 0 become 0. */
  function Clamp(v: int): (c: Channel)
    ensures v > MAX ==> c == MAX
    ensures v < MIN ==> c == MIN
    ensures MIN <= v <= MAX ==> c == v
  {
    if v > MAX then MAX else if v < MIN then MIN else v
  }

  /** Clamping keeps the order of its arguments. */
  lemma ClampMonotone(v: int, w: int)
    requires v <= w
    ensures Clamp(v) <= Clamp(w)
  {
  }

  /** createResultPixel of RGBABrightenDarken: the difference is taken from the
      raw asRGBA colour, added to each colour channel and clamped; alpha is kept.
      A brighten filter never lowers a channel and a darken filter never raises
      one. */
  function AdjustPixel(m: Measure, brighten: bool, p: Pixel): (r: Pixel)
    ensures r.alpha == p.alpha
    ensures brighten ==> r.red >= p.red && r.green >= p.green && r.blue >= p.blue
    ensures !brighten ==> r.red <= p.red && r.green <= p.green && r.blue <= p.blue
  {
    var data := AsRGBA(p);
    var difference := Shift(m, brighten, data[0], data[1], data[2]);
    var newRed := Clamp(data[0] + difference);
    var newGreen := Clamp(data[1] + difference);
    var newBlue := Clamp(data[2] + difference);
    FromScaledAt255(newRed, newGreen, newBlue, data[3]);
    FromScaled(newRed, newGreen, newBlue, data[3], GetMax(p)).value
  }

  /** Every darken filter sends the smallest channel to 0, because the measure
      is at least the smallest channel. */
  lemma DarkenZeroesSmallest(m: Measure, p: Pixel)
    ensures var r := AdjustPixel(m, false, p);
            var lo := Min3(p.red, p.green, p.blue);
            && (p.red == lo ==> r.red == 0)
            && (p.green == lo ==> r.green == 0)
            && (p.blue == lo ==> r.blue == 0)
  {
    var d := Shift(m, false, p.red, p.green, p.blue);
    assert d <= -Min3(p.red, p.green, p.blue);
    FromScaledAt255(Clamp(p.red + d), Clamp(p.green + d), Clamp(p.blue + d), p.alpha);
  }

  /** Darkening by the largest channel turns every pixel black, keeping alpha. */
  lemma DarkenMaxIsBlack(p: Pixel)
    ensures AdjustPixel(MaxValue, false, p) == Pixel(0, 0, 0, p.alpha)
  {
    var d := Shift(MaxValue, false, p.red, p.green, p.blue);
    assert d == -Max3(p.red, p.green, p.blue);
    assert p.red + d <= 0 && p.green + d <= 0 && p.blue + d <= 0;
  }

  /** The darken-max filter is idempotent. */
  lemma DarkenMaxIdempotent(p: Pixel)
    ensures AdjustPixel(MaxValue, false, AdjustPixel(MaxValue, false, p)) == AdjustPixel(MaxValue, false, p)
  {
    DarkenMaxIsBlack(p);
    DarkenMaxIsBlack(Pixel(0, 0, 0, p.alpha));
  }

  /** Black is left unchanged by every brighten and darken filter. */
  lemma BlackUnchanged(m: Measure, brighten: bool, alpha: Channel)
    ensures AdjustPixel(m, brighten, Pixel(0, 0, 0, alpha)) == Pixel(0, 0, 0, alpha)
  {
    assert Measured(m, 0, 0, 0) == 0;
  }

  /** White is left unchanged by every brighten filter and turned black by every
      darken filter. */
  lemma WhiteExtremes(m: Measure, alpha: Channel)
    ensures AdjustPixel(m, true, Pixel(255, 255, 255, alpha)) == Pixel(255, 255, 255, alpha)
    ensures AdjustPixel(m, false, Pixel(255, 255, 255, alpha)) == Pixel(0, 0, 0, alpha)
  {
    assert Measured(m, 255, 255, 255) == 255;
  }

  /** The brighten and darken vectors of the filter tests. */
  lemma AdjustExamples()
    ensures AdjustPixel(Intensity, false, Pixel(12, 40, 48, 255)) == Pixel(0, 7, 15, 255)
    ensures AdjustPixel(Intensity, false, Pixel(33, 2, 3, 255)) == Pixel(20, 0, 0, 255)
    ensures AdjustPixel(Luma, true, Pixel(12, 40, 48, 255)) == Pixel(47, 75, 83, 255)
    ensures AdjustPixel(Luma, true, Pixel(33, 2, 3, 255)) == Pixel(42, 11, 12, 255)
    ensures AdjustPixel(Luma, false, Pixel(12, 40, 48, 255)) == Pixel(0, 5, 13, 255)
    ensures AdjustPixel(Luma, false, Pixel(33, 2, 3, 255)) == Pixel(24, 0, 0, 255)
    ensures AdjustPixel(MaxValue, true, Pixel(12, 40, 48, 255)) == Pixel(60, 88, 96, 255)
    ensures AdjustPixel(MaxValue, true, Pixel(33, 2, 3, 255)) == Pixel(66, 35, 36, 255)
  {
    assert Measured(Intensity, 12, 40, 48) == 33;
    assert Measured(Intensity, 33, 2, 3) == 13;
    assert Measured(Luma, 12, 40, 48) == 35;
    assert Measured(Luma, 33, 2, 3) == 9;
  }

  // ---------------------------------------------------------------------------
  // Two-image filters

  /** The channel distance |a - b| of the difference filter. */
  function Distance(a: int, b: int): int {
    if a >= b then a - b else b - a
  }

  /** The product of two reals in [0, 1] stays in [0, 1] and below each factor. */
  lemma UnitProduct(x: real, y: real)
    requires 0.0 <= x <= 1.0 && 0.0 <= y <= 1.0
    ensures 0.0 <= x * y && x * y <= x && x * y <= y
  {
    ScaleReal(x, 0.0, y);
    ScaleReal(x, y, 1.0);
    ScaleReal(y, x, 1.0);
    assert y * x == x * y;
  }

  /** The multiply filter's new lightness, the product of the two lightnesses:
      it is at most each of them. */
  function MultiplyLightness(top: real, bottom: real): (l: real)
    requires 0.0 <= top <= 1.0 && 0.0 <= bottom <= 1.0
    ensures 0.0 <= l && l <= top && l <= bottom
  {
    var product := top * bottom;
    UnitProduct(top, bottom);
    assert 0.0 <= product <= top && product <= bottom;
    product
  }

  /** The screen filter's new lightness 1 - (1 - l1)(1 - l2): it is at least each
      of the two lightnesses and at most 1, being the same polynomial as the
      source-over alpha l1 + l2 (1 - l1). */
  function ScreenLightness(top: real, bottom: real): (l: real)
    requires 0.0 <= top <= 1.0 && 0.0 <= bottom <= 1.0
    ensures top <= l && bottom <= l && l <= 1.0
  {
    var darkTop := 1.0 - top;
    var darkBottom := 1.0 - bottom;
    assert 1.0 - darkTop * darkBottom == MixAlpha(top, bottom);
    1.0 - darkTop * darkBottom
  }

  /** convertRGBtoHSL of a colour whose channels are in 0..255, which never throws. */
  function HslOf(red: Channel, green: Channel, blue: Channel): (h: Hsl)
    ensures 0.0 <= h.saturation <= 1.0 && 0.0 <= h.lightness <= 1.0
    ensures h.lightness == (Max3(red, green, blue) + Min3(red, green, blue)) as real / 510.0
    ensures red == green == blue ==> h.hue == 0.0 && h.saturation == 0.0
  {
    var res := RgbToHsl(red as real, green as real, blue as real);
    assert RMax(red as real, RMax(green as real, blue as real)) == Max3(red, green, blue) as real;
    assert RMin(red as real, RMin(green as real, blue as real)) == Min3(red, green, blue) as real;
    res.value
  }

  /** The colour with the bottom pixel's hue and saturation and the given
      lightness, converted back by convertHSLtoRGB and built on the scale 255. */
  function Recolour(hue: real, saturation: real, lightness: real, alpha: Channel): (r: Pixel)
    requires 0.0 <= saturation <= 1.0 && 0.0 <= lightness <= 1.0
    ensures r.alpha == alpha
    ensures saturation == 0.0 ==>
              var g := Round(255.0 * lightness);
              r == Pixel(g, g, g, alpha)
  {
    var c := HslToRgb(hue, saturation, lightness);
    FromScaledAt255(c.r, c.g, c.b, alpha);
    FromScaled(c.r, c.g, c.b, alpha, 255).value
  }

  /** createResultPixel(top, bottom) of the two-image filters. The top pixel is
      read through asRGB (colour premultiplied by alpha), the bottom one through
      asRGBA (raw). Difference takes the channel-wise distance; multiply and
      screen keep the bottom's hue and saturation and blend the lightnesses. The
      result always carries the bottom's alpha, and no blend leaves 0..255, so
      the constructor never throws. */
  function BlendPixel(blend: Blend, top: Pixel, bottom: Pixel): (r: Pixel)
    ensures r.alpha == bottom.alpha
    ensures blend == DifferenceBlend ==>
              var t := AsRGB(top);
              r == Pixel(Distance(t.r, bottom.red), Distance(t.g, bottom.green), Distance(t.b, bottom.blue),
                         bottom.alpha)
  {
    var rgba1 := AsRGB(top);
    var rgba2 := AsRGBA(bottom);
    match blend
    case DifferenceBlend =>
      var newRed := Distance(rgba1.r, rgba2[0]);
      var newGreen := Distance(rgba1.g, rgba2[1]);
      var newBlue := Distance(rgba1.b, rgba2[2]);
      FromScaledAt255(newRed, newGreen, newBlue, rgba2[3]);
      FromScaled(newRed, newGreen, newBlue, rgba2[3], 255).value
    case MultiplyBlend =>
      var hsl1 := HslOf(rgba1.r, rgba1.g, rgba1.b);
      var hsl2 := HslOf(rgba2[0], rgba2[1], rgba2[2]);
      Recolour(hsl2.hue, hsl2.saturation, MultiplyLightness(hsl1.lightness, hsl2.lightness), rgba2[3])
    case ScreenBlend =>
      var hsl1 := HslOf(rgba1.r, rgba1.g, rgba1.b);
      var hsl2 := HslOf(rgba2[0], rgba2[1], rgba2[2]);
      Recolour(hsl2.hue, hsl2.saturation, ScreenLightness(hsl1.lightness, hsl2.lightness), rgba2[3])
  }

  /** The single-image form of the difference filter, against the bottom pixel
      (255, 255, 255, 0): the complement of the premultiplied colour, with alpha 0. */
  lemma DifferenceAlone(p: Pixel)
    ensures var t := AsRGB(p);
            BlendPixel(DifferenceBlend, p, Blank) == Pixel(255 - t.r, 255 - t.g, 255 - t.b, 0)
  {
  }

  /** Multiply over a white bottom pixel: the bottom has hue 0, saturation 0 and
      lightness 1, so the result is the gray of the rounded mean of the top's
      largest and smallest premultiplied channel, with the bottom's alpha. */
  lemma MultiplyOverWhite(top: Pixel, alpha: Channel)
    ensures var t := AsRGB(top);
            var g := Round((Max3(t.r, t.g, t.b) + Min3(t.r, t.g, t.b)) as real / 2.0);
            BlendPixel(MultiplyBlend, top, Pixel(255, 255, 255, alpha)) == Pixel(g, g, g, alpha)
  {
    var t := AsRGB(top);
    var l1 := (Max3(t.r, t.g, t.b) + Min3(t.r, t.g, t.b)) as real / 510.0;
    var hsl2 := HslOf(255, 255, 255);
    assert hsl2.lightness == 1.0 && hsl2.saturation == 0.0;
    assert MultiplyLightness(l1, 1.0) == l1;
    assert 255.0 * l1 == (Max3(t.r, t.g, t.b) + Min3(t.r, t.g, t.b)) as real / 2.0;
  }

  /** Screen over a white bottom pixel is white with the bottom's alpha. */
  lemma ScreenOverWhite(top: Pixel, alpha: Channel)
    ensures BlendPixel(ScreenBlend, top, Pixel(255, 255, 255, alpha)) == Pixel(255, 255, 255, alpha)
  {
    var t := AsRGB(top);
    var l1 := (Max3(t.r, t.g, t.b) + Min3(t.r, t.g, t.b)) as real / 510.0;
    var hsl2 := HslOf(255, 255, 255);
    assert hsl2.lightness == 1.0 && hsl2.saturation == 0.0;
    assert (1.0 - l1) * (1.0 - 1.0) == 0.0;
    assert ScreenLightness(l1, 1.0) == 1.0;
    HslToRgbExtremes(hsl2.hue, hsl2.saturation);
  }

  /** The single-image form of the multiply filter: the gray of the rounded mean
      of the largest and smallest premultiplied channel, with alpha 0. */
  lemma MultiplyAlone(p: Pixel)
    ensures var t := AsRGB(p);
            var g := Round((Max3(t.r, t.g, t.b) + Min3(t.r, t.g, t.b)) as real / 2.0);
            BlendPixel(MultiplyBlend, p, Blank) == Pixel(g, g, g, 0)
  {
    MultiplyOverWhite(p, 0);
  }

  /** The single-image form of the screen filter sends every pixel to
      (255, 255, 255, 0). */
  lemma ScreenAlone(p: Pixel)
    ensures BlendPixel(ScreenBlend, p, Blank) == Blank
  {
    ScreenOverWhite(p, 0);
  }

  /** A top pixel that is black once premultiplied (black, or fully transparent)
      makes multiply black, keeping the bottom's alpha. */
  lemma MultiplyBlackTop(top: Pixel, bottom: Pixel)
    requires AsRGB(top) == Rgb(0, 0, 0)
    ensures BlendPixel(MultiplyBlend, top, bottom) == Pixel(0, 0, 0, bottom.alpha)
  {
    var t := AsRGB(top);
    var hsl1 := HslOf(t.r, t.g, t.b);
    var hsl2 := HslOf(bottom.red, bottom.green, bottom.blue);
    assert hsl1.lightness == 0.0;
    assert MultiplyLightness(hsl1.lightness, hsl2.lightness) == 0.0;
    HslToRgbExtremes(hsl2.hue, hsl2.saturation);
    assert Recolour(hsl2.hue, hsl2.saturation, 0.0, bottom.alpha) == Pixel(0, 0, 0, bottom.alpha);
  }

  /** A top pixel that is white once premultiplied makes screen white, keeping
      the bottom's alpha. */
  lemma ScreenWhiteTop(top: Pixel, bottom: Pixel)
    requires AsRGB(top) == Rgb(255, 255, 255)
    ensures BlendPixel(ScreenBlend, top, bottom) == Pixel(255, 255, 255, bottom.alpha)
  {
    var hsl2 := HslOf(bottom.red, bottom.green, bottom.blue);
    assert (1.0 - 1.0) * (1.0 - hsl2.lightness) == 0.0;
    assert ScreenLightness(1.0, hsl2.lightness) == 1.0;
    HslToRgbExtremes(hsl2.hue, hsl2.saturation);
  }

  /** Screen of a black top over a black bottom stays black, keeping the
      bottom's alpha. */
  lemma ScreenBlackOverBlack(top: Pixel, bottom: Pixel)
    requires AsRGB(top) == Rgb(0, 0, 0)
    requires bottom.red == 0 && bottom.green == 0 && bottom.blue == 0
    ensures BlendPixel(ScreenBlend, top, bottom) == Pixel(0, 0, 0, bottom.alpha)
  {
    var t := AsRGB(top);
    var hsl1 := HslOf(t.r, t.g, t.b);
    var hsl2 := HslOf(bottom.red, bottom.green, bottom.blue);
    assert hsl1.lightness == 0.0 && hsl2.lightness == 0.0;
    assert ScreenLightness(hsl1.lightness, hsl2.lightness) == 0.0;
    HslToRgbExtremes(hsl2.hue, hsl2.saturation);
    assert Recolour(hsl2.hue, hsl2.saturation, 0.0, bottom.alpha) == Pixel(0, 0, 0, bottom.alpha);
  }

  /** The difference vectors of the filter tests, single-image and over a second
      image. */
  lemma DifferenceExamples()
    ensures BlendPixel(DifferenceBlend, Pixel(13, 16, 79, 255), Blank) == Pixel(242, 239, 176, 0)
    ensures BlendPixel(DifferenceBlend, Pixel(58, 37, 56, 69), Blank) == Pixel(239, 245, 240, 0)
    ensures BlendPixel(DifferenceBlend, Pixel(39, 69, 35, 255), Blank) == Pixel(216, 186, 220, 0)
    ensures BlendPixel(DifferenceBlend, Pixel(58, 58, 67, 255), Blank) == Pixel(197, 197, 188, 0)
    ensures BlendPixel(DifferenceBlend, Pixel(13, 16, 79, 255), Pixel(83, 5, 3, 99)) == Pixel(70, 11, 76, 99)
    ensures BlendPixel(DifferenceBlend, Pixel(58, 37, 56, 69), Pixel(58, 58, 58, 255)) == Pixel(42, 48, 43, 255)
    ensures BlendPixel(DifferenceBlend, Pixel(39, 69, 35, 255), Pixel(94, 6, 5, 43)) == Pixel(55, 63, 30, 43)
    ensures BlendPixel(DifferenceBlend, Pixel(58, 58, 67, 255), Pixel(255, 255, 255, 255)) == Pixel(197, 197, 188, 255)
  {
    assert AsRGB(Pixel(58, 37, 56, 69)) == Rgb(16, 10, 15);
  }

  /** The single-image multiply vectors of the filter test, on a white bottom of
      any alpha (alpha 0 being the single-image form). */
  lemma MultiplyAloneExamples(alpha: Channel)
    ensures BlendPixel(MultiplyBlend, Pixel(12, 40, 48, 255), Pixel(255, 255, 255, alpha)) == Pixel(30, 30, 30, alpha)
    ensures BlendPixel(MultiplyBlend, Pixel(33, 2, 3, 255), Pixel(255, 255, 255, alpha)) == Pixel(18, 18, 18, alpha)
  {
    MultiplyOverWhite(Pixel(12, 40, 48, 255), alpha);
    MultiplyOverWhite(Pixel(33, 2, 3, 255), alpha);
  }

  /** Opaque white over white stays white under multiply and screen. */
  lemma WhiteOverWhite(alpha: Channel)
    ensures BlendPixel(MultiplyBlend, Pixel(255, 255, 255, 255), Pixel(255, 255, 255, alpha)) == Pixel(255, 255, 255, alpha)
    ensures BlendPixel(ScreenBlend, Pixel(255, 255, 255, 255), Pixel(255, 255, 255, alpha)) == Pixel(255, 255, 255, alpha)
  {
    MultiplyOverWhite(Pixel(255, 255, 255, 255), alpha);
    RoundOfInt(255);
    ScreenOverWhite(Pixel(255, 255, 255, 255), alpha);
  }

  /** Opaque black over black stays black under multiply and screen. */
  lemma BlackOverBlack(alpha: Channel)
    ensures BlendPixel(MultiplyBlend, Pixel(0, 0, 0, 255), Pixel(0, 0, 0, alpha)) == Pixel(0, 0, 0, alpha)
    ensures BlendPixel(ScreenBlend, Pixel(0, 0, 0, 255), Pixel(0, 0, 0, alpha)) == Pixel(0, 0, 0, alpha)
  {
    MultiplyBlackTop(Pixel(0, 0, 0, 255), Pixel(0, 0, 0, alpha));
    ScreenBlackOverBlack(Pixel(0, 0, 0, 255), Pixel(0, 0, 0, alpha));
  }

  // ---------------------------------------------------------------------------
  // Filters on whole images

  /** createResultPixel of any filter on one pixel: NormalFilter keeps it, and a
      two-image filter used alone blends it over (255, 255, 255, 0). */
  function ResultPixel(f: Filter, p: Pixel): Pixel {
    match f
    case NormalFilter => p
    case ChannelFilter(keep) => IsolatePixel(keep, p)
    case BrightenDarken(m, brighten) => AdjustPixel(m, brighten, p)
    case TwoFilter(blend) => BlendPixel(blend, p, Pixel(255, 255, 255, 0))
  }

  /** apply(img) of every filter: an image of the same size whose pixel at every
      position is the filtered pixel at that position. NormalFilter returns the
      very image it is given. */
  function ApplyOne(f: Filter, img: Image): (r: Image)
    ensures Height(r) == Height(img) && Width(r) == Width(img)
    ensures forall i, j :: 0 <= i < Height(img) && 0 <= j < Width(img) ==> r[i][j] == ResultPixel(f, img[i][j])
    ensures f == NormalFilter ==> r == img
  {
    if f == NormalFilter then img
    else
      seq(Height(img), i requires 0 <= i < Height(img) =>
        seq(Width(img), j requires 0 <= j < Width(img) => ResultPixel(f, img[i][j])))
  }

  /** apply(img1, img2) of a two-image filter: IllegalArgumentException when the
      images differ in width or height; otherwise an image of img1's size whose
      every pixel blends img1's pixel (on top) with img2's (below). */
  function TwoApply(blend: Blend, img1: Image, img2: Image): (r: Result<Image>)
    ensures r.Err? <==> Width(img1) != Width(img2) || Height(img1) != Height(img2)
    ensures r.Err? ==> r.error == IllegalArgument
    ensures r.Ok? ==> Height(r.value) == Height(img1) && Width(r.value) == Width(img1)
    ensures r.Ok? ==> forall i, j :: 0 <= i < Height(img1) && 0 <= j < Width(img1) ==>
                        r.value[i][j] == BlendPixel(blend, img1[i][j], img2[i][j])
  {
    if Width(img1) != Width(img2) || Height(img1) != Height(img2) then Err(IllegalArgument)
    else
      Ok(seq(Height(img1), i requires 0 <= i < Height(img1) =>
           seq(Width(img1), j requires 0 <= j < Width(img1) => BlendPixel(blend, img1[i][j], img2[i][j]))))
  }

  /** The nested loop of RGBAColorFilter.apply: every cell receives the filtered
      pixel at the same position. */
  method MapInto(f: Filter, pixels: array2<Pixel>, resultPixels: array2<Option<Pixel>>)
    requires resultPixels.Length0 == pixels.Length0 && resultPixels.Length1 == pixels.Length1
    modifies resultPixels
    ensures forall p, q :: 0 <= p < pixels.Length0 && 0 <= q < pixels.Length1 ==>
              resultPixels[p, q] == Some(ResultPixel(f, pixels[p, q]))
  {
    MapCells(p => ResultPixel(f, p), pixels, resultPixels);
  }

  /** The nested loop over a pixel grid, row by row: every cell of `resultPixels`
      receives `cell` of the pixel at the same position. */
  method MapCells(cell: Pixel -> Pixel, pixels: array2<Pixel>, resultPixels: array2<Option<Pixel>>)
    requires resultPixels.Length0 == pixels.Length0 && resultPixels.Length1 == pixels.Length1
    modifies resultPixels
    ensures forall p, q :: 0 <= p < pixels.Length0 && 0 <= q < pixels.Length1 ==>
              resultPixels[p, q] == Some(cell(pixels[p, q]))
  {
    for i := 0 to pixels.Length0
      invariant forall p, q :: 0 <= p < i && 0 <= q < pixels.Length1 ==>
                  resultPixels[p, q] == Some(cell(pixels[p, q]))
    {
      for j := 0 to pixels.Length1
        invariant forall p, q :: 0 <= p < i && 0 <= q < pixels.Length1 ==>
                    resultPixels[p, q] == Some(cell(pixels[p, q]))
        invariant forall q :: 0 <= q < j ==> resultPixels[i, q] == Some(cell(pixels[i, q]))
      {
        resultPixels[i, j] := Some(cell(pixels[i, j]));
      }
    }
  }

  /** RGBAColorFilter.apply: the input's pixels are copied out, filtered one by
      one into a fresh grid, and the grid becomes the result image. */
  method ColorFilterApply(f: Filter, img: Image) returns (r: Image)
    requires f != NormalFilter
    ensures r == ApplyOne(f, img)
  {
    var pixels := GetPixels(img);
    var resultPixels := new Option<Pixel>[pixels.Length0, pixels.Length1]((_, _) => None);
    MapInto(f, pixels, resultPixels);
    var made := FromPixels(resultPixels);
    assert made.Ok?;
    r := made.value;
    SameImage(r, ApplyOne(f, img));
  }

  /** Filter.apply as RGBALayerImage.applyFilter calls it: NormalFilter returns its
      argument, every other filter maps the pixels. */
  method Apply(f: Filter, img: Image) returns (r: Image)
    ensures r == ApplyOne(f, img)
  {
    if f == NormalFilter {
      return img;
    }
    r := ColorFilterApply(f, img);
  }

  /** The nested loop of RGBAColorTwoFilter.apply: every cell receives the blend
      of the two pixels at the same position. */
  method BlendInto(blend: Blend, pixels1: array2<Pixel>, pixels2: array2<Pixel>,
                   resultPixels: array2<Option<Pixel>>)
    requires pixels2.Length0 == pixels1.Length0 && pixels2.Length1 == pixels1.Length1
    requires resultPixels.Length0 == pixels1.Length0 && resultPixels.Length1 == pixels1.Length1
    modifies resultPixels
    ensures forall p, q :: 0 <= p < pixels1.Length0 && 0 <= q < pixels1.Length1 ==>
              resultPixels[p, q] == Some(BlendPixel(blend, pixels1[p, q], pixels2[p, q]))
  {
    ZipCells((top, bottom) => BlendPixel(blend, top, bottom), pixels1, pixels2, resultPixels);
  }

  /** The nested loop over two pixel grids of one size, row by row: every cell
      of `resultPixels` receives `cell` of the two pixels at the same position. */
  method ZipCells(cell: (Pixel, Pixel) -> Pixel, pixels1: array2<Pixel>, pixels2: array2<Pixel>,
                  resultPixels: array2<Option<Pixel>>)
    requires pixels2.Length0 == pixels1.Length0 && pixels2.Length1 == pixels1.Length1
    requires resultPixels.Length0 == pixels1.Length0 && resultPixels.Length1 == pixels1.Length1
    modifies resultPixels
    ensures forall p, q :: 0 <= p < pixels1.Length0 && 0 <= q < pixels1.Length1 ==>
              resultPixels[p, q] == Some(cell(pixels1[p, q], pixels2[p, q]))
  {
    for i := 0 to pixels1.Length0
      invariant forall p, q :: 0 <= p < i && 0 <= q < pixels1.Length1 ==>
                  resultPixels[p, q] == Some(cell(pixels1[p, q], pixels2[p, q]))
    {
      for j := 0 to pixels1.Length1
        invariant forall p, q :: 0 <= p < i && 0 <= q < pixels1.Length1 ==>
                    resultPixels[p, q] == Some(cell(pixels1[p, q], pixels2[p, q]))
        invariant forall q :: 0 <= q < j ==>
                    resultPixels[i, q] == Some(cell(pixels1[i, q], pixels2[i, q]))
      {
        resultPixels[i, j] := Some(cell(pixels1[i, j], pixels2[i, j]));
      }
    }
  }

  /** RGBAColorTwoFilter.apply(img1, img2), which RGBALayerImage.applyTwoFilter
      calls with the receiver as img1: the size check, then the pairwise loop. */
  method TwoFilterApply(blend: Blend, img1: Image, img2: Image) returns (r: Result<Image>)
    ensures r == TwoApply(blend, img1, img2)
  {
    if Width(img1) != Width(img2) || Height(img1) != Height(img2) {
      return Err(IllegalArgument);
    }
    var pixels1 := GetPixels(img1);
    var pixels2 := GetPixels(img2);
    var resultPixels := new Option<Pixel>[Height(img1), Width(img1)]((_, _) => None);
    BlendInto(blend, pixels1, pixels2, resultPixels);
    var made := FromPixels(resultPixels);
    assert made.Ok?;
    SameImage(made.value, TwoApply(blend, img1, img2).value);
    return made;
  }

  // ---------------------------------------------------------------------------
  // Properties of the image-level filters

  /** A two-image filter applied to one image is the two-image form with the
      image on top of a blank image of the same size. */
  lemma SingleFormIsBlankBottom(blend: Blend, img: Image)
    ensures TwoApply(blend, img, BlankImage(Height(img), Width(img))) == Ok(ApplyOne(TwoFilter(blend), img))
  {
    var two := TwoApply(blend, img, BlankImage(Height(img), Width(img)));
    SameImage(two.value, ApplyOne(TwoFilter(blend), img));
  }

  /** The filters whose per-pixel map is idempotent: the channel filters and
      darken-max, besides NormalFilter. */
  predicate Idempotent(f: Filter) {
    f.NormalFilter? || f.ChannelFilter? || f == BrightenDarken(MaxValue, false)
  }

  /** Applying an idempotent filter twice equals applying it once. */
  lemma ApplyIdempotent(f: Filter, img: Image)
    requires Idempotent(f)
    ensures ApplyOne(f, ApplyOne(f, img)) == ApplyOne(f, img)
  {
    var once := ApplyOne(f, img);
    var twice := ApplyOne(f, once);
    forall i, j | 0 <= i < Height(img) && 0 <= j < Width(img)
      ensures twice[i][j] == once[i][j]
    {
      if f.ChannelFilter? {
        IsolateIdempotent(f.keep, img[i][j]);
      } else if f.BrightenDarken? {
        DarkenMaxIdempotent(img[i][j]);
      }
    }
    SameImage(twice, once);
  }

  /** A layer image that is all Blank under a channel filter: the red and green
      filters give (255, 0, 0, 0) and (0, 255, 0, 0) everywhere. */
  lemma BlankUnderChannelFilters(height: int, width: int)
    requires height >= 1 && width >= 1
    ensures forall i, j :: 0 <= i < height && 0 <= j < width ==>
              ApplyOne(ChannelFilter(KeepRed), BlankImage(height, width))[i][j] == Pixel(255, 0, 0, 0)
    ensures forall i, j :: 0 <= i < height && 0 <= j < width ==>
              ApplyOne(ChannelFilter(KeepGreen), BlankImage(height, width))[i][j] == Pixel(0, 255, 0, 0)
  {
  }
}
