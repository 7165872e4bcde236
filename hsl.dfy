/** The colour-space conversions of src/model/utils/RepresentationConverterUtil.java:
    RGB on the scale 0..255 to hue, saturation and lightness (hue in degrees,
    the other two in [0, 1]) and back, the latter by the algorithm of section 7.1
    of CSS Color Module Level 4. Doubles are modelled as reals. */
module Hsl {
  import opened Wrappers
  import opened Pixels

  /** The double[3] {hue, saturation, lightness} of convertRGBtoHSL. */
  datatype Hsl = Hsl(hue: real, saturation: real, lightness: real)

  function RMax(x: real, y: real): real {
    if x >= y then x else y
  }

  function RMin(x: real, y: real): real {
    if x <= y then x else y
  }

  function Abs(x: real): real {
    if x < 0.0 then -x else x
  }

  /** The integer part of a real, rounded toward zero as a Java cast does. */
  function Trunc(t: real): int {
    if t >= 0.0 then t.Floor else -((-t).Floor)
  }

  /** Java's % on doubles: the remainder of a division truncated toward zero,
      with the sign of the dividend. */
  function Fmod(x: real, y: real): real
    requires y > 0.0
  {
    x - y * Trunc(x / y) as real
  }

  /** The multiple y * floor(x / y) is not above x. */
  lemma FloorDivLower(x: real, y: real)
    requires y > 0.0
    ensures y * (x / y).Floor as real <= x
  {
    var t := x / y;
    assert y * t == x;
    ScaleReal(y, t.Floor as real, t);
  }

  /** The next multiple of y after y * floor(x / y) is above x. */
  lemma FloorDivUpper(x: real, y: real)
    requires y > 0.0
    ensures x < y * (x / y).Floor as real + y
  {
    var t := x / y;
    var q := t.Floor as real;
    assert t < q + 1.0;
    assert y * t == x;
    ScaleRealStrict(y, t, q + 1.0);
    assert y * t < y * (q + 1.0);
    assert y * (q + 1.0) == y * q + y;
    assert x < y * q + y;
  }

  /** The mathematical remainder of x modulo y, always in [0, y). */
  function RealMod(x: real, y: real): (m: real)
    requires y > 0.0
    ensures 0.0 <= m < y
  {
    FloorDivLower(x, y);
    FloorDivUpper(x, y);
    x - y * (x / y).Floor as real
  }

  /** On a non-negative dividend Java's % is the mathematical remainder, and that
      remainder does not change when whole periods are added to the dividend. */
  lemma {:induction false} FmodOfShift(x: real, turns: nat)
    requires x + 6.0 * turns as real >= 0.0
    ensures Fmod(x + 6.0 * turns as real, 6.0) == RealMod(x, 6.0)
  {
    var y := x + 6.0 * turns as real;
    assert y / 6.0 == x / 6.0 + turns as real;
    assert (y / 6.0).Floor == (x / 6.0).Floor + turns;
  }

  // ---------------------------------------------------------------------------
  // RGB to HSL

  /** The hue sector of convertRGBtoHSL, in units of 60 degrees, for a non-gray
      colour: the largest channel picks the sector. */
  function HueSector(r: real, g: real, b: real, componentMax: real, delta: real): real
    requires delta > 0.0
  {
    if componentMax == r then RealMod((g - b) / delta, 6.0)
    else if componentMax == g then (b - r) / delta + 2.0
    else if componentMax == b then (r - g) / delta + 4.0
    else 0.0
  }

  /** Every sector lies in [0, 6), so the hue lies in [0, 360). */
  lemma HueSectorBounds(r: real, g: real, b: real)
    requires 0.0 <= r <= 1.0 && 0.0 <= g <= 1.0 && 0.0 <= b <= 1.0
    requires RMax(r, RMax(g, b)) - RMin(r, RMin(g, b)) > 0.0
    ensures var cmax := RMax(r, RMax(g, b));
            0.0 <= HueSector(r, g, b, cmax, cmax - RMin(r, RMin(g, b))) < 6.0
  {
    var cmax := RMax(r, RMax(g, b));
    var delta := cmax - RMin(r, RMin(g, b));
    if cmax != r && cmax == g {
      QuotientBounds(b - r, delta);
    } else if cmax != r && cmax != g && cmax == b {
      QuotientBounds(r - g, delta);
    }
  }

  /** delta / (1 - |2l - 1|) lies in (0, 1] for a non-gray colour. */
  lemma SaturationBounds(cmax: real, cmin: real)
    requires 0.0 <= cmin < cmax <= 1.0
    ensures var l := (cmax + cmin) / 2.0;
            var d := 1.0 - Abs(2.0 * l - 1.0);
            d > 0.0 && 0.0 < (cmax - cmin) / d <= 1.0
  {
    var l := (cmax + cmin) / 2.0;
    var d := 1.0 - Abs(2.0 * l - 1.0);
    assert d > 0.0;
    assert cmax - cmin <= d;
    QuotientBounds(cmax - cmin, d);
  }

  /** convertRGBtoHSL: IllegalArgumentException when a channel divided by 255 falls
      outside [0, 1]; otherwise the lightness is the mean of the largest and the
      smallest channel, a gray has hue 0 and saturation 0, and every other colour
      has a hue in [0, 360) chosen by its largest channel and a saturation in (0, 1]. */
  function RgbToHsl(red: real, green: real, blue: real): (res: Result<Hsl>)
    ensures res.Err? <==> !(0.0 <= red <= 255.0 && 0.0 <= green <= 255.0 && 0.0 <= blue <= 255.0)
    ensures res.Err? ==> res.error == IllegalArgument
    ensures res.Ok? ==>
              var cmax := RMax(red, RMax(green, blue)) / 255.0;
              var cmin := RMin(red, RMin(green, blue)) / 255.0;
              && res.value.lightness == (cmax + cmin) / 2.0
              && 0.0 <= res.value.lightness <= 1.0
              && 0.0 <= res.value.hue < 360.0
              && 0.0 <= res.value.saturation <= 1.0
              && (cmax == cmin ==> res.value.hue == 0.0 && res.value.saturation == 0.0)
              && (cmax != cmin ==> res.value.saturation > 0.0)
              && (res.value.saturation == 0.0 ==> cmax == cmin)
  {
    var r := red / 255.0;
    var g := green / 255.0;
    var b := blue / 255.0;
    if r < 0.0 || r > 1.0 then Err(IllegalArgument)
    else if g < 0.0 || g > 1.0 then Err(IllegalArgument)
    else if b < 0.0 || b > 1.0 then Err(IllegalArgument)
    else
      var componentMax := RMax(r, RMax(g, b));
      var componentMin := RMin(r, RMin(g, b));
      assert componentMax == RMax(red, RMax(green, blue)) / 255.0;
      assert componentMin == RMin(red, RMin(green, blue)) / 255.0;
      var delta := componentMax - componentMin;
      var lightness := (componentMax + componentMin) / 2.0;
      if delta == 0.0 then
        Ok(Hsl(0.0, 0.0, lightness))
      else
        SaturationBounds(componentMax, componentMin);
        HueSectorBounds(r, g, b);
        var saturation := delta / (1.0 - Abs(2.0 * lightness - 1.0));
        Ok(Hsl(HueSector(r, g, b, componentMax, delta) * 60.0, saturation, lightness))
  }

  /** convertRGBtoHSL as the source computes it: for a red-dominant colour the
      sector (g - b) / delta is raised by 6 until it is non-negative and then
      reduced with Java's %. */
  method ConvertRGBtoHSL(red: real, green: real, blue: real) returns (res: Result<Hsl>)
    ensures res == RgbToHsl(red, green, blue)
  {
    var r := red / 255.0;
    var g := green / 255.0;
    var b := blue / 255.0;
    if r < 0.0 || r > 1.0 {
      return Err(IllegalArgument);
    }
    if g < 0.0 || g > 1.0 {
      return Err(IllegalArgument);
    }
    if b < 0.0 || b > 1.0 {
      return Err(IllegalArgument);
    }
    var componentMax := RMax(r, RMax(g, b));
    var componentMin := RMin(r, RMin(g, b));
    var delta := componentMax - componentMin;
    var lightness := (componentMax + componentMin) / 2.0;
    var hue: real;
    var saturation: real;
    if delta == 0.0 {
      hue := 0.0;
      saturation := 0.0;
    } else {
      saturation := delta / (1.0 - Abs(2.0 * lightness - 1.0));
      hue := 0.0;
      if componentMax == r {
        hue := (g - b) / delta;
        ghost var start := hue;
        ghost var turns: nat := 0;
        while hue < 0.0
          invariant hue == start + 6.0 * turns as real
          decreases if hue < 0.0 then (-hue).Floor + 1 else 0
        {
          hue := hue + 6.0;
          turns := turns + 1;
        }
        FmodOfShift(start, turns);
        hue := Fmod(hue, 6.0);
      } else if componentMax == g {
        hue := (b - r) / delta;
        hue := hue + 2.0;
      } else if componentMax == b {
        hue := (r - g) / delta;
        hue := hue + 4.0;
      }
      hue := hue * 60.0;
    }
    return Ok(Hsl(hue, saturation, lightness));
  }

  // ---------------------------------------------------------------------------
  // HSL to RGB

  /** convertFn: one channel of the CSS Color 4 conversion, with
      k = (n + hue / 30) % 12 and a = s * min(l, 1 - l). With saturation and
      lightness in [0, 1] the value stays in [0, 1] whatever the hue, and a
      saturation of 0 yields the lightness itself. */
  function ConvertFn(hue: real, saturation: real, lightness: real, n: int): (v: real)
    ensures 0.0 <= saturation <= 1.0 && 0.0 <= lightness <= 1.0 ==> 0.0 <= v <= 1.0
    ensures saturation == 0.0 ==> v == lightness
  {
    var k := Fmod(n as real + hue / 30.0, 12.0);
    var a := saturation * RMin(lightness, 1.0 - lightness);
    var f := RMax(-1.0, RMin(k - 3.0, RMin(9.0 - k, 1.0)));
    ConvertFnBounds(saturation, lightness, f);
    lightness - a * f
  }

  /** l - s * m * f lies in [0, 1] when s is in [0, 1], m is at most l and 1 - l,
      and f is in [-1, 1]. */
  lemma ConvertFnStep(s: real, m: real, l: real, f: real)
    requires 0.0 <= s <= 1.0 && 0.0 <= m <= l && m <= 1.0 - l && -1.0 <= f <= 1.0
    ensures 0.0 <= l - s * m * f <= 1.0
  {
    ScaleReal(m, 0.0, s);
    ScaleReal(m, s, 1.0);
    assert m * s == s * m;
    assert 0.0 <= s * m <= m;
    ScaleReal(s * m, -1.0, f);
    ScaleReal(s * m, f, 1.0);
    assert -(s * m) <= (s * m) * f <= s * m;
    assert s * m * f == (s * m) * f;
  }

  /** l - s * min(l, 1 - l) * f lies in [0, 1] for f in [-1, 1]. */
  lemma ConvertFnBounds(s: real, l: real, f: real)
    requires -1.0 <= f <= 1.0
    ensures 0.0 <= s <= 1.0 && 0.0 <= l <= 1.0 ==>
              0.0 <= l - s * RMin(l, 1.0 - l) * f <= 1.0
  {
    if 0.0 <= s <= 1.0 && 0.0 <= l <= 1.0 {
      ConvertFnStep(s, RMin(l, 1.0 - l), l, f);
    }
  }

  /** convertHSLtoRGB: convertFn at n = 0, 8 and 4, scaled by 255 and rounded.
      With saturation and lightness in [0, 1] every channel is in 0..255 and a
      saturation of 0 gives the gray round(255 * l). */
  function HslToRgb(hue: real, saturation: real, lightness: real): (c: Rgb)
    ensures 0.0 <= saturation <= 1.0 && 0.0 <= lightness <= 1.0 ==>
              0 <= c.r <= 255 && 0 <= c.g <= 255 && 0 <= c.b <= 255
    ensures saturation == 0.0 ==>
              c.r == Round(255.0 * lightness) && c.g == c.r && c.b == c.r
  {
    var r := ConvertFn(hue, saturation, lightness, 0) * 255.0;
    var g := ConvertFn(hue, saturation, lightness, 8) * 255.0;
    var b := ConvertFn(hue, saturation, lightness, 4) * 255.0;
    if 0.0 <= saturation <= 1.0 && 0.0 <= lightness <= 1.0 then
      RoundWithin(r, 0, 255);
      RoundWithin(g, 0, 255);
      RoundWithin(b, 0, 255);
      Rgb(Round(r), Round(g), Round(b))
    else
      Rgb(Round(r), Round(g), Round(b))
  }

  /** Lightness 0 is black and lightness 1 is white, whatever the hue and
      saturation. */
  lemma HslToRgbExtremes(hue: real, saturation: real)
    ensures HslToRgb(hue, saturation, 0.0) == Rgb(0, 0, 0)
    ensures HslToRgb(hue, saturation, 1.0) == Rgb(255, 255, 255)
  {
    forall n: int
      ensures ConvertFn(hue, saturation, 0.0, n) == 0.0 && ConvertFn(hue, saturation, 1.0, n) == 1.0
    {
      assert saturation * RMin(0.0, 1.0 - 0.0) == 0.0;
      assert saturation * RMin(1.0, 1.0 - 1.0) == 0.0;
    }
    RoundOfInt(0);
    RoundOfInt(255);
  }

  /** The conversion's test vectors: (146.25, .79279, .43529) gives (23, 199, 100),
      and (23, 199, 100) gives hue 146.25 with saturation and lightness within
      0.001 of .79279 and .43529 (exactly 176/222 and 111/255). */
  lemma ConversionExamples()
    ensures HslToRgb(146.25, 0.79279, 0.43529) == Rgb(23, 199, 100)
    ensures RgbToHsl(23.0, 199.0, 100.0) == Ok(Hsl(146.25, 176.0 / 222.0, 111.0 / 255.0))
    ensures Abs(176.0 / 222.0 - 0.79279) < 0.001 && Abs(111.0 / 255.0 - 0.43529) < 0.001
  {
    assert Fmod(146.25 / 30.0, 12.0) == 4.875;
    assert Fmod(8.0 + 146.25 / 30.0, 12.0) == 0.875;
    assert Fmod(4.0 + 146.25 / 30.0, 12.0) == 8.875;
    var a := 0.79279 * 0.43529;
    assert (0.43529 - a * 1.0) * 255.0 == 23.0000924295;
    assert (0.43529 - a * -1.0) * 255.0 == 198.9978075705;
    assert (0.43529 - a * 0.125) * 255.0 == 99.9990928036875;
    var r := 23.0 / 255.0;
    var g := 199.0 / 255.0;
    var b := 100.0 / 255.0;
    assert RMax(r, RMax(g, b)) == g && RMin(r, RMin(g, b)) == r;
    assert (b - r) / (g - r) + 2.0 == 2.4375;
  }

  /** A gray survives the round trip: (v, v, v) has saturation 0 and lightness
      v / 255, which converts back to (v, v, v). */
  lemma GrayRoundTrip(v: int)
    requires 0 <= v <= 255
    ensures RgbToHsl(v as real, v as real, v as real) == Ok(Hsl(0.0, 0.0, v as real / 255.0))
    ensures HslToRgb(0.0, 0.0, v as real / 255.0) == Rgb(v, v, v)
  {
    assert 255.0 * (v as real / 255.0) == v as real;
    RoundOfInt(v);
  }
}
