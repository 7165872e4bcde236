/** The pixel algebra of src/model/RGBAPixel.java: an immutable RGBA sample with
    every channel in 0..255, its two constructors, its RGB and RGBA views and the
    source-over compositing operator. Doubles are modelled as reals and
    Math.round(x) as floor(x + 1/2). */
module Pixels {
  import opened Wrappers
  import opened Tokens

  const MIN: int := 0
  const MAX: int := 255

  /** A stored channel value. */
  type Channel = x: int | 0 <= x <= 255

  datatype Pixel = Pixel(red: Channel, green: Channel, blue: Channel, alpha: Channel)

  /** The three colour channels of a pixel (the int[3] of asRGB). */
  datatype Rgb = Rgb(r: int, g: int, b: int)

  /** The fully transparent white pixel, new RGBAPixel(255, 255, 255, 0, 255). */
  const Blank: Pixel := Pixel(255, 255, 255, 0)

  /** Java's Math.round on a finite double. */
  function Round(x: real): int {
    (x + 0.5).Floor
  }

  lemma RoundOfInt(n: int)
    ensures Round(n as real) == n
  {
  }

  lemma RoundMonotone(x: real, y: real)
    requires x <= y
    ensures Round(x) <= Round(y)
  {
  }

  /** Rounding a value in [lo, hi] lands in [lo, hi] when the bounds are integers. */
  lemma RoundWithin(x: real, lo: int, hi: int)
    requires lo as real <= x <= hi as real
    ensures lo <= Round(x) <= hi
  {
    RoundMonotone(lo as real, x);
    RoundMonotone(x, hi as real);
    RoundOfInt(lo);
    RoundOfInt(hi);
  }

  // ---------------------------------------------------------------------------
  // The five-argument constructor RGBAPixel(red, green, blue, alpha, max)

  /** A Java int expression's value: x taken modulo 2^32 into the int range. */
  function WrapInt(x: int): (r: int)
    ensures INT_MIN <= r <= INT_MAX
    ensures INT_MIN <= x <= INT_MAX ==> r == x
    ensures (x - r) % 0x1_0000_0000 == 0
  {
    (x - INT_MIN) % 0x1_0000_0000 + INT_MIN
  }

  /** The rescale formula of RGBAPixel.java:59-66 read over the integers: 0 stays
      0 (the factor 1 - 0^v is 0 for v = 0 and 1 otherwise) and v > 0 becomes
      round(256 * ((v + 1) / (max + 1)) - 1). For max >= 1024 this can be -1. */
  function RescaleFormula(v: int, max: int): int
    requires 1 <= max && 0 <= v <= max
  {
    if v == 0 then 0 else Round(256.0 * ((v + 1) as real / (max + 1) as real) - 1.0)
  }

  /** The rescale as the source computes it on Java ints: the same formula, but
      the sum v + 1 is an int sum, so it wraps at v = 2147483647. The divisor
      (double) max + 1 is a double sum and does not wrap. */
  function RescaleAsWritten(v: int, max: int): int
    requires 1 <= max <= INT_MAX && 0 <= v <= max
  {
    if v == 0 then 0 else Round(256.0 * (WrapInt(v + 1) as real / (max + 1) as real) - 1.0)
  }

  /** Below the top of the int range the int sum does not wrap, so the source
      computes the formula. */
  lemma RescaleAsWrittenIsFormula(v: int, max: int)
    requires 1 <= max <= INT_MAX && 0 <= v <= max && v < INT_MAX
    ensures RescaleAsWritten(v, max) == RescaleFormula(v, max)
  {
  }

  /** At the top of the int range the sum wraps: value 2147483647 on the scale
      2147483647 is stored as -257, where the top of every scale should give 255
      (RescaleTop). */
  lemma RescaleAsWrittenWraps()
    ensures RescaleAsWritten(INT_MAX, INT_MAX) == -257
  {
    assert WrapInt(INT_MAX + 1) == INT_MIN;
    assert 256.0 * (INT_MIN as real / (INT_MAX + 1) as real) - 1.0 == -257.0;
    RoundOfInt(-257);
  }

  /** The source computes the formula except at the wrap, where its value is
      negative; so wherever the source's value is non-negative it is the
      formula's. */
  lemma RescaleAsWrittenAgrees(v: int, max: int)
    requires 1 <= max && 0 <= v <= max
    ensures max <= INT_MAX && v < INT_MAX ==> RescaleAsWritten(v, max) == RescaleFormula(v, max)
    ensures max <= INT_MAX && RescaleAsWritten(v, max) >= 0 ==> RescaleAsWritten(v, max) == RescaleFormula(v, max)
  {
    if max <= INT_MAX {
      if v < INT_MAX {
        RescaleAsWrittenIsFormula(v, max);
      } else {
        RescaleAsWrittenWraps();
      }
    }
  }

  /** The as-written rescale leaves the channel range: value 1 on a scale of 1024
      is stored as -1, which the class comment rules out. */
  lemma RescaleAsWrittenCanBeNegative()
    ensures RescaleAsWritten(1, 1024) == -1
  {
    assert WrapInt(2) == 2;
    assert 256.0 * (2.0 / 1025.0) - 1.0 + 0.5 == -0.5 / 1025.0;
  }

  /** The formula never exceeds 255, and is in range for every scale up to 1023. */
  lemma RescaleFormulaBounds(v: int, max: int)
    requires 1 <= max && 0 <= v <= max
    ensures RescaleFormula(v, max) <= 255
    ensures max <= 1023 ==> RescaleFormula(v, max) >= 0
  {
    if v > 0 {
      var q := (v + 1) as real / (max + 1) as real;
      QuotientBounds((v + 1) as real, (max + 1) as real);
      assert q <= 1.0;
      RoundMonotone(256.0 * q - 1.0, 255.0);
      RoundOfInt(255);
      if max <= 1023 {
        QuotientAtLeast((v + 1) as real, (max + 1) as real, 2.0 / 1024.0);
        assert q >= 2.0 / 1024.0;
        RoundMonotone(-0.5, 256.0 * q - 1.0);
      }
    }
  }

  /** The as-written rescale never exceeds 255, and is in range for every scale up to 1023. */
  lemma RescaleAsWrittenBounds(v: int, max: int)
    requires 1 <= max <= INT_MAX && 0 <= v <= max
    ensures RescaleAsWritten(v, max) <= 255
    ensures max <= 1023 ==> RescaleAsWritten(v, max) >= 0
  {
    RescaleAsWrittenAgrees(v, max);
    RescaleFormulaBounds(v, max);
  }

  /** The rescale the rest of the model uses: the formula over the integers,
      kept at or above 0. It is the source's value wherever that is
      non-negative. */
  function Rescale(v: int, max: int): (c: Channel)
    requires 1 <= max && 0 <= v <= max
    ensures RescaleFormula(v, max) >= 0 ==> c == RescaleFormula(v, max)
    ensures max <= INT_MAX && RescaleAsWritten(v, max) >= 0 ==> c == RescaleAsWritten(v, max)
    ensures max <= 1023 ==> c == RescaleAsWritten(v, max)
    ensures v == 0 ==> c == 0
  {
    RescaleFormulaBounds(v, max);
    RescaleAsWrittenAgrees(v, max);
    var x := RescaleFormula(v, max);
    if x < 0 then 0 else x
  }

  /** On the scale 255 the rescale is the identity, so new RGBAPixel(r, g, b, a, 255)
      stores its arguments unchanged. */
  lemma RescaleAt255(v: int)
    requires 0 <= v <= 255
    ensures Rescale(v, 255) == v
  {
    if v > 0 {
      assert 256.0 * ((v + 1) as real / 256.0) - 1.0 == v as real;
      RoundOfInt(v);
    }
  }

  /** The top of the scale maps to 255. */
  lemma RescaleTop(max: int)
    requires 1 <= max
    ensures Rescale(max, max) == 255
  {
    assert (max + 1) as real / (max + 1) as real == 1.0;
    RoundOfInt(255);
  }

  /** The rescale preserves the order of intensities. */
  lemma RescaleMonotone(v: int, w: int, max: int)
    requires 1 <= max && 0 <= v <= w <= max
    ensures Rescale(v, max) <= Rescale(w, max)
  {
    if v > 0 {
      var qv := (v + 1) as real / (max + 1) as real;
      var qw := (w + 1) as real / (max + 1) as real;
      assert qv * (max + 1) as real == (v + 1) as real;
      assert qw * (max + 1) as real == (w + 1) as real;
      assert qv <= qw;
      RoundMonotone(256.0 * qv - 1.0, 256.0 * qw - 1.0);
    }
  }

  predicate InScale(v: int, max: int) {
    MIN <= v <= max
  }

  /** new RGBAPixel(red, green, blue, alpha, max): IllegalArgumentException when the
      scale is below 1 or a channel lies outside [0, max]; otherwise every channel
      is rescaled to 0..255. */
  function FromScaled(red: int, green: int, blue: int, alpha: int, max: int): (r: Result<Pixel>)
    ensures r.Err? <==> max < 1 || !InScale(red, max) || !InScale(green, max)
                        || !InScale(blue, max) || !InScale(alpha, max)
    ensures r.Err? ==> r.error == IllegalArgument
    ensures r.Ok? ==> (r.value.red == Rescale(red, max) && r.value.green == Rescale(green, max)
                       && r.value.blue == Rescale(blue, max) && r.value.alpha == Rescale(alpha, max))
  {
    if max < 1 then Err(IllegalArgument)
    else if !InScale(red, max) then Err(IllegalArgument)
    else if !InScale(blue, max) then Err(IllegalArgument)
    else if !InScale(green, max) then Err(IllegalArgument)
    else if !InScale(alpha, max) then Err(IllegalArgument)
    else Ok(Pixel(Rescale(red, max), Rescale(green, max), Rescale(blue, max), Rescale(alpha, max)))
  }

  /** With the scale 255 the five-argument constructor accepts exactly the
      channels in 0..255 and stores them unchanged. */
  lemma FromScaledAt255(red: int, green: int, blue: int, alpha: int)
    requires 0 <= red <= 255 && 0 <= green <= 255 && 0 <= blue <= 255 && 0 <= alpha <= 255
    ensures FromScaled(red, green, blue, alpha, 255) == Ok(Pixel(red, green, blue, alpha))
  {
    RescaleAt255(red);
    RescaleAt255(green);
    RescaleAt255(blue);
    RescaleAt255(alpha);
  }

  /** new RGBAPixel(r, g, b, a, 255) for channels already in range, as the model's
      own operations construct their results. */
  function Make(red: int, green: int, blue: int, alpha: int): (p: Pixel)
    requires 0 <= red <= 255 && 0 <= green <= 255 && 0 <= blue <= 255 && 0 <= alpha <= 255
    ensures FromScaled(red, green, blue, alpha, 255) == Ok(p)
  {
    FromScaledAt255(red, green, blue, alpha);
    Pixel(red, green, blue, alpha)
  }

  /** The two five-argument vectors of the pixel tests. */
  lemma FromScaledExamples()
    ensures FromScaled(199, 37, 99, 376, 399) == Ok(Pixel(127, 23, 63, 240))
    ensures FromScaled(39, 19, 9, 31, 39) == Ok(Pixel(255, 127, 63, 204))
    ensures FromScaled(1, 0, 1, 0, 1) == Ok(Pixel(255, 0, 255, 0))
    ensures FromScaled(0, 0, 0, 0, 0) == Err(IllegalArgument)
    ensures FromScaled(501, 2, 4, 5, 500) == Err(IllegalArgument)
  {
    assert 256.0 * (200.0 / 400.0) - 1.0 == 127.0;
    assert 256.0 * (38.0 / 400.0) - 1.0 == 23.32;
    assert 256.0 * (100.0 / 400.0) - 1.0 == 63.0;
    assert 256.0 * (377.0 / 400.0) - 1.0 == 240.28;
    assert 256.0 * (40.0 / 40.0) - 1.0 == 255.0;
    assert 256.0 * (20.0 / 40.0) - 1.0 == 127.0;
    assert 256.0 * (10.0 / 40.0) - 1.0 == 63.0;
    assert 256.0 * (32.0 / 40.0) - 1.0 == 203.8;
    assert 256.0 * (2.0 / 2.0) - 1.0 == 255.0;
  }

  // ---------------------------------------------------------------------------
  // The four-argument constructor RGBAPixel(red, green, blue, max)

  /** The conversion of RGBAPixel.java:101-103 as the source computes it:
      (int) ((v * (double) max) / 255), a truncation of a non-negative double,
      which Java's cast saturates at 2147483647. */
  function ScaleAsWritten(v: int, max: int): int
    requires 0 <= v <= max
  {
    var q := (v * max) / 255;
    if q > INT_MAX then INT_MAX else q
  }

  /** The cast saturates: value 740014 on the scale 740014 would be 2147532236,
      and is stored as 2147483647. */
  lemma ScaleAsWrittenSaturates()
    ensures ScaleAsWritten(740014, 740014) == INT_MAX
  {
    assert 740014 * 740014 / 255 == 2147532236;
  }

  /** The as-written conversion leaves the channel range for scales above 255:
      value 300 on a scale of 300 is stored as 352. */
  lemma ScaleAsWrittenCanExceed255()
    ensures ScaleAsWritten(300, 300) == 352
  {
  }

  /** Multiplying by a non-negative factor keeps the order. */
  lemma {:induction false} MulMonotone(a: int, b: int, c: nat)
    requires a <= b
    ensures a * c <= b * c
  {
    if c > 0 {
      MulMonotone(a, b, c - 1);
      assert a * c == a * (c - 1) + a;
      assert b * c == b * (c - 1) + b;
    }
  }

  /** For every scale up to 255 the as-written conversion stays in range. */
  lemma ScaleAsWrittenBounds(v: int, max: int)
    requires 0 <= v <= max
    ensures 0 <= ScaleAsWritten(v, max)
    ensures max <= 255 ==> ScaleAsWritten(v, max) <= max
  {
    MulMonotone(0, v, max);
    if max <= 255 {
      MulMonotone(v, 255, max);
      assert v * max <= 255 * max;
    }
  }

  /** The as-written conversion misses the top of the scale below 255 as well:
      value 100 on a scale of 100 is stored as 39, where the documented
      conversion gives 255. */
  lemma ScaleAsWrittenMissesTop()
    ensures ScaleAsWritten(100, 100) == 39
    ensures Scale(100, 100) == 255
    ensures Scale(300, 300) == 255
  {
  }

  /** The product v * max of the as-written conversion is taken in double
      precision, so it does not wrap at 2^31: value 46341 on the scale 46341
      gives 46341 * 46341 / 255, truncated. */
  lemma ScaleAsWrittenLargeScale()
    ensures ScaleAsWritten(46341, 46341) == 8421522
  {
  }

  /** A strict inequality between multiples of a positive factor orders the
      multiplied values. */
  lemma MulLess(a: int, b: int, c: nat)
    requires c > 0
    ensures a * c < b * c ==> a < b
  {
    if b <= a {
      MulMonotone(b, a, c);
    }
  }

  /** The truncated quotient v * 255 / max for a value on the scale 0..max lies
      in 0..255, is the largest q with q * max <= v * 255, and is 255 at the top
      of the scale. */
  lemma ScaleInRange(v: int, max: int)
    requires 0 < max && 0 <= v <= max
    ensures var q := (v * 255) / max;
            0 <= q <= 255 && q * max <= v * 255 < (q + 1) * max && (v == max ==> q == 255)
  {
    var n := v * 255;
    var q := n / max;
    assert n == q * max + n % max;
    MulMonotone(0, v, 255);
    MulMonotone(v, max, 255);
    assert (q + 1) * max == q * max + max;
    MulLess(-1, q, max);
    MulLess(q, 256, max);
    MulLess(255, q + 1, max);
  }

  /** The conversion the constructor's documentation describes, which the rest
      of the model uses: a value on the scale 0..max is carried to the scale
      0..255 by truncation, so 0 stays 0 and the top of the scale becomes 255.
      The scale 0 admits only the value 0, which stays 0. */
  function Scale(v: int, max: int): (c: Channel)
    requires 0 <= v <= max
    ensures v == 0 ==> c == 0
    ensures 0 < max && v == max ==> c == 255
    ensures 0 < max ==> c * max <= v * 255 < (c + 1) * max
  {
    if max == 0 then 0
    else
      ScaleInRange(v, max);
      (v * 255) / max
  }

  /** The conversion keeps the order of the values on a scale. */
  lemma ScaleMonotone(a: int, b: int, max: int)
    requires 0 <= a <= b <= max
    ensures Scale(a, max) <= Scale(b, max)
  {
    if max > 0 {
      MulMonotone(a, b, 255);
      MulLess(Scale(a, max), Scale(b, max) + 1, max);
    }
  }

  /** On the scale 255 the four-argument conversion is the identity. */
  lemma ScaleAt255(v: int)
    requires 0 <= v <= 255
    ensures Scale(v, 255) == v
  {
  }

  /** new RGBAPixel(red, green, blue, max): IllegalArgumentException when a colour
      channel lies outside [0, max]; otherwise the channels are converted and the
      pixel is opaque. The scale itself is not checked. */
  function FromRGB(red: int, green: int, blue: int, max: int): (r: Result<Pixel>)
    ensures r.Err? <==> !InScale(red, max) || !InScale(green, max) || !InScale(blue, max)
    ensures r.Err? ==> r.error == IllegalArgument
    ensures r.Ok? ==> (r.value.alpha == MAX && r.value.red == Scale(red, max)
                       && r.value.green == Scale(green, max) && r.value.blue == Scale(blue, max))
  {
    if !InScale(red, max) then Err(IllegalArgument)
    else if !InScale(green, max) then Err(IllegalArgument)
    else if !InScale(blue, max) then Err(IllegalArgument)
    else Ok(Pixel(Scale(red, max), Scale(green, max), Scale(blue, max), MAX))
  }

  /** With the scale 255 the four-argument constructor stores the channels unchanged. */
  lemma FromRGBAt255(red: int, green: int, blue: int)
    requires 0 <= red <= 255 && 0 <= green <= 255 && 0 <= blue <= 255
    ensures FromRGB(red, green, blue, 255) == Ok(Pixel(red, green, blue, 255))
  {
  }

  /** The four-argument vector of the pixel tests with the scale 0: every
      positive channel is above the scale, so the pixel is rejected. */
  lemma FromRGBExample()
    ensures FromRGB(1, 2, 200, 0) == Err(IllegalArgument)
    ensures FromRGB(0, 0, 0, 0) == Ok(Pixel(0, 0, 0, MAX))
  {
  }

  // ---------------------------------------------------------------------------
  // Views

  /** getMax: every pixel is stored on the scale 0..255. */
  function GetMax(p: Pixel): (m: int)
    ensures m == MAX
  {
    MAX
  }

  /** asRGBA: the stored channels, red first. */
  function AsRGBA(p: Pixel): (s: seq<int>)
    ensures |s| == 4 && s[0] == p.red && s[1] == p.green && s[2] == p.blue && s[3] == p.alpha
  {
    [p.red, p.green, p.blue, p.alpha]
  }

  /** A colour channel multiplied by alpha / 255 and rounded. */
  function Premultiply(c: Channel, alpha: Channel): (v: int)
    ensures 0 <= v <= c
    ensures alpha == 0 ==> v == 0
    ensures alpha == MAX ==> v == c
  {
    var t := alpha as real / 255.0;
    assert 0.0 <= c as real * t <= c as real;
    RoundWithin(c as real * t, 0, c);
    RoundOfInt(c);
    Round(c as real * t)
  }

  /** asRGB: the colour channels premultiplied by alpha, alpha dropped. */
  function AsRGB(p: Pixel): (c: Rgb)
    ensures 0 <= c.r <= p.red && 0 <= c.g <= p.green && 0 <= c.b <= p.blue
    ensures p.alpha == 0 ==> c == Rgb(0, 0, 0)
    ensures p.alpha == MAX ==> c == Rgb(p.red, p.green, p.blue)
  {
    Rgb(Premultiply(p.red, p.alpha), Premultiply(p.green, p.alpha), Premultiply(p.blue, p.alpha))
  }

  lemma AsRGBExamples()
    ensures AsRGB(Pixel(127, 23, 63, 240)) == Rgb(120, 22, 59)
    ensures AsRGB(Pixel(255, 127, 63, 204)) == Rgb(204, 102, 50)
  {
  }

  // ---------------------------------------------------------------------------
  // Compositing

  /** A non-negative factor keeps the order of reals. */
  lemma ScaleReal(c: real, x: real, y: real)
    requires 0.0 <= c && x <= y
    ensures c * x <= c * y
  {
    assert c * y - c * x == c * (y - x);
  }

  /** A positive factor keeps a strict order of reals. */
  lemma ScaleRealStrict(c: real, x: real, y: real)
    requires 0.0 < c && x < y
    ensures c * x < c * y
  {
    assert c * y - c * x == c * (y - x);
  }

  /** A quotient n / d with d > 0 inherits the bounds of n relative to d. */
  lemma QuotientBounds(n: real, d: real)
    requires d > 0.0
    ensures n <= d ==> n / d <= 1.0
    ensures -d <= n ==> -1.0 <= n / d
    ensures 0.0 < n ==> 0.0 < n / d
  {
    var q := n / d;
    assert q * d == n;
    if q > 1.0 {
      ScaleRealStrict(d, 1.0, q);
    }
    if q < -1.0 {
      ScaleRealStrict(d, q, -1.0);
    }
    if q <= 0.0 {
      ScaleReal(d, q, 0.0);
    }
  }

  /** A quotient n / d with d > 0 is at least c when n is at least c * d. */
  lemma QuotientAtLeast(n: real, d: real, c: real)
    requires d > 0.0 && c * d <= n
    ensures c <= n / d
  {
    var q := n / d;
    assert q * d == n;
    if q < c {
      ScaleRealStrict(d, q, c);
      assert d * q == q * d && d * c == c * d;
    }
  }

  /** The numerator of a weighted mean of two channels lies in [0, 255 * (wt + wb)]. */
  lemma WeightedSumBounds(ct: real, cb: real, wt: real, wb: real)
    requires 0.0 <= ct <= 255.0 && 0.0 <= cb <= 255.0
    requires 0.0 <= wt && 0.0 <= wb
    ensures wt * ct + cb * wb <= 255.0 * (wt + wb)
  {
    ScaleReal(wt, ct, 255.0);
    ScaleReal(wb, cb, 255.0);
    assert wb * cb == cb * wb;
  }

  /** Source-over weighted mean of two channels: weights wt, wb >= 0 with wt + wb > 0
      give a value between the two channels' common bounds. */
  lemma WeightedMeanBounds(ct: real, cb: real, wt: real, wb: real)
    requires 0.0 <= ct <= 255.0 && 0.0 <= cb <= 255.0
    requires 0.0 <= wt && 0.0 <= wb && wt + wb > 0.0
    ensures 0.0 <= (wt * ct + cb * wb) * (1.0 / (wt + wb)) <= 255.0
  {
    var s := wt + wb;
    var n := wt * ct + cb * wb;
    WeightedSumBounds(ct, cb, wt, wb);
    ScaleReal(wt, 0.0, ct);
    ScaleReal(cb, 0.0, wb);
    assert n * (1.0 / s) == n / s;
    assert n / s <= 255.0 by {
      assert (n / s) * s == n;
    }
  }

  /** A stored alpha as the fraction alpha / 255 the compositing arithmetic uses. */
  function Opacity(alpha: Channel): (w: real)
    ensures 0.0 <= w <= 1.0
    ensures w * 255.0 == alpha as real
  {
    alpha as real / 255.0
  }

  /** ta + ba * (1 - ta) is at least each of ta and ba. */
  lemma MixAbove(ta: real, ba: real)
    requires 0.0 <= ta <= 1.0 && 0.0 <= ba <= 1.0
    ensures ta <= ta + ba * (1.0 - ta) && ba <= ta + ba * (1.0 - ta)
  {
    ScaleReal(ba, 0.0, 1.0 - ta);
    ScaleReal(ta, 0.0, 1.0 - ba);
    assert (ta + ba * (1.0 - ta)) - ba == ta * (1.0 - ba);
  }

  /** ta + ba * (1 - ta) is at most 1. */
  lemma MixAtMostOne(ta: real, ba: real)
    requires 0.0 <= ta <= 1.0 && 0.0 <= ba <= 1.0
    ensures ta + ba * (1.0 - ta) <= 1.0
  {
    ScaleReal(1.0 - ta, 0.0, 1.0 - ba);
    assert 1.0 - (ta + ba * (1.0 - ta)) == (1.0 - ta) * (1.0 - ba);
  }

  /** The composite alpha ta + ba * (1 - ta) lies between the larger input and 1. */
  function MixAlpha(ta: real, ba: real): (m: real)
    requires 0.0 <= ta <= 1.0 && 0.0 <= ba <= 1.0
    ensures ta <= m <= 1.0 && ba <= m
  {
    MixAbove(ta, ba);
    MixAtMostOne(ta, ba);
    ta + ba * (1.0 - ta)
  }

  /** The unrounded channel of source over: (ta * top + bottom * ba * (1 - ta)) / mix,
      which lies in 0..255. */
  function BlendValue(ct: Channel, cb: Channel, ta: real, ba: real): (x: real)
    requires 0.0 <= ta <= 1.0 && 0.0 <= ba <= 1.0
    requires MixAlpha(ta, ba) > 0.0
    ensures 0.0 <= x <= 255.0
  {
    WeightedMeanBounds(ct as real, cb as real, ta, ba * (1.0 - ta));
    assert (ta * ct as real + cb as real * ba * (1.0 - ta)) * (1.0 / MixAlpha(ta, ba))
        == (ta * ct as real + cb as real * (ba * (1.0 - ta))) * (1.0 / (ta + ba * (1.0 - ta)));
    (ta * ct as real + cb as real * ba * (1.0 - ta)) * (1.0 / MixAlpha(ta, ba))
  }

  /** An opaque top contributes its channel alone and a transparent top nothing. */
  lemma BlendEdges(ct: Channel, cb: Channel, ta: real, ba: real)
    requires 0.0 <= ta <= 1.0 && 0.0 <= ba <= 1.0
    requires MixAlpha(ta, ba) > 0.0
    ensures ta == 1.0 ==> Round(BlendValue(ct, cb, ta, ba)) == ct
    ensures ta == 0.0 ==> Round(BlendValue(ct, cb, ta, ba)) == cb
    ensures ba == 0.0 ==> Round(BlendValue(ct, cb, ta, ba)) == ct
  {
    var x := BlendValue(ct, cb, ta, ba);
    if ta == 1.0 {
      assert MixAlpha(ta, ba) == 1.0;
      assert x == ct as real;
      RoundOfInt(ct);
    }
    if ta == 0.0 {
      assert MixAlpha(ta, ba) == ba;
      assert x == (cb as real * ba) * (1.0 / ba);
      assert x == cb as real;
      RoundOfInt(cb);
    }
    if ba == 0.0 {
      assert MixAlpha(ta, ba) == ta;
      assert x == (ta * ct as real) * (1.0 / ta);
      assert x == ct as real;
      RoundOfInt(ct);
    }
  }

  /** One colour channel of source over: the rounded BlendValue. An opaque top
      keeps the top channel and a transparent top the bottom one. */
  function BlendChannel(ct: Channel, cb: Channel, ta: real, ba: real): (c: Channel)
    requires 0.0 <= ta <= 1.0 && 0.0 <= ba <= 1.0
    requires MixAlpha(ta, ba) > 0.0
    ensures ta == 1.0 ==> c == ct
    ensures ta == 0.0 ==> c == cb
    ensures ba == 0.0 ==> c == ct
  {
    var x := BlendValue(ct, cb, ta, ba);
    RoundWithin(x, 0, 255);
    BlendEdges(ct, cb, ta, ba);
    Round(x)
  }

  /** combine: the pixel `top` composited over `bottom` (W3C Compositing and Blending
      Level 1, section 9.1.4, source over). When both alphas are 0 the source
      computes 0 * (1 / 0), a NaN that Math.round turns into 0, so the result is
      (0, 0, 0, 0). The result is re-validated by new RGBAPixel(..., 255), which
      accepts it unchanged (Make). */
  function Combine(bottom: Pixel, top: Pixel): (r: Pixel)
    ensures top.alpha == MAX ==> r == Pixel(top.red, top.green, top.blue, MAX)
    ensures top.alpha == 0 && bottom.alpha > 0 ==> r == bottom
    ensures top.alpha == 0 && bottom.alpha == 0 ==> r == Pixel(0, 0, 0, 0)
    ensures r.alpha >= top.alpha && r.alpha >= bottom.alpha
  {
    var ta := Opacity(top.alpha);
    var ba := Opacity(bottom.alpha);
    var mix := MixAlpha(ta, ba);
    if mix == 0.0 then
      Make(0, 0, 0, 0)
    else
      RoundWithin(mix * 255.0, 0, 255);
      RoundWithin(mix * 255.0, top.alpha, 255);
      RoundWithin(mix * 255.0, bottom.alpha, 255);
      assert ta == 1.0 ==> mix * 255.0 == 255.0;
      assert ta == 0.0 ==> mix * 255.0 == bottom.alpha as real;
      RoundOfInt(255);
      RoundOfInt(bottom.alpha);
      Make(BlendChannel(top.red, bottom.red, ta, ba), BlendChannel(top.green, bottom.green, ta, ba),
           BlendChannel(top.blue, bottom.blue, ta, ba), Round(mix * 255.0))
  }

  /** Over a fully transparent bottom the top shows unchanged, unless it is fully
      transparent too. */
  lemma CombineOverTransparent(bottom: Pixel, top: Pixel)
    requires bottom.alpha == 0
    ensures Combine(bottom, top) == if top.alpha == 0 then Pixel(0, 0, 0, 0) else top
  {
    var ta := Opacity(top.alpha);
    assert MixAlpha(ta, Opacity(bottom.alpha)) == ta;
    RoundOfInt(top.alpha);
  }

  /** The pixel tests' compositing vectors: p4 over p5 and p5 over p4 differ, so
      combine is not commutative. */
  lemma CombineNotCommutative()
    ensures Combine(Pixel(127, 23, 63, 240), Pixel(255, 127, 63, 204)) == Pixel(231, 107, 63, 252)
    ensures Combine(Pixel(255, 127, 63, 204), Pixel(127, 23, 63, 240)) == Pixel(133, 28, 63, 252)
  {
    var ta := 204.0 / 255.0;
    var ba := 240.0 / 255.0;
    assert ta + ba * (1.0 - ta) == 252.0 / 255.0;
    var tb := 240.0 / 255.0;
    var bb := 204.0 / 255.0;
    assert tb + bb * (1.0 - tb) == 252.0 / 255.0;
  }
}
