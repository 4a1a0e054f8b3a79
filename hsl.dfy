/**
 * RGB to HSL and back, as both HSL filters compute it on numbers in
 * [0, 1], and the two ways the filters shift the hue: the Canvas filter
 * adds (hue - 100) / 100 turns, the test-suite variant adds
 * (hue - 100) * 3.6 degrees. Both wrap with JavaScript's `%`, which keeps
 * the sign of the dividend, and then add 1 to a negative result.
 */
module Hsl {
  import opened Bytes
  import opened Filters

  datatype HslColor = HslColor(h: real, s: real, l: real)
  datatype RealRgb = RealRgb(r: real, g: real, b: real)

  /** Math.trunc */
  function Trunc(x: real): (t: int)
    ensures x >= 0.0 ==> 0.0 <= x - t as real < 1.0
    ensures x < 0.0 ==> -1.0 < x - t as real <= 0.0
  {
    if x >= 0.0 then x.Floor else -((-x).Floor)
  }

  /**
   * JavaScript's `x % m` for a positive modulus: x - m * trunc(x / m),
   * written as m times the truncation gap of x / m; the sign is x's.
   */
  function JsRem(x: real, m: real): (r: real)
    requires m > 0.0
    ensures x >= 0.0 ==> 0.0 <= r < m
    ensures x < 0.0 ==> -m < r <= 0.0
  {
    var q := x / m;
    QuotientSign(x, m);
    var g := q - Trunc(q) as real;
    if q >= 0.0 then
      ScaleNonNegative(m, g);
      m * g
    else
      ScaleNonPositive(m, g);
      m * g
  }

  lemma QuotientSign(x: real, m: real)
    requires m > 0.0
    ensures x / m >= 0.0 <==> x >= 0.0
  {
    if x >= 0.0 {
      assert x / m >= 0.0;
    }
  }

  lemma ScaleNonNegative(m: real, f: real)
    requires m > 0.0 && 0.0 <= f < 1.0
    ensures 0.0 <= m * f < m
  {
    assert m - m * f == m * (1.0 - f);
  }

  lemma ScaleNonPositive(m: real, f: real)
    requires m > 0.0 && -1.0 < f <= 0.0
    ensures -m < m * f <= 0.0
  {
    assert m + m * f == m * (1.0 + f);
  }

  /** x minus the largest integer not above it. */
  function Frac(x: real): real { x - x.Floor as real }

  /** Wrapping by `% 1` and adding 1 to a negative result is taking the fractional part. */
  lemma WrapIsFrac(x: real)
    ensures var r := JsRem(x, 1.0); (if r < 0.0 then r + 1.0 else r) == Frac(x)
  {
    var t := Trunc(x / 1.0);
    assert JsRem(x, 1.0) == x - t as real;
    if x < 0.0 && x - t as real < 0.0 {
      assert x.Floor == t - 1;
    }
  }

  function Max3(a: real, b: real, c: real): real { RealMax(RealMax(a, b), c) }
  function Min3(a: real, b: real, c: real): real { RealMin(RealMin(a, b), c) }

  /**
   * The RGB to HSL conversion both filters use, on channels divided by 255:
   * every component lies in its unit range, and the saturation is zero
   * exactly for a grey pixel, whose hue is 0 and whose lightness is its
   * channel value.
   */
  function RgbToHsl(p: Rgb): (c: HslColor)
    requires IsRgbBytes(p)
    ensures 0.0 <= c.h < 1.0 && 0.0 <= c.s <= 1.0 && 0.0 <= c.l <= 1.0
    ensures c.s == 0.0 <==> p.r == p.g == p.b
    ensures p.r == p.g == p.b ==> c.h == 0.0 && c.l == p.r as real / 255.0
  {
    var r, g, b := p.r as real / 255.0, p.g as real / 255.0, p.b as real / 255.0;
    var mx, mn := Max3(r, g, b), Min3(r, g, b);
    var l := (mx + mn) / 2.0;
    if mx == mn then HslColor(0.0, 0.0, l)
    else
      var d := mx - mn;
      var s := if l > 0.5 then d / (2.0 - mx - mn) else d / (mx + mn);
      var h :=
        if mx == r then (g - b) / d + (if g < b then 6.0 else 0.0)
        else if mx == g then (b - r) / d + 2.0
        else (r - g) / d + 4.0;
      SaturationInUnit(mx, mn);
      HueSectorInRange(r, g, b, mx, mn);
      HslColor(h / 6.0, s, l)
  }

  /** A product of two non-negative numbers is non-negative. */
  lemma ProductNonNegative(a: real, b: real)
    requires a >= 0.0 && b >= 0.0
    ensures a * b >= 0.0
  {
  }

  /** A difference no larger than d in magnitude, divided by d, lies in [-1, 1] and keeps its sign. */
  lemma RatioInUnit(x: real, d: real)
    requires d > 0.0 && -d <= x <= d
    ensures -1.0 <= x / d <= 1.0
    ensures x < 0.0 ==> x / d < 0.0
    ensures x > 0.0 ==> x / d > 0.0
  {
    var q := x / d;
    assert q * d == x;
    assert (-q) * d == -x;
    if q <= 0.0 { ProductNonNegative(-q, d); }
    assert (q - 1.0) * d == x - d;
    assert (-1.0 - q) * d == -d - x;
    if q > 1.0 { ProductNonNegative(q - 1.0, d); }
    if q < -1.0 { ProductNonNegative(-1.0 - q, d); }
    if q >= 0.0 { ProductNonNegative(q, d); }
  }

  /** The saturation formula stays in (0, 1] when max > min. */
  lemma SaturationInUnit(mx: real, mn: real)
    requires 0.0 <= mn < mx <= 1.0
    ensures var d := mx - mn;
      var s := if (mx + mn) / 2.0 > 0.5 then d / (2.0 - mx - mn) else d / (mx + mn);
      0.0 < s <= 1.0
  {
    var d := mx - mn;
    if (mx + mn) / 2.0 > 0.5 {
      RatioInUnit(d, 2.0 - mx - mn);
    } else {
      RatioInUnit(d, mx + mn);
    }
  }

  /** The hue before division by 6 lies in [0, 6). */
  lemma HueSectorInRange(r: real, g: real, b: real, mx: real, mn: real)
    requires mx == Max3(r, g, b) && mn == Min3(r, g, b) && mx != mn
    ensures var d := mx - mn;
      var h :=
        if mx == r then (g - b) / d + (if g < b then 6.0 else 0.0)
        else if mx == g then (b - r) / d + 2.0
        else (r - g) / d + 4.0;
      0.0 <= h < 6.0
  {
    var d := mx - mn;
    if mx == r {
      RatioInUnit(g - b, d);
    } else if mx == g {
      RatioInUnit(b - r, d);
    } else {
      RatioInUnit(r - g, d);
    }
  }

  /**
   * hue2rgb: with the hue offset inside [-1, 2] (the offsets HslToRgb
   * passes for a hue in [0, 1)), the result lies between p and q.
   */
  function HueToRgb(p: real, q: real, t: real): (v: real)
    ensures p <= q && -1.0 <= t <= 2.0 ==> p <= v <= q
  {
    var t1 := if t < 0.0 then t + 1.0 else t;
    var t2 := if t1 > 1.0 then t1 - 1.0 else t1;
    if t2 < 1.0 / 6.0 then Lerp(p, q, 6.0 * t2)
    else if t2 < 1.0 / 2.0 then q
    else if t2 < 2.0 / 3.0 then Lerp(p, q, (2.0 / 3.0 - t2) * 6.0)
    else p
  }

  /** p + (q - p) * w: the point at weight w on the way from p to q. */
  function Lerp(p: real, q: real, w: real): (v: real)
    ensures p <= q && 0.0 <= w <= 1.0 ==> p <= v <= q
  {
    var v := p + (q - p) * w;
    if p <= q && 0.0 <= w <= 1.0 then
      ProductNonNegative(q - p, w);
      ProductNonNegative(q - p, 1.0 - w);
      assert (q - p) - (q - p) * w == (q - p) * (1.0 - w);
      v
    else v
  }

  /**
   * HSL back to RGB in [0, 1] (before scaling by 255): a colour whose
   * components lie in their unit ranges converts to channels in [0, 1],
   * and a grey comes back with all three channels equal to its lightness.
   */
  function HslToRgb(c: HslColor): (v: RealRgb)
    ensures c.s == 0.0 ==> v == RealRgb(c.l, c.l, c.l)
    ensures 0.0 <= c.h < 1.0 && 0.0 <= c.s <= 1.0 && 0.0 <= c.l <= 1.0 ==>
      0.0 <= v.r <= 1.0 && 0.0 <= v.g <= 1.0 && 0.0 <= v.b <= 1.0
  {
    if c.s == 0.0 then RealRgb(c.l, c.l, c.l)
    else
      var q := UpperPivot(c.s, c.l);
      var p := 2.0 * c.l - q;
      RealRgb(HueToRgb(p, q, c.h + 1.0 / 3.0), HueToRgb(p, q, c.h), HueToRgb(p, q, c.h - 1.0 / 3.0))
  }

  /**
   * The upper pivot q of the HSL to RGB conversion; with the lower pivot
   * p = 2l - q they satisfy 0 <= p <= q <= 1 for s and l in [0, 1].
   */
  function UpperPivot(s: real, l: real): (q: real)
    ensures 0.0 <= s <= 1.0 && 0.0 <= l <= 1.0 ==> 0.0 <= 2.0 * l - q <= q <= 1.0
  {
    var q := if l < 0.5 then l * (1.0 + s) else l + s - l * s;
    if 0.0 <= s <= 1.0 && 0.0 <= l <= 1.0 then
      ProductNonNegative(l, s);
      ProductNonNegative(l, 1.0 - s);
      ProductNonNegative(s, 1.0 - l);
      ProductNonNegative(1.0 - s, 1.0 - l);
      assert l - l * s == l * (1.0 - s);
      assert s - l * s == s * (1.0 - l);
      assert (1.0 - l) - s * (1.0 - l) == (1.0 - s) * (1.0 - l);
      assert l * (1.0 + s) == l + l * s;
      q
    else q
  }

  /** A grey (zero-saturation) colour comes back with all three channels equal to l. */
  lemma GreyRoundTrip(l: real)
    ensures HslToRgb(HslColor(0.0, 0.0, l)) == RealRgb(l, l, l)
  {
  }

  /**
   * `data[i] = Math.round(x * 255)` into a clamped byte; for x in [0, 1]
   * the clamp never applies and the byte is the rounded value itself.
   */
  function StoreUnit(x: real): (r: int)
    ensures IsByte(r)
    ensures 0.0 <= x <= 1.0 ==> r == MathRound(x * 255.0)
  {
    var v := MathRound(x * 255.0);
    if 0.0 <= x <= 1.0 then
      StoreOfByte(v);
      Store(v as real)
    else Store(v as real)
  }

  function StoreRgb(c: RealRgb): (p: Rgb)
    ensures IsRgbBytes(p)
  {
    Rgb(StoreUnit(c.r), StoreUnit(c.g), StoreUnit(c.b))
  }

  /* ---- the Canvas filter's adjustment ---- */

  /**
   * Hue shifted by `hFactor` turns and wrapped, saturation and lightness
   * scaled and clamped into [0, 1].
   */
  function AdjustCanvas(c: HslColor, hFactor: real, sFactor: real, lFactor: real): (a: HslColor)
    ensures 0.0 <= a.h < 1.0
    ensures 0.0 <= a.s <= 1.0 && 0.0 <= a.l <= 1.0
  {
    var h := JsRem(c.h + hFactor, 1.0);
    var h := if h < 0.0 then h + 1.0 else h;
    HslColor(h, RealMax(0.0, RealMin(1.0, c.s * sFactor)), RealMax(0.0, RealMin(1.0, c.l * lFactor)))
  }

  /** The Canvas hue shift is addition modulo one turn. */
  lemma AdjustCanvasHueIsFrac(c: HslColor, hFactor: real, sFactor: real, lFactor: real)
    ensures AdjustCanvas(c, hFactor, sFactor, lFactor).h == Frac(c.h + hFactor)
  {
    WrapIsFrac(c.h + hFactor);
  }

  function CanvasHslPixel(hue: real, saturation: real, lightness: real): Rgb --> Rgb {
    (p: Rgb) requires IsRgbBytes(p) =>
      StoreRgb(HslToRgb(AdjustCanvas(RgbToHsl(p), (hue - 100.0) / 100.0, saturation / 100.0, lightness / 100.0)))
  }

  /* ---- the test-suite variant's adjustment ---- */

  /**
   * Hue shifted by `hueShift` degrees and wrapped into [0, 1); saturation
   * and lightness scaled and capped at 1 (but not raised to 0).
   */
  function AdjustTest(c: HslColor, hueShift: real, satFactor: real, lightFactor: real): (a: HslColor)
    ensures 0.0 <= a.h < 1.0
    ensures a.s <= 1.0 && a.l <= 1.0
    ensures c.s * satFactor <= 1.0 ==> a.s == c.s * satFactor
    ensures c.l * lightFactor <= 1.0 ==> a.l == c.l * lightFactor
  {
    var h := JsRem(c.h * 360.0 + hueShift, 360.0) / 360.0;
    var h := if h < 0.0 then h + 1.0 else h;
    var s := c.s * satFactor;
    var l := c.l * lightFactor;
    HslColor(h, if s > 1.0 then 1.0 else s, if l > 1.0 then 1.0 else l)
  }

  /** The test variant's hue shift is addition of hueShift / 360 turns, modulo one turn. */
  lemma AdjustTestHueIsFrac(c: HslColor, hueShift: real, satFactor: real, lightFactor: real)
    ensures AdjustTest(c, hueShift, satFactor, lightFactor).h == Frac(c.h + hueShift / 360.0)
  {
    var x := c.h * 360.0 + hueShift;
    var y := c.h + hueShift / 360.0;
    assert x / 360.0 == y;
    var t := Trunc(y);
    assert JsRem(x, 360.0) == x - 360.0 * t as real;
    assert JsRem(x, 360.0) / 360.0 == y - t as real;
    if y < 0.0 && y - t as real < 0.0 {
      assert y.Floor == t - 1;
    }
  }

  function TestHslPixel(hue: real, saturation: real, lightness: real): Rgb --> Rgb {
    (p: Rgb) requires IsRgbBytes(p) =>
      StoreRgb(HslToRgb(AdjustTest(RgbToHsl(p), (hue - 100.0) * 3.6, saturation / 100.0, lightness / 100.0)))
  }
}
