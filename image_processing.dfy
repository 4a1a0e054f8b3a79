/**
 * The Canvas fallback path of processImage: the output size and JPEG
 * quality, and the six filters that rewrite the ImageData buffer in
 * place. The buffer is an array of bytes, four per pixel (R, G, B, A) in
 * row-major order; every assignment into it goes through the
 * Uint8ClampedArray store `Store`.
 */
module ImageProcessing {
  import opened Wrappers
  import opened Bytes
  import opened Filters
  import Hsl
  import opened Convolution

  /* ---- output size and quality ---- */

  /** A size preset; `height` is null to keep the aspect ratio. */
  datatype Preset = Preset(width: int, height: Option<int>, quality: real)

  datatype Size = Size(width: int, height: int)

  /**
   * The canvas size: the image's own without a preset; with one, the
   * preset's width, and its height when set and non-zero, otherwise the
   * width scaled by the image's aspect ratio and rounded.
   */
  function TargetSize(imgWidth: int, imgHeight: int, preset: Option<Preset>): (r: Size)
    requires imgWidth > 0
    ensures preset.None? ==> r == Size(imgWidth, imgHeight)
    ensures preset.Some? ==> r.width == preset.value.width
    ensures preset.Some? && preset.value.height.Some? && preset.value.height.value != 0
            ==> r.height == preset.value.height.value
  {
    match preset
    case None => Size(imgWidth, imgHeight)
    case Some(p) =>
      if p.height.None? || p.height.value == 0 then
        var aspectRatio := imgHeight as real / imgWidth as real;
        Size(p.width, MathRound(p.width as real * aspectRatio))
      else Size(p.width, p.height.value)
  }

  /** Without an explicit height the output keeps the aspect ratio, up to rounding. */
  lemma TargetSizeKeepsAspect(imgWidth: int, imgHeight: int, p: Preset)
    requires imgWidth > 0 && (p.height.None? || p.height.value == 0)
    ensures var r := TargetSize(imgWidth, imgHeight, Some(p));
      r.width == p.width
      && (r.height as real) - 0.5 <= p.width as real * imgHeight as real / imgWidth as real < (r.height as real) + 0.5
  {
    var aspectRatio := imgHeight as real / imgWidth as real;
    assert p.width as real * aspectRatio == p.width as real * imgHeight as real / imgWidth as real;
  }

  /** A preset with the image's own width and no height reproduces the image size. */
  lemma TargetSizeOfSameWidth(imgWidth: int, imgHeight: int, quality: real)
    requires imgWidth > 0
    ensures TargetSize(imgWidth, imgHeight, Some(Preset(imgWidth, None, quality))) == Size(imgWidth, imgHeight)
  {
    var aspectRatio := imgHeight as real / imgWidth as real;
    assert imgWidth as real * aspectRatio == imgHeight as real;
    assert (imgHeight as real + 0.5).Floor == imgHeight;
  }

  /** The JPEG quality passed to toDataURL: preset.quality / 100, else 0.85. */
  function JpegQuality(preset: Option<Preset>): (q: real)
    ensures preset.None? ==> q == 0.85
    ensures preset.Some? ==> q * 100.0 == preset.value.quality
  {
    match preset
    case None => 0.85
    case Some(p) => p.quality / 100.0
  }

  /* ---- auto level ---- */

  function IntMin(a: int, b: int): int { if a <= b then a else b }
  function IntMax(a: int, b: int): int { if a >= b then a else b }

  /** Running minimum of channel c over the first p pixels, starting from 255. */
  function ChannelMin(s: seq<int>, c: int, p: nat): int
    requires 0 <= c < 3 && 4 * p <= |s|
  {
    if p == 0 then 255 else IntMin(ChannelMin(s, c, p - 1), ChannelOf(PixelOf(s, p - 1), c))
  }

  /** Running maximum of channel c over the first p pixels, starting from 0. */
  function ChannelMax(s: seq<int>, c: int, p: nat): int
    requires 0 <= c < 3 && 4 * p <= |s|
  {
    if p == 0 then 0 else IntMax(ChannelMax(s, c, p - 1), ChannelOf(PixelOf(s, p - 1), c))
  }

  function MinColour(s: seq<int>, p: nat): Rgb
    requires 4 * p <= |s|
  {
    Rgb(ChannelMin(s, 0, p), ChannelMin(s, 1, p), ChannelMin(s, 2, p))
  }

  function MaxColour(s: seq<int>, p: nat): Rgb
    requires 4 * p <= |s|
  {
    Rgb(ChannelMax(s, 0, p), ChannelMax(s, 1, p), ChannelMax(s, 2, p))
  }

  /** Every pixel's channel lies between the channel's minimum and maximum. */
  lemma {:induction false} ChannelBounds(s: seq<int>, c: int, p: nat, q: nat)
    requires 0 <= c < 3 && 4 * p <= |s| && q < p
    ensures ChannelMin(s, c, p) <= ChannelOf(PixelOf(s, q), c) <= ChannelMax(s, c, p)
  {
    if q < p - 1 {
      ChannelBounds(s, c, p - 1, q);
    }
  }

  /** On a byte buffer with pixels, the minimum and maximum are attained. */
  lemma {:induction false} ChannelExtremesAttained(s: seq<int>, c: int, p: nat)
    requires 0 <= c < 3 && 4 * p <= |s| && AllBytes(s) && p > 0
    ensures exists q :: 0 <= q < p && ChannelOf(PixelOf(s, q), c) == ChannelMin(s, c, p)
    ensures exists q :: 0 <= q < p && ChannelOf(PixelOf(s, q), c) == ChannelMax(s, c, p)
  {
    if p == 1 {
      assert ChannelOf(PixelOf(s, 0), c) == ChannelMin(s, c, 1);
      assert ChannelOf(PixelOf(s, 0), c) == ChannelMax(s, c, 1);
    } else {
      ChannelExtremesAttained(s, c, p - 1);
    }
  }

  /**
   * `min === max ? v : Math.round(((v - min) / (max - min)) * 255)`,
   * stored into a clamped byte.
   */
  function LevelChannel(v: int, lo: int, hi: int): (r: int)
    ensures IsByte(r)
  {
    Store((if lo == hi then v else MathRound(((v - lo) as real / (hi - lo) as real) * 255.0)) as real)
  }

  /** A value within [lo, hi] is stretched without clamping, lo to 0 and hi to 255. */
  lemma LevelStretch(v: int, lo: int, hi: int)
    requires lo <= v <= hi && lo < hi
    ensures LevelChannel(v, lo, hi) == MathRound(((v - lo) as real / (hi - lo) as real) * 255.0)
    ensures v == lo ==> LevelChannel(v, lo, hi) == 0
    ensures v == hi ==> LevelChannel(v, lo, hi) == 255
  {
    var t := (v - lo) as real / (hi - lo) as real;
    UnitRatio(v - lo, hi - lo);
    var r := MathRound(t * 255.0);
    assert IsByte(r);
    StoreOfByte(r);
  }

  /** a / b for 0 <= a <= b lies in [0, 1], and is 0 or 1 at the ends. */
  lemma UnitRatio(a: int, b: int)
    requires 0 <= a <= b && b > 0
    ensures 0.0 <= a as real / b as real <= 1.0
    ensures a == 0 ==> a as real / b as real == 0.0
    ensures a == b ==> a as real / b as real == 1.0
  {
    var t := a as real / b as real;
    assert t * b as real == a as real;
  }

  /** The second loop of canvasAutoLevel on one pixel, given the channel extremes. */
  function AutoLevelPixel(lo: Rgb, hi: Rgb): Rgb -> Rgb {
    (p: Rgb) => Rgb(LevelChannel(p.r, lo.r, hi.r), LevelChannel(p.g, lo.g, hi.g), LevelChannel(p.b, lo.b, hi.b))
  }

  /** The first loop of canvasAutoLevel: the per-channel minimum and maximum over all pixels. */
  method ChannelExtremes(data: array<int>, ghost n: nat) returns (lo: Rgb, hi: Rgb)
    requires IsBuffer(data[..], n)
    ensures lo == MinColour(data[..], n) && hi == MaxColour(data[..], n)
  {
    ghost var s := data[..];
    var rMin, rMax, gMin, gMax, bMin, bMax := 255, 0, 255, 0, 255, 0;
    var i := 0;
    ghost var p := 0;
    while i < data.Length
      invariant 0 <= p <= n && i == 4 * p
      invariant rMin == ChannelMin(s, 0, p) && rMax == ChannelMax(s, 0, p)
      invariant gMin == ChannelMin(s, 1, p) && gMax == ChannelMax(s, 1, p)
      invariant bMin == ChannelMin(s, 2, p) && bMax == ChannelMax(s, 2, p)
    {
      var r, g, b := data[i], data[i + 1], data[i + 2];
      rMin := IntMin(rMin, r);
      rMax := IntMax(rMax, r);
      gMin := IntMin(gMin, g);
      gMax := IntMax(gMax, g);
      bMin := IntMin(bMin, b);
      bMax := IntMax(bMax, b);
      i := i + 4;
      p := p + 1;
    }
    lo, hi := Rgb(rMin, gMin, bMin), Rgb(rMax, gMax, bMax);
  }

  /**
   * canvasAutoLevel: one pass for the per-channel minimum and maximum,
   * then one pass stretching every channel to [0, 255].
   */
  method CanvasAutoLevel(data: array<int>, width: nat, height: nat)
    requires IsBuffer(data[..], width * height)
    modifies data
    ensures MappedBuffer(data[..], old(data[..]), width * height,
                         AutoLevelPixel(MinColour(old(data[..]), width * height), MaxColour(old(data[..]), width * height)), false)
  {
    var lo, hi := ChannelExtremes(data, width * height);
    MapPixels(data, width * height, AutoLevelPixel(lo, hi), false);
  }

  /** After auto level, channel c of pixel q is LevelChannel of its old value and the channel's extremes. */
  lemma AutoLevelChannel(d: seq<int>, s: seq<int>, n: nat, c: int, q: int)
    requires IsBuffer(s, n) && 0 <= c < 3 && 0 <= q < n
    requires MappedBuffer(d, s, n, AutoLevelPixel(MinColour(s, n), MaxColour(s, n)), false)
    ensures ChannelOf(PixelOf(d, q), c) == LevelChannel(ChannelOf(PixelOf(s, q), c), ChannelMin(s, c, n), ChannelMax(s, c, n))
  {
    PixelBytes(s, n, q);
  }

  /** A channel whose minimum equals its maximum over the image is left unchanged. */
  lemma AutoLevelFlatChannel(d: seq<int>, s: seq<int>, n: nat, c: int, q: int)
    requires IsBuffer(s, n) && 0 <= c < 3 && 0 <= q < n
    requires MappedBuffer(d, s, n, AutoLevelPixel(MinColour(s, n), MaxColour(s, n)), false)
    requires ChannelMin(s, c, n) == ChannelMax(s, c, n)
    ensures ChannelOf(PixelOf(d, q), c) == ChannelOf(PixelOf(s, q), c)
  {
    AutoLevelChannel(d, s, n, c, q);
    PixelBytes(s, n, q);
    StoreOfByte(ChannelOf(PixelOf(s, q), c));
  }

  /**
   * Otherwise every value of the channel is stretched without clamping:
   * the minimum goes to 0 and the maximum to 255.
   */
  lemma AutoLevelStretches(d: seq<int>, s: seq<int>, n: nat, c: int, q: int)
    requires IsBuffer(s, n) && 0 <= c < 3 && 0 <= q < n
    requires MappedBuffer(d, s, n, AutoLevelPixel(MinColour(s, n), MaxColour(s, n)), false)
    requires ChannelMin(s, c, n) != ChannelMax(s, c, n)
    ensures var lo, hi, v := ChannelMin(s, c, n), ChannelMax(s, c, n), ChannelOf(PixelOf(s, q), c);
      var r := ChannelOf(PixelOf(d, q), c);
      r == MathRound(((v - lo) as real / (hi - lo) as real) * 255.0)
      && (v == lo ==> r == 0)
      && (v == hi ==> r == 255)
  {
    var lo, hi, v := ChannelMin(s, c, n), ChannelMax(s, c, n), ChannelOf(PixelOf(s, q), c);
    assert lo <= v <= hi by {
      ChannelBounds(s, c, n, q);
    }
    assert ChannelOf(PixelOf(d, q), c) == LevelChannel(v, lo, hi) by {
      AutoLevelChannel(d, s, n, c, q);
    }
    LevelStretch(v, lo, hi);
  }

  /* ---- gamma ---- */

  /**
   * One entry of the gamma lookup table,
   * `Math.min(255, Math.round(Math.pow(i / 255, 1 / gamma) * 255))`,
   * stored into a Uint8Array (which wraps modulo 256). `pow` stands for
   * Math.pow.
   */
  function GammaEntry(pow: (real, real) -> real, gamma: real, i: int): (e: int)
    requires gamma != 0.0
    ensures IsByte(e)
  {
    Wrap256(IntMin(255, MathRound(pow(i as real / 255.0, 1.0 / gamma) * 255.0)))
  }

  /** For a non-negative power the entry is the rounded, capped value itself. */
  lemma GammaEntryNoWrap(pow: (real, real) -> real, gamma: real, i: int)
    requires gamma != 0.0 && pow(i as real / 255.0, 1.0 / gamma) >= 0.0
    ensures GammaEntry(pow, gamma, i) == IntMin(255, MathRound(pow(i as real / 255.0, 1.0 / gamma) * 255.0))
  {
  }

  /** The 256-entry table; every entry is a byte, so at most 255. */
  function GammaTable(pow: (real, real) -> real, gamma: real): (t: seq<int>)
    requires gamma != 0.0
    ensures |t| == 256 && AllBytes(t)
  {
    seq(256, i requires 0 <= i < 256 => GammaEntry(pow, gamma, i))
  }

  /** With gamma 1 and a power function that fixes x^1, the table is the identity. */
  lemma GammaOneTable(pow: (real, real) -> real, i: int)
    requires forall x :: pow(x, 1.0) == x
    requires 0 <= i < 256
    ensures GammaTable(pow, 1.0)[i] == i
  {
    var x := i as real / 255.0;
    assert pow(x, 1.0 / 1.0) == x;
    assert x * 255.0 == i as real;
    assert MathRound(i as real) == i;
  }

  /** Each R, G, B value v becomes table[v]. */
  function LookupPixel(table: seq<int>): Rgb --> Rgb
    requires |table| == 256
  {
    (p: Rgb) requires IsRgbBytes(p) => Rgb(table[p.r], table[p.g], table[p.b])
  }

  /** The first loop of canvasGammaCorrection: a fresh 256-entry table. */
  method GammaLookup(pow: (real, real) -> real, gamma: real) returns (gammaLookup: array<int>)
    requires gamma != 0.0
    ensures fresh(gammaLookup) && gammaLookup[..] == GammaTable(pow, gamma)
  {
    gammaLookup := new int[256];
    var j := 0;
    while j < 256
      invariant 0 <= j <= 256
      invariant forall m :: 0 <= m < j ==> gammaLookup[m] == GammaEntry(pow, gamma, m)
    {
      gammaLookup[j] := Wrap256(IntMin(255, MathRound(pow(j as real / 255.0, 1.0 / gamma) * 255.0)));
      j := j + 1;
    }
  }

  /** canvasGammaCorrection: build the table, then replace each R, G, B value v by table[v]. */
  method CanvasGammaCorrection(data: array<int>, width: nat, height: nat, pow: (real, real) -> real, gamma: real)
    requires IsBuffer(data[..], width * height) && gamma != 0.0
    modifies data
    ensures MappedBuffer(data[..], old(data[..]), width * height, LookupPixel(GammaTable(pow, gamma)), false)
  {
    var gammaLookup := GammaLookup(pow, gamma);
    MapPixels(data, width * height, LookupPixel(gammaLookup[..]), false);
  }

  /** With gamma 1 and a faithful x^1, gamma correction leaves the image unchanged. */
  lemma GammaOneIsIdentity(d: seq<int>, s: seq<int>, n: nat, pow: (real, real) -> real)
    requires IsBuffer(s, n) && forall x :: pow(x, 1.0) == x
    requires MappedBuffer(d, s, n, LookupPixel(GammaTable(pow, 1.0)), false)
    ensures d == s
  {
    var f := LookupPixel(GammaTable(pow, 1.0));
    forall p | IsRgbBytes(p) ensures f(p) == p {
      GammaOneTable(pow, p.r);
      GammaOneTable(pow, p.g);
      GammaOneTable(pow, p.b);
    }
    MappedBufferIdentity(d, s, n, f, false);
  }

  /* ---- brightness / contrast, RGB scale, HSL ---- */

  /** canvasBrightnessContrast: add brightness, apply the contrast factor, clamp. */
  method CanvasBrightnessContrast(data: array<int>, width: nat, height: nat, brightness: real, contrast: real)
    requires IsBuffer(data[..], width * height)
    modifies data
    ensures MappedBuffer(data[..], old(data[..]), width * height, BrightnessContrastPixel(brightness, Factor(contrast)), false)
  {
    var factor := Factor(contrast);
    MapPixels(data, width * height, BrightnessContrastPixel(brightness, factor), false);
  }

  /** Brightness 0 and contrast 0 leave the image unchanged. */
  lemma BrightnessContrastNeutral(d: seq<int>, s: seq<int>, n: nat)
    requires IsBuffer(s, n)
    requires MappedBuffer(d, s, n, BrightnessContrastPixel(0.0, Factor(0.0)), false)
    ensures d == s
  {
    var f := BrightnessContrastPixel(0.0, Factor(0.0));
    forall p | IsRgbBytes(p) ensures f(p) == p {
      BrightnessContrastIdentity(p.r);
      BrightnessContrastIdentity(p.g);
      BrightnessContrastIdentity(p.b);
    }
    MappedBufferIdentity(d, s, n, f, false);
  }

  /** canvasRGBAdjustment: each channel times its own scale, clamped. */
  method CanvasRgbAdjustment(data: array<int>, width: nat, height: nat, redScale: real, greenScale: real, blueScale: real)
    requires IsBuffer(data[..], width * height)
    modifies data
    ensures MappedBuffer(data[..], old(data[..]), width * height, ScalePixel(redScale, greenScale, blueScale), false)
  {
    MapPixels(data, width * height, ScalePixel(redScale, greenScale, blueScale), false);
  }

  /** Scales 1, 1, 1 leave the image unchanged. */
  lemma RgbScaleNeutral(d: seq<int>, s: seq<int>, n: nat)
    requires IsBuffer(s, n)
    requires MappedBuffer(d, s, n, ScalePixel(1.0, 1.0, 1.0), false)
    ensures d == s
  {
    var f := ScalePixel(1.0, 1.0, 1.0);
    forall p | IsRgbBytes(p) ensures f(p) == p {
      ScaleByOne(p.r);
      ScaleByOne(p.g);
      ScaleByOne(p.b);
    }
    MappedBufferIdentity(d, s, n, f, false);
  }

  /** canvasHSLAdjustment: convert to HSL, shift and scale, convert back, round. */
  method CanvasHslAdjustment(data: array<int>, width: nat, height: nat, hue: real, saturation: real, lightness: real)
    requires IsBuffer(data[..], width * height)
    modifies data
    ensures MappedBuffer(data[..], old(data[..]), width * height, Hsl.CanvasHslPixel(hue, saturation, lightness), false)
  {
    MapPixels(data, width * height, Hsl.CanvasHslPixel(hue, saturation, lightness), false);
  }

  /* ---- sharpen ---- */

  /** canvasSharpen: nothing for amount <= 0, else the kernel with strength min(amount, 2). */
  method CanvasSharpen(data: array<int>, width: nat, height: nat, amount: real)
    requires IsBuffer(data[..], width * height)
    modifies data
    ensures amount <= 0.0 ==> data[..] == old(data[..])
    ensures amount > 0.0 ==> SharpenedBuffer(data[..], old(data[..]), width, height, RealMin(amount, 2.0), false)
  {
    if amount <= 0.0 {
      return;
    }
    var tempData := new int[data.Length](i requires 0 <= i < data.Length reads data => data[i]);
    assert tempData[..] == data[..];
    var strength := RealMin(amount, 2.0);
    Convolve(data, tempData, width, height, strength, false);
  }

  /* ---- the Canvas pipeline of processImage ---- */

  /** The adjustment fields processImage reads. */
  datatype Adjustments = Adjustments(
    autoLevel: bool, autoGamma: bool,
    brightness: real, contrast: real,
    hue: real, saturation: real, lightness: real,
    redScale: real, greenScale: real, blueScale: real,
    sharpen: real)

  /** Every byte of the buffer is a byte and every alpha byte is as it was in `s`. */
  ghost predicate AlphaKept(d: seq<int>, s: seq<int>, n: nat) {
    IsBuffer(d, n) && |s| == |d| && forall k :: 0 <= k < |s| && k % 4 == 3 ==> d[k] == s[k]
  }

  /**
   * The Canvas branch of processImage, in its order: auto level (if on),
   * gamma 1.1 (if on), brightness/contrast, HSL, RGB scale, sharpen (if
   * the amount is positive). Whatever the adjustments, the buffer stays a
   * byte buffer and no alpha byte changes.
   */
  method CanvasPipeline(data: array<int>, width: nat, height: nat, adjustments: Adjustments, pow: (real, real) -> real)
    requires IsBuffer(data[..], width * height)
    modifies data
    ensures AlphaKept(data[..], old(data[..]), width * height)
  {
    ghost var n := width * height;
    ghost var s := data[..];
    ghost var before := data[..];
    if adjustments.autoLevel {
      CanvasAutoLevel(data, width, height);
      MappedStep(data[..], before, s, n, AutoLevelPixel(MinColour(before, n), MaxColour(before, n)));
    }
    before := data[..];
    if adjustments.autoGamma {
      CanvasGammaCorrection(data, width, height, pow, 1.1);
      MappedStep(data[..], before, s, n, LookupPixel(GammaTable(pow, 1.1)));
    }
    before := data[..];
    CanvasBrightnessContrast(data, width, height, adjustments.brightness, adjustments.contrast);
    MappedStep(data[..], before, s, n, BrightnessContrastPixel(adjustments.brightness, Factor(adjustments.contrast)));
    before := data[..];
    CanvasHslAdjustment(data, width, height, adjustments.hue, adjustments.saturation, adjustments.lightness);
    MappedStep(data[..], before, s, n, Hsl.CanvasHslPixel(adjustments.hue, adjustments.saturation, adjustments.lightness));
    before := data[..];
    CanvasRgbAdjustment(data, width, height, adjustments.redScale, adjustments.greenScale, adjustments.blueScale);
    MappedStep(data[..], before, s, n, ScalePixel(adjustments.redScale, adjustments.greenScale, adjustments.blueScale));
    before := data[..];
    if adjustments.sharpen > 0.0 {
      CanvasSharpen(data, width, height, adjustments.sharpen);
      SharpenedBufferBytes(data[..], before, width, height, RealMin(adjustments.sharpen, 2.0), false);
      SharpenedBufferKeepsAlpha(data[..], before, width, height, RealMin(adjustments.sharpen, 2.0), false);
    }
  }

  /** A per-pixel filter whose colour map yields bytes extends AlphaKept by one step. */
  lemma MappedStep(d: seq<int>, before: seq<int>, s: seq<int>, n: nat, f: Rgb --> Rgb)
    requires AlphaKept(before, s, n) && AcceptsBytes(f)
    requires forall p :: IsRgbBytes(p) ==> IsRgbBytes(f(p))
    requires MappedBuffer(d, before, n, f, false)
    ensures AlphaKept(d, s, n)
  {
    MappedBufferBytes(d, before, n, f, false);
    MappedBufferKeepsAlpha(d, before, n, f, false);
  }
}
