/**
 * The per-pixel filters of the Canvas fallback path and their test-suite
 * variants. A filter walks an RGBA byte buffer four bytes at a time and
 * rewrites the R, G and B bytes of each pixel from that pixel's own old
 * R, G, B values; `MappedBuffer` states that write pattern pixel by pixel
 * through the view `PixelOf`, and the per-channel formulas below are what
 * gets written.
 */
module Filters {
  import opened Bytes

  datatype Rgb = Rgb(r: int, g: int, b: int)

  predicate IsRgbBytes(p: Rgb) { IsByte(p.r) && IsByte(p.g) && IsByte(p.b) }

  function Channel(p: Rgb, c: int): int {
    if c == 0 then p.r else if c == 1 then p.g else p.b
  }

  /** One RGBA pixel: four consecutive bytes of the buffer. */
  datatype Rgba = Rgba(r: int, g: int, b: int, a: int)

  predicate IsRgbaBytes(p: Rgba) { IsByte(p.r) && IsByte(p.g) && IsByte(p.b) && IsByte(p.a) }

  function ColourOf(p: Rgba): Rgb { Rgb(p.r, p.g, p.b) }

  /** The buffer of an image of n pixels: 4 n bytes. */
  predicate IsBuffer(s: seq<int>, n: nat) { |s| == 4 * n && AllBytes(s) }

  /** Pixel q of a buffer: bytes 4q (R), 4q + 1 (G), 4q + 2 (B), 4q + 3 (A). */
  function PixelOf(s: seq<int>, q: int): Rgba
    requires 0 <= q && 4 * q + 4 <= |s|
  {
    Rgba(s[4 * q], s[4 * q + 1], s[4 * q + 2], s[4 * q + 3])
  }

  /** Every pixel of a byte buffer is a byte pixel. */
  lemma PixelBytes(s: seq<int>, n: nat, q: int)
    requires IsBuffer(s, n) && 0 <= q < n
    ensures IsRgbaBytes(PixelOf(s, q))
  {
  }

  /** Byte k of a buffer is channel k % 4 of pixel k / 4. */
  lemma ByteOfPixel(s: seq<int>, k: int)
    requires 0 <= k < |s| && |s| % 4 == 0
    ensures 0 <= k / 4 && 4 * (k / 4) + 4 <= |s|
    ensures s[k] == ChannelOf(PixelOf(s, k / 4), k % 4)
  {
  }

  function ChannelOf(p: Rgba, c: int): int {
    if c == 0 then p.r else if c == 1 then p.g else if c == 2 then p.b else p.a
  }

  /** The colour map `f` accepts every byte colour. */
  ghost predicate AcceptsBytes(f: Rgb --> Rgb) {
    forall p :: IsRgbBytes(p) ==> f.requires(p)
  }

  /**
   * One pixel after a per-pixel filter: R, G, B become `f` of the old
   * R, G, B; the alpha byte is never written; with `skipTransparent` a
   * pixel whose alpha is 0 is left exactly as it was.
   */
  function MapPixel(px: Rgba, f: Rgb --> Rgb, skipTransparent: bool): (r: Rgba)
    requires IsRgbaBytes(px) && AcceptsBytes(f)
    ensures r.a == px.a
    ensures skipTransparent && px.a == 0 ==> r == px
    ensures !(skipTransparent && px.a == 0) ==> ColourOf(r) == f(ColourOf(px))
  {
    if skipTransparent && px.a == 0 then px
    else
      var q := f(ColourOf(px));
      Rgba(q.r, q.g, q.b, px.a)
  }

  /** `d` is the n-pixel buffer `s` after mapping every pixel. */
  ghost predicate MappedBuffer(d: seq<int>, s: seq<int>, n: nat, f: Rgb --> Rgb, skipTransparent: bool)
    requires IsBuffer(s, n) && AcceptsBytes(f)
  {
    |d| == |s| && forall q :: 0 <= q < n ==> PixelOf(d, q) == MapPixel(PixelOf(s, q), f, skipTransparent)
  }

  /**
   * The loop every per-pixel filter runs, `for (i = 0; i < data.length;
   * i += 4)`, reading R, G, B (and A) at i and writing back R, G, B.
   */
  method MapPixels(data: array<int>, ghost n: nat, f: Rgb --> Rgb, skipTransparent: bool)
    requires IsBuffer(data[..], n) && AcceptsBytes(f)
    modifies data
    ensures MappedBuffer(data[..], old(data[..]), n, f, skipTransparent)
  {
    ghost var s := data[..];
    var i := 0;
    ghost var p := 0;
    while i < data.Length
      invariant 0 <= p <= n && i == 4 * p
      invariant forall q :: 0 <= q < p ==> PixelOf(data[..], q) == MapPixel(PixelOf(s, q), f, skipTransparent)
      invariant forall q :: p <= q < n ==> PixelOf(data[..], q) == PixelOf(s, q)
    {
      ghost var before := data[..];
      PixelBytes(s, n, p);
      assert PixelOf(before, p) == PixelOf(s, p);
      if !(skipTransparent && data[i + 3] == 0) {
        var c := f(Rgb(data[i], data[i + 1], data[i + 2]));
        data[i] := c.r;
        data[i + 1] := c.g;
        data[i + 2] := c.b;
      }
      assert PixelOf(data[..], p) == MapPixel(PixelOf(s, p), f, skipTransparent);
      forall q | 0 <= q < n && q != p ensures PixelOf(data[..], q) == PixelOf(before, q) {
        assert 4 * q + 3 < 4 * p || 4 * p + 3 < 4 * q;
      }
      i := i + 4;
      p := p + 1;
    }
  }

  /** A mapped buffer is determined by the old buffer: the relation is a function. */
  lemma MappedBufferUnique(d1: seq<int>, d2: seq<int>, s: seq<int>, n: nat, f: Rgb --> Rgb, skipTransparent: bool)
    requires IsBuffer(s, n) && AcceptsBytes(f)
    requires MappedBuffer(d1, s, n, f, skipTransparent) && MappedBuffer(d2, s, n, f, skipTransparent)
    ensures d1 == d2
  {
    forall k | 0 <= k < |d1| ensures d1[k] == d2[k] {
      ByteOfPixel(d1, k);
      ByteOfPixel(d2, k);
    }
  }

  /** No mapped filter writes an alpha byte (offset 3 of every pixel). */
  lemma MappedBufferKeepsAlpha(d: seq<int>, s: seq<int>, n: nat, f: Rgb --> Rgb, skipTransparent: bool)
    requires IsBuffer(s, n) && AcceptsBytes(f)
    requires MappedBuffer(d, s, n, f, skipTransparent)
    ensures forall k :: 0 <= k < |s| && k % 4 == 3 ==> d[k] == s[k]
  {
    forall k | 0 <= k < |s| && k % 4 == 3 ensures d[k] == s[k] {
      ByteOfPixel(d, k);
      ByteOfPixel(s, k);
    }
  }

  /** With skipTransparent, a pixel whose alpha is 0 keeps all four bytes. */
  lemma MappedBufferSkipsTransparent(d: seq<int>, s: seq<int>, n: nat, f: Rgb --> Rgb)
    requires IsBuffer(s, n) && AcceptsBytes(f)
    requires MappedBuffer(d, s, n, f, true)
    ensures forall q :: 0 <= q < n && PixelOf(s, q).a == 0 ==> PixelOf(d, q) == PixelOf(s, q)
  {
  }

  /** Every other pixel gets the colour `f` gives for its old colour. */
  lemma MappedBufferWrites(d: seq<int>, s: seq<int>, n: nat, f: Rgb --> Rgb, skipTransparent: bool, q: int)
    requires IsBuffer(s, n) && AcceptsBytes(f)
    requires MappedBuffer(d, s, n, f, skipTransparent)
    requires 0 <= q < n && !(skipTransparent && PixelOf(s, q).a == 0)
    ensures IsRgbBytes(ColourOf(PixelOf(s, q)))
    ensures ColourOf(PixelOf(d, q)) == f(ColourOf(PixelOf(s, q)))
  {
    PixelBytes(s, n, q);
  }

  /** A colour map that yields bytes keeps a byte buffer a byte buffer. */
  lemma MappedBufferBytes(d: seq<int>, s: seq<int>, n: nat, f: Rgb --> Rgb, skipTransparent: bool)
    requires IsBuffer(s, n) && AcceptsBytes(f)
    requires forall p :: IsRgbBytes(p) ==> IsRgbBytes(f(p))
    requires MappedBuffer(d, s, n, f, skipTransparent)
    ensures IsBuffer(d, n)
  {
    forall k | 0 <= k < |d| ensures IsByte(d[k]) {
      ByteOfPixel(d, k);
      PixelBytes(s, n, k / 4);
    }
  }

  /** A colour map that fixes every byte colour leaves the buffer as it was. */
  lemma MappedBufferIdentity(d: seq<int>, s: seq<int>, n: nat, f: Rgb --> Rgb, skipTransparent: bool)
    requires IsBuffer(s, n) && AcceptsBytes(f)
    requires forall p :: IsRgbBytes(p) ==> f(p) == p
    requires MappedBuffer(d, s, n, f, skipTransparent)
    ensures d == s
  {
    forall k | 0 <= k < |s| ensures d[k] == s[k] {
      ByteOfPixel(d, k);
      ByteOfPixel(s, k);
      PixelBytes(s, n, k / 4);
    }
  }

  /* ---- brightness and contrast ---- */

  /**
   * The contrast factor 259 (c + 255) / (255 (259 - c)). At c = 259 the
   * division is by zero and JavaScript yields +Infinity.
   */
  datatype ContrastFactor = Finite(f: real) | PositiveInfinity

  function Factor(contrast: real): (r: ContrastFactor)
    ensures r.PositiveInfinity? <==> contrast == 259.0
    ensures contrast < 259.0 ==> (r.f >= 0.0 <==> contrast >= -255.0)
  {
    if contrast == 259.0 then PositiveInfinity
    else Finite((259.0 * (contrast + 255.0)) / (255.0 * (259.0 - contrast)))
  }

  /** Contrast 0 gives the neutral factor 1. */
  lemma FactorOfZero()
    ensures Factor(0.0) == Finite(1.0)
  {
    assert (259.0 * (0.0 + 255.0)) / (255.0 * (259.0 - 0.0)) == 1.0;
  }

  /** `factor * (v - 128) + 128` for a finite factor. */
  function Contrasted(f: real, v: int): real {
    f * (v - 128) as real + 128.0
  }

  /**
   * `factor * (v - 128) + 128` stored into a clamped byte. An infinite
   * factor sends values above 128 to +Infinity (255), values below to
   * -Infinity (0), and 128 itself to Infinity * 0 = NaN, which stores as 0.
   */
  function ContrastStore(factor: ContrastFactor, v: int): (r: int)
    ensures IsByte(r)
  {
    match factor
    case Finite(f) => Store(Contrasted(f, v))
    case PositiveInfinity => if v > 128 then 255 else 0
  }

  /** One channel after `+= brightness`, the contrast store and the final clamp. */
  function BrightnessContrastChannel(v: int, brightness: real, factor: ContrastFactor): (r: int)
    ensures IsByte(r)
  {
    var brightened := Store(v as real + brightness);
    var contrasted := ContrastStore(factor, brightened);
    Store(Clamp255(contrasted as real))
  }

  function BrightnessContrastPixel(brightness: real, factor: ContrastFactor): Rgb -> Rgb {
    (p: Rgb) => Rgb(BrightnessContrastChannel(p.r, brightness, factor),
             BrightnessContrastChannel(p.g, brightness, factor),
             BrightnessContrastChannel(p.b, brightness, factor))
  }

  /** With contrast 0 a channel just gets the brightness added and clamped. */
  lemma ContrastZeroAddsBrightness(v: int, brightness: int)
    requires IsByte(v)
    ensures BrightnessContrastChannel(v, brightness as real, Factor(0.0))
         == if v + brightness < 0 then 0 else if v + brightness > 255 then 255 else v + brightness
  {
    FactorOfZero();
    var t := Store((v + brightness) as real);
    if 0 <= v + brightness <= 255 {
      StoreOfByte(v + brightness);
    }
    assert Contrasted(1.0, t) == t as real;
    StoreOfByte(t);
  }

  /** Brightness 0 and contrast 0 leave every byte as it is. */
  lemma BrightnessContrastIdentity(v: int)
    requires IsByte(v)
    ensures BrightnessContrastChannel(v, 0.0, Factor(0.0)) == v
  {
    ContrastZeroAddsBrightness(v, 0);
  }

  /** The last `Math.max(0, Math.min(255, ...))` never changes a stored value. */
  lemma FinalClampIsRedundant(v: int, brightness: real, factor: ContrastFactor)
    ensures BrightnessContrastChannel(v, brightness, factor)
         == ContrastStore(factor, Store(v as real + brightness))
  {
    StoreOfByte(ContrastStore(factor, Store(v as real + brightness)));
  }

  /* ---- per-channel scaling ---- */

  function ScaleChannel(v: int, scale: real): (r: int)
    ensures IsByte(r)
  {
    Store(Clamp255(v as real * scale))
  }

  function ScalePixel(red: real, green: real, blue: real): Rgb -> Rgb {
    (p: Rgb) => Rgb(ScaleChannel(p.r, red), ScaleChannel(p.g, green), ScaleChannel(p.b, blue))
  }

  /** A scale of 1 leaves a byte as it is. */
  lemma ScaleByOne(v: int)
    requires IsByte(v)
    ensures ScaleChannel(v, 1.0) == v
  {
    StoreOfByte(v);
  }

  /** An integral scaled value within range is stored exactly. */
  lemma ScaleExact(v: int, scale: real, result: int)
    requires v as real * scale == result as real && IsByte(result)
    ensures ScaleChannel(v, scale) == result
  {
    StoreOfByte(result);
  }
}
