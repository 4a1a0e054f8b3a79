/**
 * The 3x3 sharpen convolution shared by the Canvas filter and its
 * test-suite variant. The kernel is
 *
 *      0   -s    0
 *     -s  1+4s  -s
 *      0   -s    0
 *
 * It is applied to the R, G and B bytes of every interior pixel (not in
 * the first or last row or column), reading neighbours from a snapshot of
 * the buffer taken before any write, and the sum is clamped to [0, 255].
 * Pixels are addressed by column x and row y: pixel y * width + x.
 */
module Convolution {
  import opened Bytes
  import opened Filters

  /** Pixel (x, y) of a width x height image is pixel y * width + x of its buffer. */
  lemma PixelInImage(width: nat, height: nat, x: int, y: int)
    requires 0 <= x < width && 0 <= y < height
    ensures 0 <= y * width + x && 4 * (y * width + x) + 4 <= 4 * (width * height)
  {
    MulMono(y + 1, height, width);
    assert (y + 1) * width == y * width + width;
  }

  /** Distinct coordinates are distinct pixels. */
  lemma PixelIndexInjective(width: nat, x: int, y: int, x': int, y': int)
    requires 0 <= x < width && 0 <= x' < width && 0 <= y && 0 <= y'
    requires y * width + x == y' * width + x'
    ensures x == x' && y == y'
  {
    RowMajorDecode(y, x, width);
    RowMajorDecode(y', x', width);
  }

  /** The pixel in column x of row y. */
  function PixelXY(s: seq<int>, width: nat, height: nat, x: int, y: int): Rgba
    requires |s| == 4 * (width * height) && 0 <= x < width && 0 <= y < height
  {
    PixelInImage(width, height, x, y);
    PixelOf(s, y * width + x)
  }

  /** Not in the first or last row or column. */
  predicate InteriorPixel(width: nat, height: nat, x: int, y: int) {
    1 <= x < width - 1 && 1 <= y < height - 1
  }

  /** Channel c of the neighbour (x + kx, y + ky) of an interior pixel. */
  function Tap(s: seq<int>, width: nat, height: nat, x: int, y: int, c: int, ky: int, kx: int): int
    requires |s| == 4 * (width * height) && InteriorPixel(width, height, x, y)
    requires -1 <= ky <= 1 && -1 <= kx <= 1
  {
    ChannelOf(PixelXY(s, width, height, x + kx, y + ky), c)
  }

  /** The tap is the byte at `((y + ky) * width + (x + kx)) * 4 + c`. */
  lemma TapAt(s: seq<int>, width: nat, height: nat, x: int, y: int, c: int, ky: int, kx: int)
    requires |s| == 4 * (width * height) && InteriorPixel(width, height, x, y)
    requires -1 <= ky <= 1 && -1 <= kx <= 1 && 0 <= c < 4
    ensures 0 <= ((y + ky) * width + (x + kx)) * 4 + c < |s|
    ensures s[((y + ky) * width + (x + kx)) * 4 + c] == Tap(s, width, height, x, y, c, ky, kx)
  {
    PixelInImage(width, height, x + kx, y + ky);
  }

  /** Kernel entry (ky + 1) * 3 + (kx + 1). */
  function KernelWeight(strength: real, ky: int, kx: int): real {
    if ky == 0 && kx == 0 then 1.0 + 4.0 * strength
    else if ky == 0 || kx == 0 then -strength
    else 0.0
  }

  function Kernel(strength: real): seq<real> {
    [0.0, -strength, 0.0,
     -strength, 1.0 + 4.0 * strength, -strength,
     0.0, -strength, 0.0]
  }

  lemma KernelAt(strength: real, ky: int, kx: int)
    requires -1 <= ky <= 1 && -1 <= kx <= 1
    ensures 0 <= (ky + 1) * 3 + (kx + 1) < 9
    ensures Kernel(strength)[(ky + 1) * 3 + (kx + 1)] == KernelWeight(strength, ky, kx)
  {
  }

  /**
   * Channel c of the 3x3 neighbourhood of (x, y), in the loops' order:
   * entry (ky + 1) * 3 + (kx + 1) is the neighbour (x + kx, y + ky).
   */
  function Window(s: seq<int>, width: nat, height: nat, x: int, y: int, c: int): (w: seq<int>)
    requires |s| == 4 * (width * height) && InteriorPixel(width, height, x, y)
    ensures |w| == 9
  {
    WindowPrefix(s, width, height, x, y, c, 9)
  }

  /** The first n entries of the window. */
  function WindowPrefix(s: seq<int>, width: nat, height: nat, x: int, y: int, c: int, n: nat): (w: seq<int>)
    requires |s| == 4 * (width * height) && InteriorPixel(width, height, x, y) && n <= 9
    ensures |w| == n
  {
    if n == 0 then []
    else WindowPrefix(s, width, height, x, y, c, n - 1) + [Tap(s, width, height, x, y, c, (n - 1) / 3 - 1, (n - 1) % 3 - 1)]
  }

  lemma {:induction false} WindowPrefixAt(s: seq<int>, width: nat, height: nat, x: int, y: int, c: int, n: nat, i: int)
    requires |s| == 4 * (width * height) && InteriorPixel(width, height, x, y) && n <= 9 && 0 <= i < n
    ensures WindowPrefix(s, width, height, x, y, c, n)[i] == Tap(s, width, height, x, y, c, i / 3 - 1, i % 3 - 1)
  {
    if i < n - 1 {
      WindowPrefixAt(s, width, height, x, y, c, n - 1, i);
    }
  }

  /** The byte the loops read for (ky, kx) is the window entry (ky + 1) * 3 + (kx + 1). */
  lemma WindowAt(s: seq<int>, width: nat, height: nat, x: int, y: int, c: int, ky: int, kx: int)
    requires |s| == 4 * (width * height) && InteriorPixel(width, height, x, y)
    requires -1 <= ky <= 1 && -1 <= kx <= 1 && 0 <= c < 4
    ensures 0 <= ((y + ky) * width + (x + kx)) * 4 + c < |s|
    ensures 0 <= (ky + 1) * 3 + (kx + 1) < 9
    ensures s[((y + ky) * width + (x + kx)) * 4 + c] == Window(s, width, height, x, y, c)[(ky + 1) * 3 + (kx + 1)]
  {
    TapAt(s, width, height, x, y, c, ky, kx);
    var i := (ky + 1) * 3 + (kx + 1);
    WindowPrefixAt(s, width, height, x, y, c, 9, i);
    assert i / 3 - 1 == ky && i % 3 - 1 == kx;
  }

  /** The nine kernel products, in the loops' order. */
  function Products(w: seq<int>, strength: real): (p: seq<real>)
    requires |w| == 9
    ensures |p| == 9
  {
    ProductPrefix(w, strength, 9)
  }

  function ProductPrefix(w: seq<int>, strength: real, n: nat): (p: seq<real>)
    requires |w| == 9 && n <= 9
    ensures |p| == n
  {
    if n == 0 then []
    else ProductPrefix(w, strength, n - 1) + [w[n - 1] as real * KernelWeight(strength, (n - 1) / 3 - 1, (n - 1) % 3 - 1)]
  }

  lemma {:induction false} ProductPrefixAt(w: seq<int>, strength: real, n: nat, i: int)
    requires |w| == 9 && n <= 9 && 0 <= i < n
    ensures ProductPrefix(w, strength, n)[i] == w[i] as real * KernelWeight(strength, i / 3 - 1, i % 3 - 1)
  {
    if i < n - 1 {
      ProductPrefixAt(w, strength, n - 1, i);
    }
  }

  lemma ProductAt(w: seq<int>, strength: real, ky: int, kx: int)
    requires |w| == 9 && -1 <= ky <= 1 && -1 <= kx <= 1
    ensures Products(w, strength)[(ky + 1) * 3 + (kx + 1)] == w[(ky + 1) * 3 + (kx + 1)] as real * KernelWeight(strength, ky, kx)
  {
    var i := (ky + 1) * 3 + (kx + 1);
    ProductPrefixAt(w, strength, 9, i);
    assert i / 3 - 1 == ky && i % 3 - 1 == kx;
  }

  /** The products of row ky for the columns before kx. */
  function RowPartial(p: seq<real>, ky: int, kx: int): real
    requires |p| == 9 && -1 <= ky <= 1 && -1 <= kx <= 2
    decreases kx + 1
  {
    if kx == -1 then 0.0 else RowPartial(p, ky, kx - 1) + p[(ky + 1) * 3 + kx]
  }

  /** The products of the rows before ky. */
  function RowsPartial(p: seq<real>, ky: int): real
    requires |p| == 9 && -1 <= ky <= 2
    decreases ky + 1
  {
    if ky == -1 then 0.0 else RowsPartial(p, ky - 1) + RowPartial(p, ky - 1, 2)
  }

  /**
   * What the kernel computes: the centre weighted by 1 + 4s minus s times
   * each of the four edge neighbours; the corners carry weight 0.
   */
  function SharpenSum(s: seq<int>, width: nat, height: nat, x: int, y: int, c: int, strength: real): real
    requires |s| == 4 * (width * height) && InteriorPixel(width, height, x, y)
  {
    (1.0 + 4.0 * strength) * Tap(s, width, height, x, y, c, 0, 0) as real
      - strength * (Tap(s, width, height, x, y, c, -1, 0) + Tap(s, width, height, x, y, c, 0, -1)
                    + Tap(s, width, height, x, y, c, 0, 1) + Tap(s, width, height, x, y, c, 1, 0)) as real
  }

  /** The nine products add up to the centre times 1 + 4s minus s times the four edge entries. */
  lemma ProductsTotal(w: seq<int>, strength: real)
    requires |w| == 9
    ensures RowsPartial(Products(w, strength), 2)
         == (1.0 + 4.0 * strength) * w[4] as real - strength * (w[1] + w[3] + w[5] + w[7]) as real
  {
    var p := Products(w, strength);
    ProductPrefixAt(w, strength, 9, 0);
    ProductPrefixAt(w, strength, 9, 1);
    ProductPrefixAt(w, strength, 9, 2);
    ProductPrefixAt(w, strength, 9, 3);
    ProductPrefixAt(w, strength, 9, 4);
    ProductPrefixAt(w, strength, 9, 5);
    ProductPrefixAt(w, strength, 9, 6);
    ProductPrefixAt(w, strength, 9, 7);
    ProductPrefixAt(w, strength, 9, 8);
    assert RowsPartial(p, 2) == p[0] + p[1] + p[2] + p[3] + p[4] + p[5] + p[6] + p[7] + p[8];
  }

  /** The window's edge and centre entries are the four edge neighbours and the pixel itself. */
  lemma WindowTaps(s: seq<int>, width: nat, height: nat, x: int, y: int, c: int)
    requires |s| == 4 * (width * height) && InteriorPixel(width, height, x, y)
    ensures var w := Window(s, width, height, x, y, c);
      w[1] == Tap(s, width, height, x, y, c, -1, 0) && w[3] == Tap(s, width, height, x, y, c, 0, -1)
      && w[4] == Tap(s, width, height, x, y, c, 0, 0) && w[5] == Tap(s, width, height, x, y, c, 0, 1)
      && w[7] == Tap(s, width, height, x, y, c, 1, 0)
  {
    WindowPrefixAt(s, width, height, x, y, c, 9, 1);
    WindowPrefixAt(s, width, height, x, y, c, 9, 3);
    WindowPrefixAt(s, width, height, x, y, c, 9, 4);
    WindowPrefixAt(s, width, height, x, y, c, 9, 5);
    WindowPrefixAt(s, width, height, x, y, c, 9, 7);
  }

  /** All nine products, in the loops' order, add up to SharpenSum. */
  lemma KernelComplete(s: seq<int>, width: nat, height: nat, x: int, y: int, c: int, strength: real)
    requires |s| == 4 * (width * height) && InteriorPixel(width, height, x, y)
    ensures RowsPartial(Products(Window(s, width, height, x, y, c), strength), 2) == SharpenSum(s, width, height, x, y, c, strength)
  {
    ProductsTotal(Window(s, width, height, x, y, c), strength);
    WindowTaps(s, width, height, x, y, c);
  }

  /**
   * The nested `ky`/`kx` loops accumulating `sum`, reading from the
   * snapshot `temp`.
   */
  method KernelSum(temp: array<int>, width: nat, height: nat, x: int, y: int, c: int, strength: real) returns (sum: real)
    requires temp.Length == 4 * (width * height) && InteriorPixel(width, height, x, y) && 0 <= c < 3
    ensures sum == SharpenSum(temp[..], width, height, x, y, c, strength)
  {
    ghost var p := Products(Window(temp[..], width, height, x, y, c), strength);
    var kernel := [0.0, -strength, 0.0, -strength, 1.0 + 4.0 * strength, -strength, 0.0, -strength, 0.0];
    sum := 0.0;
    var ky := -1;
    while ky <= 1
      invariant -1 <= ky <= 2
      invariant sum == RowsPartial(p, ky)
    {
      var kx := -1;
      while kx <= 1
        invariant -1 <= kx <= 2
        invariant sum == RowsPartial(p, ky) + RowPartial(p, ky, kx)
      {
        var product := TapProduct(temp, kernel, width, height, x, y, c, strength, ky, kx);
        sum := sum + product;
        kx := kx + 1;
      }
      ky := ky + 1;
    }
    KernelComplete(temp[..], width, height, x, y, c, strength);
  }

  /**
   * One step of the inner loop: `tempData[pixelPos] * kernel[kernelIndex]`
   * for the neighbour (x + kx, y + ky).
   */
  method TapProduct(temp: array<int>, kernel: seq<real>, width: nat, height: nat, x: int, y: int, c: int, strength: real, ky: int, kx: int)
    returns (product: real)
    requires temp.Length == 4 * (width * height) && InteriorPixel(width, height, x, y) && 0 <= c < 3
    requires kernel == Kernel(strength) && -1 <= ky <= 1 && -1 <= kx <= 1
    ensures product == Products(Window(temp[..], width, height, x, y, c), strength)[(ky + 1) * 3 + (kx + 1)]
  {
    var kernelIndex := (ky + 1) * 3 + (kx + 1);
    var pixelPos := ((y + ky) * width + (x + kx)) * 4 + c;
    WindowAt(temp[..], width, height, x, y, c, ky, kx);
    KernelAt(strength, ky, kx);
    ProductAt(Window(temp[..], width, height, x, y, c), strength, ky, kx);
    product := temp[pixelPos] as real * kernel[kernelIndex];
  }

  /** `Math.min(255, Math.max(0, sum))` stored into a clamped byte. */
  function ClampedSum(sum: real): (r: int)
    ensures IsByte(r)
    ensures 0.0 <= sum <= 255.0 && sum == sum.Floor as real ==> r == sum.Floor
  {
    ClampedSumOfWhole(sum);
    Store(RealMin(255.0, RealMax(0.0, sum)))
  }

  lemma ClampedSumOfWhole(sum: real)
    ensures 0.0 <= sum <= 255.0 && sum == sum.Floor as real ==> Store(RealMin(255.0, RealMax(0.0, sum))) == sum.Floor
  {
    if 0.0 <= sum <= 255.0 && sum == sum.Floor as real {
      StoreOfByte(sum.Floor);
    }
  }

  /**
   * Pixel (x, y) after sharpening the old buffer `s`: an interior pixel
   * that is not skipped gets the clamped kernel sums over `s` in R, G
   * and B and keeps its alpha; every other pixel is unchanged.
   */
  function SharpenedPixel(s: seq<int>, width: nat, height: nat, strength: real, skipTransparent: bool, x: int, y: int): (r: Rgba)
    requires IsBuffer(s, width * height) && 0 <= x < width && 0 <= y < height
    ensures r.a == PixelXY(s, width, height, x, y).a
    ensures !InteriorPixel(width, height, x, y) ==> r == PixelXY(s, width, height, x, y)
    ensures skipTransparent && PixelXY(s, width, height, x, y).a == 0 ==> r == PixelXY(s, width, height, x, y)
    ensures IsRgbaBytes(r)
  {
    var px := PixelXY(s, width, height, x, y);
    PixelInImage(width, height, x, y);
    PixelBytes(s, width * height, y * width + x);
    if InteriorPixel(width, height, x, y) && !(skipTransparent && px.a == 0) then
      Rgba(ClampedSum(SharpenSum(s, width, height, x, y, 0, strength)),
           ClampedSum(SharpenSum(s, width, height, x, y, 1, strength)),
           ClampedSum(SharpenSum(s, width, height, x, y, 2, strength)),
           px.a)
    else px
  }

  /** `d` is the buffer `s` sharpened: every pixel as SharpenedPixel says. */
  ghost predicate SharpenedBuffer(d: seq<int>, s: seq<int>, width: nat, height: nat, strength: real, skipTransparent: bool)
    requires IsBuffer(s, width * height)
  {
    |d| == |s|
    && forall x, y :: 0 <= x < width && 0 <= y < height ==>
         PixelXY(d, width, height, x, y) == SharpenedPixel(s, width, height, strength, skipTransparent, x, y)
  }

  /** Every byte of an image belongs to some pixel (x, y). */
  lemma ByteOfXY(s: seq<int>, width: nat, height: nat, k: int) returns (x: int, y: int)
    requires |s| == 4 * (width * height) && 0 <= k < |s|
    ensures 0 <= x < width && 0 <= y < height && y * width + x == k / 4
    ensures s[k] == ChannelOf(PixelXY(s, width, height, x, y), k % 4)
  {
    ByteOfPixel(s, k);
    var q := k / 4;
    x, y := q % width, q / width;
    RowBelow(q, height, width);
    assert y * width + x == q;
  }

  /** The sharpened buffer is determined by the old one. */
  lemma SharpenedBufferUnique(d1: seq<int>, d2: seq<int>, s: seq<int>, width: nat, height: nat, strength: real, skipTransparent: bool)
    requires IsBuffer(s, width * height)
    requires SharpenedBuffer(d1, s, width, height, strength, skipTransparent)
    requires SharpenedBuffer(d2, s, width, height, strength, skipTransparent)
    ensures d1 == d2
  {
    forall k | 0 <= k < |d1| ensures d1[k] == d2[k] {
      var x, y := ByteOfXY(d1, width, height, k);
      var x', y' := ByteOfXY(d2, width, height, k);
      PixelInImage(width, height, x, y);
      PixelInImage(width, height, x', y');
      PixelIndexInjective(width, x, y, x', y');
    }
  }

  /** Sharpening keeps a byte buffer a byte buffer: every output is clamped. */
  lemma SharpenedBufferBytes(d: seq<int>, s: seq<int>, width: nat, height: nat, strength: real, skipTransparent: bool)
    requires IsBuffer(s, width * height)
    requires SharpenedBuffer(d, s, width, height, strength, skipTransparent)
    ensures IsBuffer(d, width * height)
  {
    forall k | 0 <= k < |d| ensures IsByte(d[k]) {
      var x, y := ByteOfXY(d, width, height, k);
      assert IsRgbaBytes(SharpenedPixel(s, width, height, strength, skipTransparent, x, y));
    }
  }

  /** No alpha byte is written. */
  lemma SharpenedBufferKeepsAlpha(d: seq<int>, s: seq<int>, width: nat, height: nat, strength: real, skipTransparent: bool)
    requires IsBuffer(s, width * height)
    requires SharpenedBuffer(d, s, width, height, strength, skipTransparent)
    ensures forall k :: 0 <= k < |s| && k % 4 == 3 ==> d[k] == s[k]
  {
    forall k | 0 <= k < |s| && k % 4 == 3 ensures d[k] == s[k] {
      var x, y := ByteOfXY(d, width, height, k);
      var x', y' := ByteOfXY(s, width, height, k);
      PixelInImage(width, height, x, y);
      PixelInImage(width, height, x', y');
      PixelIndexInjective(width, x, y, x', y');
    }
  }

  /** The first and last rows and columns are left exactly as they were. */
  lemma SharpenedBufferBorder(d: seq<int>, s: seq<int>, width: nat, height: nat, strength: real, skipTransparent: bool)
    requires IsBuffer(s, width * height)
    requires SharpenedBuffer(d, s, width, height, strength, skipTransparent)
    ensures forall x, y :: 0 <= x < width && 0 <= y < height && (x == 0 || y == 0 || x == width - 1 || y == height - 1)
              ==> PixelXY(d, width, height, x, y) == PixelXY(s, width, height, x, y)
  {
  }

  /**
   * An interior pixel that is not skipped gets, in channel c, the clamped
   * kernel sum over the old buffer.
   */
  lemma SharpenedBufferInterior(d: seq<int>, s: seq<int>, width: nat, height: nat, strength: real, skipTransparent: bool,
                                x: int, y: int, c: int)
    requires IsBuffer(s, width * height)
    requires SharpenedBuffer(d, s, width, height, strength, skipTransparent)
    requires InteriorPixel(width, height, x, y) && 0 <= c < 3
    requires !(skipTransparent && PixelXY(s, width, height, x, y).a == 0)
    ensures ChannelOf(PixelXY(d, width, height, x, y), c) == ClampedSum(SharpenSum(s, width, height, x, y, c, strength))
  {
    assert PixelXY(d, width, height, x, y) == SharpenedPixel(s, width, height, strength, skipTransparent, x, y);
  }

  /**
   * Where the centre and its four edge neighbours agree on a value, the
   * kernel reproduces it whatever the strength: sharpening only changes
   * pixels that differ from their neighbours.
   */
  lemma SharpenFlat(s: seq<int>, width: nat, height: nat, x: int, y: int, c: int, strength: real)
    requires IsBuffer(s, width * height) && InteriorPixel(width, height, x, y) && 0 <= c < 3
    requires var v := Tap(s, width, height, x, y, c, 0, 0);
      Tap(s, width, height, x, y, c, -1, 0) == v && Tap(s, width, height, x, y, c, 1, 0) == v
      && Tap(s, width, height, x, y, c, 0, -1) == v && Tap(s, width, height, x, y, c, 0, 1) == v
    ensures ClampedSum(SharpenSum(s, width, height, x, y, c, strength)) == Tap(s, width, height, x, y, c, 0, 0)
  {
    var v := Tap(s, width, height, x, y, c, 0, 0);
    TapByte(s, width, height, x, y, c, 0, 0);
    FlatSum(v, Tap(s, width, height, x, y, c, -1, 0), Tap(s, width, height, x, y, c, 0, -1),
            Tap(s, width, height, x, y, c, 0, 1), Tap(s, width, height, x, y, c, 1, 0), strength);
    assert SharpenSum(s, width, height, x, y, c, strength) == v as real;
    ClampedSumOfByte(v);
  }

  /** A byte-valued sum is stored as that byte. */
  lemma ClampedSumOfByte(v: int)
    requires IsByte(v)
    ensures ClampedSum(v as real) == v
  {
    assert (v as real).Floor == v;
  }

  /** (1 + 4s) v - s (a + b + d + e) is v when the four neighbours a, b, d, e are all v. */
  lemma FlatSum(v: int, a: int, b: int, d: int, e: int, strength: real)
    requires a == v && b == v && d == v && e == v
    ensures (1.0 + 4.0 * strength) * v as real - strength * (a + b + d + e) as real == v as real
  {
    assert (a + b + d + e) as real == 4.0 * v as real;
  }

  /** Every tap of a byte buffer is a byte. */
  lemma TapByte(s: seq<int>, width: nat, height: nat, x: int, y: int, c: int, ky: int, kx: int)
    requires IsBuffer(s, width * height) && InteriorPixel(width, height, x, y)
    requires -1 <= ky <= 1 && -1 <= kx <= 1
    ensures IsByte(Tap(s, width, height, x, y, c, ky, kx))
  {
    PixelInImage(width, height, x + kx, y + ky);
    PixelBytes(s, width * height, (y + ky) * width + (x + kx));
  }

  /**
   * The row and column loops of both sharpen filters over the snapshot
   * `tempData`, writing the R, G, B bytes of every interior pixel of
   * `data` (skipping, with `skipTransparent`, pixels whose alpha is 0).
   */
  method Convolve(data: array<int>, tempData: array<int>, width: nat, height: nat, strength: real, skipTransparent: bool)
    requires data != tempData && IsBuffer(data[..], width * height) && tempData[..] == data[..]
    modifies data
    ensures SharpenedBuffer(data[..], tempData[..], width, height, strength, skipTransparent)
  {
    ghost var s := tempData[..];
    var y := 1;
    while y < height - 1
      invariant 1 <= y && (height >= 2 ==> y <= height - 1)
      invariant |data[..]| == |s|
      invariant forall x', y' :: 0 <= x' < width && 0 <= y' < height ==>
        PixelXY(data[..], width, height, x', y')
          == if y' < y then SharpenedPixel(s, width, height, strength, skipTransparent, x', y') else PixelXY(s, width, height, x', y')
    {
      var x := 1;
      while x < width - 1
        invariant 1 <= x && (width >= 2 ==> x <= width - 1)
        invariant forall x', y' :: 0 <= x' < width && 0 <= y' < height ==>
          PixelXY(data[..], width, height, x', y')
            == if y' < y || (y' == y && x' < x) then SharpenedPixel(s, width, height, strength, skipTransparent, x', y')
               else PixelXY(s, width, height, x', y')
      {
        ConvolvePixel(data, tempData, width, height, strength, skipTransparent, x, y);
        x := x + 1;
      }
      y := y + 1;
    }
  }

  /** The body of the column loop: pixel (x, y), channels 0 to 2. */
  method ConvolvePixel(data: array<int>, tempData: array<int>, width: nat, height: nat, strength: real, skipTransparent: bool,
                       x: int, y: int)
    requires data != tempData && IsBuffer(tempData[..], width * height) && data.Length == tempData.Length
    requires InteriorPixel(width, height, x, y)
    requires PixelXY(data[..], width, height, x, y) == PixelXY(tempData[..], width, height, x, y)
    modifies data
    ensures PixelXY(data[..], width, height, x, y) == SharpenedPixel(tempData[..], width, height, strength, skipTransparent, x, y)
    ensures forall x', y' :: 0 <= x' < width && 0 <= y' < height && (x' != x || y' != y) ==>
              PixelXY(data[..], width, height, x', y') == old(PixelXY(data[..], width, height, x', y'))
  {
    ghost var s := tempData[..];
    ghost var before := data[..];
    ghost var q := y * width + x;
    PixelInImage(width, height, x, y);
    var pixelIndex := (y * width + x) * 4;
    if skipTransparent && data[pixelIndex + 3] == 0 {
      return;
    }
    var c := 0;
    while c < 3
      invariant 0 <= c <= 3
      invariant data[pixelIndex] == if c > 0 then ClampedSum(SharpenSum(s, width, height, x, y, 0, strength)) else s[pixelIndex]
      invariant data[pixelIndex + 1] == if c > 1 then ClampedSum(SharpenSum(s, width, height, x, y, 1, strength)) else s[pixelIndex + 1]
      invariant data[pixelIndex + 2] == if c > 2 then ClampedSum(SharpenSum(s, width, height, x, y, 2, strength)) else s[pixelIndex + 2]
      invariant data[pixelIndex + 3] == s[pixelIndex + 3]
      invariant forall j :: 0 <= j < data.Length && !(pixelIndex <= j < pixelIndex + 4) ==> data[j] == before[j]
    {
      var sum := KernelSum(tempData, width, height, x, y, c, strength);
      data[pixelIndex + c] := Store(RealMin(255.0, RealMax(0.0, sum)));
      c := c + 1;
    }
    forall x', y' | 0 <= x' < width && 0 <= y' < height && (x' != x || y' != y)
      ensures PixelXY(data[..], width, height, x', y') == PixelXY(before, width, height, x', y')
    {
      PixelInImage(width, height, x', y');
      if y' * width + x' == q {
        PixelIndexInjective(width, x, y, x', y');
      }
    }
  }
}
