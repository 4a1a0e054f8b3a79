/**
 * Numeric conventions of the browser APIs the pixel code runs on.
 *
 * Every assignment into a Uint8ClampedArray (the backing store of
 * ImageData) converts the number with ToUint8Clamp: values at or below 0
 * become 0, values at or above 255 become 255, and everything else is
 * rounded to the nearest integer with ties going to the even neighbour.
 * Math.round rounds ties upwards. Numbers are modelled as exact reals.
 */
module Bytes {

  predicate IsByte(v: int) { 0 <= v <= 255 }

  predicate AllBytes(s: seq<int>) {
    forall i :: 0 <= i < |s| ==> IsByte(s[i])
  }

  function RealMin(a: real, b: real): real { if a <= b then a else b }
  function RealMax(a: real, b: real): real { if a >= b then a else b }

  /** Math.max(0, Math.min(255, x)) */
  function Clamp255(x: real): (r: real)
    ensures 0.0 <= r <= 255.0
    ensures 0.0 <= x <= 255.0 ==> r == x
  {
    RealMax(0.0, RealMin(255.0, x))
  }

  /** Math.round: the nearest integer, ties towards +infinity. */
  function MathRound(x: real): (r: int)
    ensures (r as real) - 0.5 <= x < (r as real) + 0.5
  {
    (x + 0.5).Floor
  }

  /** ToUint8Clamp: the conversion applied by every Uint8ClampedArray store. */
  function Store(x: real): (r: int)
    ensures IsByte(r)
    ensures x <= 0.0 ==> r == 0
    ensures x >= 255.0 ==> r == 255
    ensures 0.0 <= x <= 255.0 ==> (r as real) - 0.5 <= x <= (r as real) + 0.5
  {
    if x <= 0.0 then 0
    else if x >= 255.0 then 255
    else
      var f := x.Floor;
      var frac := x - f as real;
      if frac < 0.5 then f
      else if frac > 0.5 then f + 1
      else if f % 2 == 0 then f else f + 1
  }

  /** Storing a value that is already a byte leaves it as it is. */
  lemma StoreOfByte(v: int)
    requires IsByte(v)
    ensures Store(v as real) == v
  {
    assert (v as real).Floor == v;
  }

  /** Clamping before the store changes nothing: the store clamps itself. */
  lemma StoreOfClamped(x: real)
    ensures Store(Clamp255(x)) == Store(x)
  {
  }

  /** ToUint8: the conversion applied by a Uint8Array store, on integers. */
  function Wrap256(v: int): (r: int)
    ensures IsByte(r)
    ensures IsByte(v) ==> r == v
  {
    v % 256
  }

  /* ---- row-major RGBA indexing: byte (y * width + x) * 4 + c ---- */

  function PixelIndex(x: int, y: int, width: int, c: int): int {
    (y * width + x) * 4 + c
  }

  /** Splitting a row-major pixel number into its row and column. */
  lemma RowMajorDecode(y: int, x: int, width: int)
    requires 0 <= y && 0 <= x < width
    ensures (y * width + x) / width == y
    ensures (y * width + x) % width == x
  {
    var p := y * width + x;
    var q, r := p / width, p % width;
    assert q * width + r == y * width + x;
    assert (q - y) * width == x - r;
    if q - y >= 1 {
      MulGap(q, y, width);
    } else if q - y <= -1 {
      MulGap(y, q, width);
    }
  }

  /** Rows at least one apart start at least one row width apart. */
  lemma MulGap(hi: int, lo: int, b: int)
    requires hi - lo >= 1 && b >= 0
    ensures hi * b - lo * b >= b
  {
    assert hi * b - lo * b == (hi - lo) * b;
  }

  /** Multiplying by a non-negative number keeps the order. */
  lemma MulMono(lo: int, hi: int, b: int)
    requires lo <= hi && b >= 0
    ensures lo * b <= hi * b
  {
    assert hi * b - lo * b == (hi - lo) * b;
  }

  /** A pixel number at or past row y's start lies in row y or later. */
  lemma RowAtLeast(p: int, y: int, width: int)
    requires width > 0 && 0 <= y && p >= y * width
    ensures p / width >= y
  {
    var q := p / width;
    assert q * width + p % width == p;
    if q < y {
      MulGap(y, q, width);
    }
  }

  /** A pixel number below row y's start lies in a row before y. */
  lemma RowBelow(p: int, y: int, width: int)
    requires width > 0 && 0 <= p < y * width
    ensures p / width < y
  {
    var q := p / width;
    assert q * width + p % width == p;
    if q >= y {
      MulGap(q + 1, y, width);
    }
  }

  /** Byte k of an RGBA buffer belongs to pixel k / 4, channel k % 4. */
  lemma ChannelDecode(p: int, c: int)
    requires 0 <= p && 0 <= c < 4
    ensures (p * 4 + c) / 4 == p && (p * 4 + c) % 4 == c
  {
  }

}
