/**
 * The filter variants of the image-processing test suite: the same
 * per-pixel filters as the Canvas pipeline, each with an early return on
 * its neutral parameters and an optional `skipTransparent` flag that
 * leaves pixels with alpha 0 alone, and a stronger sharpen whose
 * snapshot is filled by an explicit copy loop.
 */
module ImageProcessingUtils {
  import opened Bytes
  import opened Filters
  import Hsl
  import opened Convolution

  /** applyBrightnessContrast */
  method ApplyBrightnessContrast(data: array<int>, width: nat, height: nat, brightness: real, contrast: real, skipTransparent: bool)
    requires IsBuffer(data[..], width * height)
    modifies data
    ensures brightness == 0.0 && contrast == 0.0 ==> data[..] == old(data[..])
    ensures !(brightness == 0.0 && contrast == 0.0) ==>
      MappedBuffer(data[..], old(data[..]), width * height, BrightnessContrastPixel(brightness, Factor(contrast)), skipTransparent)
  {
    if brightness == 0.0 && contrast == 0.0 {
      return;
    }
    var factor := Factor(contrast);
    MapPixels(data, width * height, BrightnessContrastPixel(brightness, factor), skipTransparent);
  }

  /** applyHSLAdjustment */
  method ApplyHslAdjustment(data: array<int>, width: nat, height: nat, hue: real, saturation: real, lightness: real, skipTransparent: bool)
    requires IsBuffer(data[..], width * height)
    modifies data
    ensures hue == 100.0 && saturation == 100.0 && lightness == 100.0 ==> data[..] == old(data[..])
    ensures !(hue == 100.0 && saturation == 100.0 && lightness == 100.0) ==>
      MappedBuffer(data[..], old(data[..]), width * height, Hsl.TestHslPixel(hue, saturation, lightness), skipTransparent)
  {
    if hue == 100.0 && saturation == 100.0 && lightness == 100.0 {
      return;
    }
    MapPixels(data, width * height, Hsl.TestHslPixel(hue, saturation, lightness), skipTransparent);
  }

  /** applyRGBAdjustment */
  method ApplyRgbAdjustment(data: array<int>, width: nat, height: nat, redScale: real, greenScale: real, blueScale: real, skipTransparent: bool)
    requires IsBuffer(data[..], width * height)
    modifies data
    ensures redScale == 1.0 && greenScale == 1.0 && blueScale == 1.0 ==> data[..] == old(data[..])
    ensures !(redScale == 1.0 && greenScale == 1.0 && blueScale == 1.0) ==>
      MappedBuffer(data[..], old(data[..]), width * height, ScalePixel(redScale, greenScale, blueScale), skipTransparent)
  {
    if redScale == 1.0 && greenScale == 1.0 && blueScale == 1.0 {
      return;
    }
    MapPixels(data, width * height, ScalePixel(redScale, greenScale, blueScale), skipTransparent);
  }

  /** The kernel strength of applySharpen: Math.min(amount * 2, 4). */
  function TestStrength(amount: real): (strength: real)
    ensures strength <= 4.0
    ensures amount <= 2.0 ==> strength == 2.0 * amount
  {
    RealMin(amount * 2.0, 4.0)
  }

  /** The snapshot of applySharpen: a new array filled by a copy loop. */
  method CopyBuffer(data: array<int>) returns (tempData: array<int>)
    ensures fresh(tempData) && tempData[..] == data[..]
  {
    tempData := new int[data.Length];
    var i := 0;
    while i < data.Length
      invariant 0 <= i <= data.Length
      invariant forall k :: 0 <= k < i ==> tempData[k] == data[k]
    {
      tempData[i] := data[i];
      i := i + 1;
    }
  }

  /** applySharpen: nothing for amount <= 0, else the kernel with strength min(2 amount, 4). */
  method ApplySharpen(data: array<int>, width: nat, height: nat, amount: real, skipTransparent: bool)
    requires IsBuffer(data[..], width * height)
    modifies data
    ensures amount <= 0.0 ==> data[..] == old(data[..])
    ensures amount > 0.0 ==>
      SharpenedBuffer(data[..], old(data[..]), width, height, TestStrength(amount), skipTransparent)
  {
    if amount <= 0.0 {
      return;
    }
    var tempData := CopyBuffer(data);
    var strength := RealMin(amount * 2.0, 4.0);
    Convolve(data, tempData, width, height, strength, skipTransparent);
  }

  /* ---- what the test cases assert ---- */

  /**
   * Brightness 50 with contrast 0 turns the test colour (100, 150, 200)
   * into (150, 200, 250): each channel becomes min(255, v + 50).
   */
  lemma BrightnessTestValues()
    ensures BrightnessContrastPixel(50.0, Factor(0.0))(Rgb(100, 150, 200)) == Rgb(150, 200, 250)
  {
    ContrastZeroAddsBrightness(100, 50);
    ContrastZeroAddsBrightness(150, 50);
    ContrastZeroAddsBrightness(200, 50);
  }

  /** Contrast 50 changes every channel of the test colour (100, 150, 200). */
  lemma ContrastTestChanges()
    ensures var p := BrightnessContrastPixel(0.0, Factor(50.0))(Rgb(100, 150, 200));
      p.r != 100 && p.g != 150 && p.b != 200
  {
    var f := (259.0 * (50.0 + 255.0)) / (255.0 * (259.0 - 50.0));
    assert Factor(50.0) == Finite(f);
    assert 1.48 < f < 1.49 by {
      assert 255.0 * (259.0 - 50.0) == 53295.0;
      assert 259.0 * (50.0 + 255.0) == 78995.0;
    }
    StoreOfByte(100);
    StoreOfByte(150);
    StoreOfByte(200);
    ContrastStoreNear(f, 100, 84.0, 87.0);
    ContrastStoreNear(f, 150, 160.0, 161.0);
    ContrastStoreNear(f, 200, 234.0, 236.0);
    FinalClampIsRedundant(100, 0.0, Finite(f));
    FinalClampIsRedundant(150, 0.0, Finite(f));
    FinalClampIsRedundant(200, 0.0, Finite(f));
  }

  /** A contrast result strictly inside (lo, hi) with 0 <= lo stores to within half a step of it. */
  lemma ContrastStoreNear(f: real, v: int, lo: real, hi: real)
    requires 0.0 <= lo && hi <= 255.0 && lo < Contrasted(f, v) < hi
    ensures lo - 0.5 <= ContrastStore(Finite(f), v) as real <= hi + 0.5
  {
    StoreNear(Contrasted(f, v), lo, hi);
  }

  /** A value strictly inside (lo, hi), within the byte range, stores to within half a step of it. */
  lemma StoreNear(x: real, lo: real, hi: real)
    requires 0.0 <= lo < x < hi <= 255.0
    ensures lo - 0.5 <= Store(x) as real <= hi + 0.5
  {
  }

  /** The test colour (100, 150, 200) in HSL: hue 7/12 (210 degrees), saturation 10/21, lightness 10/17. */
  lemma TestColourHsl()
    ensures Hsl.RgbToHsl(Rgb(100, 150, 200)) == Hsl.HslColor(7.0 / 12.0, 10.0 / 21.0, 10.0 / 17.0)
  {
    var r, g, b := 100.0 / 255.0, 150.0 / 255.0, 200.0 / 255.0;
    assert Hsl.Max3(r, g, b) == b;
    assert Hsl.Min3(r, g, b) == r;
    assert (b - r) / (2.0 - b - r) == 10.0 / 21.0;
    assert (r - g) / (b - r) + 4.0 == 3.5;
  }

  /**
   * Lightness 150 turns the test colour into (211, 225, 239), whose
   * channel sum 675 exceeds the original 450.
   */
  lemma LightnessTestBrighter()
    ensures Hsl.TestHslPixel(100.0, 100.0, 150.0)(Rgb(100, 150, 200)) == Rgb(211, 225, 239)
    ensures var p := Hsl.TestHslPixel(100.0, 100.0, 150.0)(Rgb(100, 150, 200));
      p.r + p.g + p.b > 100 + 150 + 200
  {
    TestColourHsl();
    var a := Hsl.AdjustTest(Hsl.HslColor(7.0 / 12.0, 10.0 / 21.0, 10.0 / 17.0), 0.0, 1.0, 1.5);
    assert Hsl.JsRem(210.0, 360.0) == 210.0 by {
      assert Hsl.Trunc(210.0 / 360.0) == 0;
    }
    assert a == Hsl.HslColor(7.0 / 12.0, 10.0 / 21.0, 15.0 / 17.0);
    var q := Hsl.UpperPivot(10.0 / 21.0, 15.0 / 17.0);
    assert q == 335.0 / 357.0;
    var p := 2.0 * (15.0 / 17.0) - q;
    assert p == 295.0 / 357.0;
    assert Hsl.HueToRgb(p, q, 7.0 / 12.0 + 1.0 / 3.0) == p;
    assert Hsl.HueToRgb(p, q, 7.0 / 12.0) == 315.0 / 357.0;
    assert Hsl.HueToRgb(p, q, 7.0 / 12.0 - 1.0 / 3.0) == q;
    assert MathRound(p * 255.0) == 211;
    assert MathRound(315.0 / 357.0 * 255.0) == 225;
    assert MathRound(q * 255.0) == 239;
  }

  /**
   * Hue 150 (a shift of 180 degrees) turns the test colour into
   * (200, 150, 100): the pixel changes.
   */
  lemma HueTestChanges()
    ensures Hsl.TestHslPixel(150.0, 100.0, 100.0)(Rgb(100, 150, 200)) == Rgb(200, 150, 100)
    ensures Hsl.TestHslPixel(150.0, 100.0, 100.0)(Rgb(100, 150, 200)) != Rgb(100, 150, 200)
  {
    TestColourHsl();
    var a := Hsl.AdjustTest(Hsl.HslColor(7.0 / 12.0, 10.0 / 21.0, 10.0 / 17.0), 180.0, 1.0, 1.0);
    assert Hsl.JsRem(390.0, 360.0) == 30.0 by {
      assert Hsl.Trunc(390.0 / 360.0) == 1;
    }
    assert a == Hsl.HslColor(1.0 / 12.0, 10.0 / 21.0, 10.0 / 17.0);
    var q := Hsl.UpperPivot(10.0 / 21.0, 10.0 / 17.0);
    assert q == 40.0 / 51.0;
    var p := 2.0 * (10.0 / 17.0) - q;
    assert p == 20.0 / 51.0;
    assert Hsl.HueToRgb(p, q, 1.0 / 12.0 + 1.0 / 3.0) == q;
    assert Hsl.HueToRgb(p, q, 1.0 / 12.0) == 30.0 / 51.0;
    assert Hsl.HueToRgb(p, q, 1.0 / 12.0 - 1.0 / 3.0) == p;
    assert MathRound(q * 255.0) == 200;
    assert MathRound(30.0 / 51.0 * 255.0) == 150;
    assert MathRound(p * 255.0) == 100;
  }

  /**
   * Saturation 150 turns the test colour into (75, 150, 225): the pixel
   * changes.
   */
  lemma SaturationTestChanges()
    ensures Hsl.TestHslPixel(100.0, 150.0, 100.0)(Rgb(100, 150, 200)) == Rgb(75, 150, 225)
    ensures Hsl.TestHslPixel(100.0, 150.0, 100.0)(Rgb(100, 150, 200)) != Rgb(100, 150, 200)
  {
    TestColourHsl();
    var a := Hsl.AdjustTest(Hsl.HslColor(7.0 / 12.0, 10.0 / 21.0, 10.0 / 17.0), 0.0, 1.5, 1.0);
    assert Hsl.JsRem(210.0, 360.0) == 210.0 by {
      assert Hsl.Trunc(210.0 / 360.0) == 0;
    }
    assert a == Hsl.HslColor(7.0 / 12.0, 5.0 / 7.0, 10.0 / 17.0);
    var q := Hsl.UpperPivot(5.0 / 7.0, 10.0 / 17.0);
    assert q == 15.0 / 17.0;
    var p := 2.0 * (10.0 / 17.0) - q;
    assert p == 5.0 / 17.0;
    assert Hsl.HueToRgb(p, q, 7.0 / 12.0 + 1.0 / 3.0) == p;
    assert Hsl.HueToRgb(p, q, 7.0 / 12.0) == 10.0 / 17.0;
    assert Hsl.HueToRgb(p, q, 7.0 / 12.0 - 1.0 / 3.0) == q;
    assert MathRound(p * 255.0) == 75;
    assert MathRound(10.0 / 17.0 * 255.0) == 150;
    assert MathRound(q * 255.0) == 225;
  }

  /**
   * Red, green and blue scales 1.5, 0.5 and 2 turn (100, 150, 200) into
   * (150, 75, 255): each channel uses its own scale and is capped at 255.
   */
  lemma RgbScaleTestValues()
    ensures ScalePixel(1.5, 0.5, 2.0)(Rgb(100, 150, 200)) == Rgb(150, 75, 255)
  {
    ScaleExact(100, 1.5, 150);
    ScaleExact(150, 0.5, 75);
  }

  /**
   * On the checkerboard of the sharpen test with amount 2 (strength 4),
   * a dark interior pixel (50 among four 200s) is driven to 0 and a light
   * one (200 among four 50s) to 255: sharpening changes it.
   */
  lemma CheckerboardSharpen(s: seq<int>, width: nat, height: nat, x: int, y: int, c: int, centre: int, neighbour: int)
    requires |s| == 4 * (width * height) && InteriorPixel(width, height, x, y)
    requires (centre, neighbour) == (50, 200) || (centre, neighbour) == (200, 50)
    requires Tap(s, width, height, x, y, c, 0, 0) == centre
    requires Tap(s, width, height, x, y, c, -1, 0) == neighbour && Tap(s, width, height, x, y, c, 1, 0) == neighbour
    requires Tap(s, width, height, x, y, c, 0, -1) == neighbour && Tap(s, width, height, x, y, c, 0, 1) == neighbour
    ensures ClampedSum(SharpenSum(s, width, height, x, y, c, TestStrength(2.0))) == if centre == 50 then 0 else 255
  {
    assert TestStrength(2.0) == 4.0;
    assert SharpenSum(s, width, height, x, y, c, 4.0) == 17.0 * centre as real - 16.0 * neighbour as real;
  }
}
