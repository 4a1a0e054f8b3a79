/**
 * The tensor plumbing around the inpainting model: RGBA canvas pixels to
 * a planar (NCHW) byte tensor with transparency blended over white, the
 * drawn-stroke mask (0 = inpaint, 255 = keep) with its pixel count, the
 * choice of output tensor, the planar output back to RGBA, and the
 * execution-provider fallback when the inference session is created.
 * The canvas drawing calls, the model run and the session object itself
 * are outside the model; `create` stands for InferenceSession.create.
 */
module ObjectRemoval {
  import opened Wrappers
  import opened Bytes
  import opened Filters
  import opened Strings

  /* ---- canvasToUint8Array ---- */

  /**
   * One channel blended over white:
   * `alpha < 1 ? Math.round(v * alpha + 255 * (1 - alpha)) : v` with
   * `alpha = a / 255`.
   */
  function BlendChannel(v: int, a: int): (r: int)
    requires IsByte(v) && IsByte(a)
    ensures IsByte(r)
    ensures a == 255 ==> r == v
    ensures a == 0 ==> r == 255
  {
    var alpha := a as real / 255.0;
    if alpha < 1.0 then
      BlendBounds(v, alpha);
      MathRound(v as real * alpha + 255.0 * (1.0 - alpha))
    else v
  }

  /** A blend of a byte with white stays within [0, 255]. */
  lemma BlendBounds(v: int, alpha: real)
    requires IsByte(v) && 0.0 <= alpha < 1.0
    ensures 0.0 <= v as real * alpha + 255.0 * (1.0 - alpha) <= 255.0
  {
    assert 0.0 <= v as real * alpha <= 255.0 * alpha by {
      assert 255.0 * alpha - v as real * alpha == (255 - v) as real * alpha;
    }
  }

  function BlendedPixel(p: Rgba): Rgb
    requires IsRgbaBytes(p)
  {
    Rgb(BlendChannel(p.r, p.a), BlendChannel(p.g, p.a), BlendChannel(p.b, p.a))
  }

  /**
   * `t` is the planar tensor of the n pixels of `s`: index k holds pixel
   * k's blended red, n + k its green and 2n + k its blue.
   */
  ghost predicate IsPlanar(t: seq<int>, s: seq<int>, n: nat)
    requires IsBuffer(s, n)
  {
    |t| == 3 * n
    && forall k :: 0 <= k < n ==>
         t[k] == BlendedPixel(PixelOf(s, k)).r
         && t[n + k] == BlendedPixel(PixelOf(s, k)).g
         && t[2 * n + k] == BlendedPixel(PixelOf(s, k)).b
  }

  /** `new Uint8Array(list)`: every element stored modulo 256. */
  function ToUint8Array(t: seq<int>): (u: seq<int>)
    ensures |u| == |t|
    ensures forall k :: 0 <= k < |t| && IsByte(t[k]) ==> u[k] == t[k]
  {
    seq(|t|, k requires 0 <= k < |t| => Wrap256(t[k]))
  }

  /** The blended red, green and blue of the pixel at byte offset i = 4p. */
  method BlendAt(imageData: array<int>, ghost n: nat, i: int, ghost p: int) returns (r: int, g: int, b: int)
    requires IsBuffer(imageData[..], n) && 0 <= p < n && i == 4 * p
    ensures Rgb(r, g, b) == BlendedPixel(PixelOf(imageData[..], p))
  {
    PixelBytes(imageData[..], n, p);
    var alpha := imageData[i + 3] as real / 255.0;
    r := if alpha < 1.0 then MathRound(imageData[i] as real * alpha + 255.0 * (1.0 - alpha)) else imageData[i];
    g := if alpha < 1.0 then MathRound(imageData[i + 1] as real * alpha + 255.0 * (1.0 - alpha)) else imageData[i + 1];
    b := if alpha < 1.0 then MathRound(imageData[i + 2] as real * alpha + 255.0 * (1.0 - alpha)) else imageData[i + 2];
  }

  /**
   * canvasToUint8Array: one pass pushing the blended channels onto three
   * lists, which are concatenated and converted to a Uint8Array.
   */
  method CanvasToUint8Array(imageData: array<int>, width: nat, height: nat) returns (uint8Array: seq<int>, shape: seq<int>)
    requires IsBuffer(imageData[..], width * height)
    ensures shape == [1, 3, height, width]
    ensures IsPlanar(uint8Array, imageData[..], width * height)
  {
    ghost var s := imageData[..];
    ghost var n := width * height;
    shape := [1, 3, height, width];
    var redArray, greenArray, blueArray := [], [], [];
    var i := 0;
    ghost var p := 0;
    while i < imageData.Length
      invariant 0 <= p <= n && i == 4 * p
      invariant |redArray| == p && |greenArray| == p && |blueArray| == p
      invariant forall k :: 0 <= k < p ==> Rgb(redArray[k], greenArray[k], blueArray[k]) == BlendedPixel(PixelOf(s, k))
    {
      var r, g, b := BlendAt(imageData, n, i, p);
      redArray := redArray + [r];
      greenArray := greenArray + [g];
      blueArray := blueArray + [b];
      i := i + 4;
      p := p + 1;
    }
    var transposedData := redArray + greenArray + blueArray;
    uint8Array := ToUint8Array(transposedData);
    PlanarOfPlanes(redArray, greenArray, blueArray, s, n);
  }

  /** Three planes of blended channels, concatenated and stored, form the planar tensor. */
  lemma PlanarOfPlanes(red: seq<int>, green: seq<int>, blue: seq<int>, s: seq<int>, n: nat)
    requires IsBuffer(s, n) && |red| == n && |green| == n && |blue| == n
    requires forall k :: 0 <= k < n ==> Rgb(red[k], green[k], blue[k]) == BlendedPixel(PixelOf(s, k))
    ensures IsPlanar(ToUint8Array(red + green + blue), s, n)
  {
    var t := red + green + blue;
    forall k | 0 <= k < n
      ensures ToUint8Array(t)[k] == BlendedPixel(PixelOf(s, k)).r
      ensures ToUint8Array(t)[n + k] == BlendedPixel(PixelOf(s, k)).g
      ensures ToUint8Array(t)[2 * n + k] == BlendedPixel(PixelOf(s, k)).b
    {
      PixelBytes(s, n, k);
      assert t[k] == red[k] && t[n + k] == green[k] && t[2 * n + k] == blue[k];
    }
  }

  /** Every entry of the planar tensor is a byte. */
  lemma PlanarBytes(t: seq<int>, s: seq<int>, n: nat)
    requires IsBuffer(s, n) && IsPlanar(t, s, n)
    ensures AllBytes(t)
  {
    forall j | 0 <= j < |t| ensures IsByte(t[j]) {
      if j < n {
        PixelBytes(s, n, j);
      } else if j < 2 * n {
        PixelBytes(s, n, j - n);
        assert t[j] == t[n + (j - n)];
      } else {
        PixelBytes(s, n, j - 2 * n);
        assert t[j] == t[2 * n + (j - 2 * n)];
      }
    }
  }

  /** An opaque pixel's channels are copied into the tensor unchanged. */
  lemma PlanarOpaque(t: seq<int>, s: seq<int>, n: nat, k: int)
    requires IsBuffer(s, n) && IsPlanar(t, s, n) && 0 <= k < n && PixelOf(s, k).a == 255
    ensures t[k] == PixelOf(s, k).r && t[n + k] == PixelOf(s, k).g && t[2 * n + k] == PixelOf(s, k).b
  {
    PixelBytes(s, n, k);
  }

  /** A fully transparent pixel becomes white. */
  lemma PlanarTransparent(t: seq<int>, s: seq<int>, n: nat, k: int)
    requires IsBuffer(s, n) && IsPlanar(t, s, n) && 0 <= k < n && PixelOf(s, k).a == 0
    ensures t[k] == 255 && t[n + k] == 255 && t[2 * n + k] == 255
  {
    PixelBytes(s, n, k);
  }

  /* ---- maskCanvasToUint8Array ---- */

  /** A pixel of the user's red stroke: strong red, some alpha, red well above green and blue. */
  predicate IsDrawnPixel(p: Rgba) {
    p.r > 50 && p.a > 20 && p.r as real > p.g as real * 1.5 && p.r as real > p.b as real * 1.5
  }

  /** The inverted mask entry: 0 where the model should inpaint, 255 where it keeps. */
  function MaskEntry(p: Rgba): int {
    if IsDrawnPixel(p) then 0 else 255
  }

  /** The number of 0 entries. */
  function CountZeros(m: seq<int>): nat {
    if |m| == 0 then 0
    else CountZeros(m[..|m| - 1]) + (if m[|m| - 1] == 0 then 1 else 0)
  }

  /** Whether the pixel at byte offset i = 4k is part of the stroke. */
  method DrawnAt(data: array<int>, ghost n: nat, i: int, ghost k: int) returns (isDrawnPixel: bool)
    requires IsBuffer(data[..], n) && 0 <= k < n && i == 4 * k
    ensures isDrawnPixel == IsDrawnPixel(PixelOf(data[..], k))
  {
    isDrawnPixel := data[i] > 50 && data[i + 3] > 20
      && data[i] as real > data[i + 1] as real * 1.5 && data[i] as real > data[i + 2] as real * 1.5;
  }

  /** The number of drawn pixels among the first p pixels of `s`. */
  function CountDrawn(s: seq<int>, p: nat): nat
    requires 4 * p <= |s|
  {
    if p == 0 then 0 else CountDrawn(s, p - 1) + (if IsDrawnPixel(PixelOf(s, p - 1)) then 1 else 0)
  }

  /** The mask has as many 0 entries as the image has drawn pixels. */
  lemma {:induction false} MaskCount(mask: seq<int>, s: seq<int>, p: nat)
    requires 4 * p <= |s| && p <= |mask|
    requires forall j :: 0 <= j < p ==> mask[j] == MaskEntry(PixelOf(s, j))
    ensures CountZeros(mask[..p]) == CountDrawn(s, p)
  {
    if p > 0 {
      MaskCount(mask, s, p - 1);
      assert mask[..p][..p - 1] == mask[..p - 1];
    }
  }

  /** Row y starts at y * width; the next row starts width later and within the image. */
  lemma NextRow(y: int, width: nat, height: nat)
    requires 0 <= y < height
    ensures (y + 1) * width == y * width + width && y * width + width <= height * width
  {
    MulMono(y + 1, height, width);
  }

  /** The inner loop of maskCanvasToUint8Array: row y, whose first pixel is k0 = y * width. */
  method MaskRow(data: array<int>, maskArray: array<int>, ghost n: nat, y: int, targetWidth: nat, ghost k0: int, count0: nat)
    returns (maskPixelCount: nat)
    requires data != maskArray && IsBuffer(data[..], n) && maskArray.Length == n
    requires k0 == y * targetWidth && 0 <= k0 && k0 + targetWidth <= n
    requires forall j :: 0 <= j < k0 ==> maskArray[j] == MaskEntry(PixelOf(data[..], j))
    requires count0 == CountDrawn(data[..], k0)
    modifies maskArray
    ensures forall j :: 0 <= j < k0 + targetWidth ==> maskArray[j] == MaskEntry(PixelOf(data[..], j))
    ensures maskPixelCount == CountDrawn(data[..], k0 + targetWidth)
  {
    maskPixelCount := count0;
    var x := 0;
    while x < targetWidth
      invariant 0 <= x <= targetWidth
      invariant forall j :: 0 <= j < k0 + x ==> maskArray[j] == MaskEntry(PixelOf(data[..], j))
      invariant maskPixelCount == CountDrawn(data[..], k0 + x)
    {
      var i := (y * targetWidth + x) * 4;
      var isDrawnPixel := DrawnAt(data, n, i, k0 + x);
      maskArray[y * targetWidth + x] := if isDrawnPixel then 0 else 255;
      if isDrawnPixel {
        maskPixelCount := maskPixelCount + 1;
      }
      x := x + 1;
    }
  }

  /**
   * maskCanvasToUint8Array on the pixels of the target-sized canvas: one
   * mask byte per pixel in row-major order, and the count of drawn pixels.
   */
  method MaskCanvasToUint8Array(data: array<int>, targetWidth: nat, targetHeight: nat)
    returns (maskArray: array<int>, maskPixelCount: nat, shape: seq<int>)
    requires IsBuffer(data[..], targetWidth * targetHeight)
    ensures fresh(maskArray) && maskArray.Length == targetWidth * targetHeight
    ensures shape == [1, 1, targetHeight, targetWidth]
    ensures forall k :: 0 <= k < maskArray.Length ==> maskArray[k] == MaskEntry(PixelOf(data[..], k))
    ensures maskPixelCount == CountZeros(maskArray[..])
  {
    ghost var s := data[..];
    ghost var n := targetWidth * targetHeight;
    shape := [1, 1, targetHeight, targetWidth];
    maskArray := new int[targetWidth * targetHeight];
    maskPixelCount := 0;
    var y := 0;
    ghost var k := 0;
    while y < targetHeight
      invariant 0 <= y <= targetHeight && k == y * targetWidth && k <= n
      invariant forall j :: 0 <= j < k ==> maskArray[j] == MaskEntry(PixelOf(s, j))
      invariant maskPixelCount == CountDrawn(s, k)
    {
      NextRow(y, targetWidth, targetHeight);
      maskPixelCount := MaskRow(data, maskArray, n, y, targetWidth, k, maskPixelCount);
      k := k + targetWidth;
      y := y + 1;
    }
    MaskCount(maskArray[..], s, n);
    assert maskArray[..][..n] == maskArray[..];
  }

  /** The count is at most the size of the mask, and 0 exactly when nothing was drawn. */
  lemma {:induction false} CountZerosBounds(m: seq<int>)
    ensures CountZeros(m) <= |m|
    ensures CountZeros(m) == 0 <==> forall k :: 0 <= k < |m| ==> m[k] != 0
    ensures CountZeros(m) == |m| <==> forall k :: 0 <= k < |m| ==> m[k] == 0
  {
    if |m| > 0 {
      var init := m[..|m| - 1];
      CountZerosBounds(init);
      assert forall k :: 0 <= k < |init| ==> init[k] == m[k];
    }
  }

  /** Every mask entry is 0 or 255, and 0 exactly for a drawn pixel. */
  lemma MaskEntries(mask: seq<int>, s: seq<int>, n: nat)
    requires IsBuffer(s, n) && |mask| == n
    requires forall k :: 0 <= k < n ==> mask[k] == MaskEntry(PixelOf(s, k))
    ensures forall k :: 0 <= k < n ==> (mask[k] == 0 || mask[k] == 255)
    ensures forall k :: 0 <= k < n ==> (mask[k] == 0 <==> IsDrawnPixel(PixelOf(s, k)))
  {
  }

  /* ---- choosing the output tensor ---- */

  /**
   * `results.output`, else `results.result`, else the first key in
   * insertion order, else an error.
   */
  function SelectOutputKey(keys: seq<string>): (r: Result<string, string>)
  {
    if "output" in keys then Ok("output")
    else if "result" in keys then Ok("result")
    else if |keys| > 0 then Ok(keys[0])
    else Err("No output tensors returned from model")
  }

  /** A key is chosen exactly when there is one; it is a key of the results, by preference "output", then "result". */
  lemma SelectOutputKeyChoice(keys: seq<string>)
    ensures SelectOutputKey(keys).Ok? <==> |keys| > 0
    ensures SelectOutputKey(keys).Ok? ==> SelectOutputKey(keys).value in keys
    ensures "output" in keys ==> SelectOutputKey(keys) == Ok("output")
    ensures "output" !in keys && "result" in keys ==> SelectOutputKey(keys) == Ok("result")
    ensures "output" !in keys && "result" !in keys && |keys| > 0 ==> SelectOutputKey(keys) == Ok(keys[0])
  {
  }

  /**
   * An output tensor as far as the checks after the selection look at it:
   * its data (absent when the runtime gave none), whether that data is a
   * Float32Array, and its shape (absent when missing).
   */
  datatype OutputTensor = OutputTensor(data: Option<seq<real>>, isFloat32: bool, dims: Option<seq<int>>)

  predicate Usable(t: OutputTensor) {
    t.data.Some? && t.dims.Some?
  }

  /**
   * The tensor the output step works on: the one SelectOutputKey picks
   * from the results (whose keys, in insertion order, are `keys`), which
   * must have both data and a shape; there is no fall-back to another
   * key when the chosen tensor is unusable.
   */
  function SelectOutputTensor(keys: seq<string>, results: map<string, OutputTensor>): (r: Result<OutputTensor, string>)
    requires forall k :: k in keys <==> k in results
    ensures |keys| == 0 <==> r == Err("No output tensors returned from model")
    ensures r.Ok? ==> Usable(r.value) && exists k :: k in keys && results[k] == r.value
    ensures |keys| > 0 ==>
      (r.Ok? <==> Usable(results[SelectOutputKey(keys).value])) &&
      (r.Err? ==> r.error == "Invalid output tensor data or shape")
  {
    SelectOutputKeyChoice(keys);
    match SelectOutputKey(keys)
    case Err(e) => Err(e)
    case Ok(key) =>
      var t := results[key];
      if t.data.None? || t.dims.None? then Err("Invalid output tensor data or shape")
      else Ok(t)
  }

  /**
   * A present "output" tensor is always the one taken: when it lacks its
   * data or shape the step fails, even if "result" is usable.
   */
  lemma UnusableOutputIsNotSkipped(keys: seq<string>, results: map<string, OutputTensor>)
    requires forall k :: k in keys <==> k in results
    requires "output" in keys && !Usable(results["output"])
    ensures SelectOutputTensor(keys, results) == Err("Invalid output tensor data or shape")
  {
  }

  /* ---- NCHW output back to RGBA ---- */

  /** 255 for a Float32Array output (values in [0, 1]), 1 for bytes. */
  function ScaleFactor(isFloat32: bool): real {
    if isFloat32 then 255.0 else 1.0
  }

  /**
   * `Math.max(0, Math.min(255, Number(outputData[idx]) * scale))` stored
   * into a clamped byte; reading past the end gives undefined, NaN, and
   * so 0.
   */
  function OutputChannel(outputData: seq<real>, idx: int, scale: real): (r: int)
    ensures IsByte(r)
  {
    if 0 <= idx < |outputData| then Store(Clamp255(outputData[idx] * scale)) else 0
  }

  /** Output pixel k: planes at k, pixelCount + k and 2 pixelCount + k, fully opaque. */
  function TensorPixel(outputData: seq<real>, pixelCount: nat, k: int, scale: real): (p: Rgba)
    ensures IsRgbaBytes(p) && p.a == 255
  {
    Rgba(OutputChannel(outputData, k, scale),
         OutputChannel(outputData, pixelCount + k, scale),
         OutputChannel(outputData, 2 * pixelCount + k, scale),
         255)
  }

  /** Writing one RGBA pixel at byte offset 4q changes that pixel only. */
  method WritePixel(data: array<int>, ghost n: nat, outIdx: int, ghost q: int, px: Rgba)
    requires data.Length == 4 * n && 0 <= q < n && outIdx == 4 * q
    modifies data
    ensures PixelOf(data[..], q) == px
    ensures forall j :: 0 <= j < n && j != q ==> PixelOf(data[..], j) == PixelOf(old(data[..]), j)
  {
    ghost var before := data[..];
    data[outIdx] := px.r;
    data[outIdx + 1] := px.g;
    data[outIdx + 2] := px.b;
    data[outIdx + 3] := px.a;
    forall j | 0 <= j < n && j != q ensures PixelOf(data[..], j) == PixelOf(before, j) {
      assert 4 * j + 3 < 4 * q || 4 * q + 3 < 4 * j;
    }
  }

  /** The inner loop of tensorToImageData: row h, whose first pixel is k0 = h * width. */
  method RenderRow(out: array<int>, outputData: seq<real>, pixelCount: nat, scaleFactor: real, h: int, outputWidth: nat, ghost k0: int)
    requires out.Length == 4 * pixelCount
    requires k0 == h * outputWidth && 0 <= k0 && k0 + outputWidth <= pixelCount
    requires forall j :: 0 <= j < k0 ==> PixelOf(out[..], j) == TensorPixel(outputData, pixelCount, j, scaleFactor)
    modifies out
    ensures forall j :: 0 <= j < k0 + outputWidth ==> PixelOf(out[..], j) == TensorPixel(outputData, pixelCount, j, scaleFactor)
  {
    var w := 0;
    while w < outputWidth
      invariant 0 <= w <= outputWidth
      invariant forall j :: 0 <= j < k0 + w ==> PixelOf(out[..], j) == TensorPixel(outputData, pixelCount, j, scaleFactor)
    {
      var outIdx := (h * outputWidth + w) * 4;
      var rIdx := h * outputWidth + w;
      var px := Rgba(OutputChannel(outputData, rIdx, scaleFactor),
                     OutputChannel(outputData, pixelCount + rIdx, scaleFactor),
                     OutputChannel(outputData, 2 * pixelCount + rIdx, scaleFactor),
                     255);
      WritePixel(out, pixelCount, outIdx, k0 + w, px);
      w := w + 1;
    }
  }

  /**
   * The rendering loop of processImageWithObjectRemoval: pixel (h, w) of
   * the new image data takes red from index h * W + w, green from
   * H * W plus that and blue from 2 H * W plus that.
   */
  method TensorToImageData(outputData: seq<real>, isFloat32: bool, outputHeight: nat, outputWidth: nat) returns (out: array<int>)
    ensures fresh(out) && out.Length == 4 * (outputHeight * outputWidth)
    ensures forall k :: 0 <= k < outputHeight * outputWidth ==>
      PixelOf(out[..], k) == TensorPixel(outputData, outputHeight * outputWidth, k, ScaleFactor(isFloat32))
  {
    var scaleFactor := if isFloat32 then 255.0 else 1.0;
    var pixelCount := outputHeight * outputWidth;
    out := new int[4 * pixelCount];
    var h := 0;
    ghost var k := 0;
    while h < outputHeight
      invariant 0 <= h <= outputHeight && k == h * outputWidth && k <= pixelCount
      invariant forall j :: 0 <= j < k ==> PixelOf(out[..], j) == TensorPixel(outputData, pixelCount, j, scaleFactor)
    {
      NextRow(h, outputWidth, outputHeight);
      RenderRow(out, outputData, pixelCount, scaleFactor, h, outputWidth, k);
      k := k + outputWidth;
      h := h + 1;
    }
  }

  /** The rendered image is a byte buffer and fully opaque. */
  lemma TensorImageOpaque(d: seq<int>, outputData: seq<real>, n: nat, scale: real)
    requires |d| == 4 * n
    requires forall k :: 0 <= k < n ==> PixelOf(d, k) == TensorPixel(outputData, n, k, scale)
    ensures IsBuffer(d, n)
    ensures forall k :: 0 <= k < |d| && k % 4 == 3 ==> d[k] == 255
  {
    forall j | 0 <= j < |d| ensures IsByte(d[j]) && (j % 4 == 3 ==> d[j] == 255) {
      ByteOfPixel(d, j);
    }
  }

  /** A byte tensor (scale 1) holding bytes is copied into the image exactly. */
  lemma TensorBytesCopied(outputData: seq<real>, n: nat, k: int)
    requires 0 <= k && 3 * n <= |outputData| && k < n
    requires forall j :: 0 <= j < |outputData| ==> outputData[j] == outputData[j].Floor as real && 0.0 <= outputData[j] <= 255.0
    ensures var p := TensorPixel(outputData, n, k, ScaleFactor(false));
      p.r as real == outputData[k] && p.g as real == outputData[n + k] && p.b as real == outputData[2 * n + k]
  {
    StoreOfByte(outputData[k].Floor);
    StoreOfByte(outputData[n + k].Floor);
    StoreOfByte(outputData[2 * n + k].Floor);
  }

  /* ---- execution providers ---- */

  /** The caller's provider array, which the session factory may append to. */
  class ProviderList {
    var items: seq<string>

    constructor(items: seq<string>)
      ensures this.items == items
    {
      this.items := items;
    }
  }

  /** The default for preferredEPs when the caller passes none. */
  const DefaultProviders: seq<string> := ["webgpu", "cpu"]

  /**
   * The list the provider loop works from, before de-duplication: just
   * "cpu" for a "migan" model, else the caller's list with "cpu"
   * appended when missing.
   */
  function NormalizedProviders(modelPath: string, preferred: seq<string>): seq<string> {
    if Contains(modelPath, "migan") then ["cpu"]
    else if "cpu" in preferred then preferred
    else preferred + ["cpu"]
  }

  /** The first provider, in order, that `create` accepts. */
  function FirstSuccess(eps: seq<string>, create: string -> bool): (r: Option<string>)
  {
    if |eps| == 0 then None
    else if create(eps[0]) then Some(eps[0])
    else FirstSuccess(eps[1..], create)
  }

  /** An abstract inference session, remembering its provider. */
  datatype Session = Session(provider: string)

  /**
   * getObjectRemovalORTSession: normalise the provider list, de-duplicate
   * it keeping first occurrences, and try each provider until one
   * succeeds. A missing runtime gives [null, null] at once.
   */
  method GetObjectRemovalOrtSession(ortAvailable: bool, modelPath: string, preferredEPs: ProviderList, create: string -> bool)
    returns (session: Option<Session>, usedEP: Option<string>)
    modifies preferredEPs
    ensures session.Some? <==> usedEP.Some?
    ensures session.Some? ==> session.value.provider == usedEP.value
    ensures !ortAvailable ==> usedEP == None && preferredEPs.items == old(preferredEPs.items)
    ensures ortAvailable ==> usedEP == FirstSuccess(Dedupe(NormalizedProviders(modelPath, old(preferredEPs.items))), create)
    ensures ortAvailable && !Contains(modelPath, "migan") ==> preferredEPs.items == NormalizedProviders(modelPath, old(preferredEPs.items))
    ensures Contains(modelPath, "migan") ==> preferredEPs.items == old(preferredEPs.items)
  {
    if !ortAvailable {
      return None, None;
    }
    session, usedEP := None, None;
    var eps: seq<string>;
    var forceCpu := Contains(modelPath, "migan");
    if forceCpu {
      eps := ["cpu"];
    } else {
      if "cpu" !in preferredEPs.items {
        preferredEPs.items := preferredEPs.items + ["cpu"];
      }
      eps := preferredEPs.items;
    }
    var uniqueEPs := Dedupe(eps);
    var j := 0;
    while j < |uniqueEPs|
      invariant 0 <= j <= |uniqueEPs| && session == None && usedEP == None
      invariant FirstSuccess(uniqueEPs, create) == FirstSuccess(uniqueEPs[j..], create)
    {
      var ep := uniqueEPs[j];
      if create(ep) {
        session := Some(Session(ep));
        usedEP := Some(ep);
        break;
      }
      assert uniqueEPs[j..][1..] == uniqueEPs[j + 1..];
      j := j + 1;
    }
  }

  /**
   * What FirstSuccess returns: a provider of the list that succeeds and
   * is preceded only by failures, or nothing when every provider fails.
   */
  lemma {:induction false} FirstSuccessSpec(eps: seq<string>, create: string -> bool)
    ensures FirstSuccess(eps, create).None? <==> forall i :: 0 <= i < |eps| ==> !create(eps[i])
    ensures FirstSuccess(eps, create).Some? ==>
      exists i :: 0 <= i < |eps| && eps[i] == FirstSuccess(eps, create).value && create(eps[i])
                  && forall m :: 0 <= m < i ==> !create(eps[m])
  {
    if |eps| > 0 && !create(eps[0]) {
      FirstSuccessSpec(eps[1..], create);
      if FirstSuccess(eps, create).Some? {
        var i :| 0 <= i < |eps[1..]| && eps[1..][i] == FirstSuccess(eps, create).value && create(eps[1..][i])
                 && forall m :: 0 <= m < i ==> !create(eps[1..][m]);
        assert eps[i + 1] == FirstSuccess(eps, create).value;
        assert forall m :: 0 <= m < i + 1 ==> !create(eps[m]) by {
          forall m | 0 <= m < i + 1 ensures !create(eps[m]) {
            if m > 0 {
              assert eps[m] == eps[1..][m - 1];
            }
          }
        }
      } else {
        assert forall i :: 0 <= i < |eps| ==> !create(eps[i]) by {
          forall i | 0 <= i < |eps| ensures !create(eps[i]) {
            if i > 0 {
              assert eps[i] == eps[1..][i - 1];
            }
          }
        }
      }
    }
  }

  /**
   * The list actually tried is ["cpu"] for a "migan" model; otherwise it
   * always contains "cpu", has no duplicates, starts with the caller's
   * first provider, and is the caller's list itself when that already
   * had "cpu" and no duplicates.
   */
  lemma ProvidersTried(modelPath: string, preferred: seq<string>)
    ensures Contains(modelPath, "migan") ==> Dedupe(NormalizedProviders(modelPath, preferred)) == ["cpu"]
    ensures "cpu" in Dedupe(NormalizedProviders(modelPath, preferred))
    ensures NoDuplicates(Dedupe(NormalizedProviders(modelPath, preferred)))
    ensures !Contains(modelPath, "migan") && |preferred| > 0 ==> Dedupe(NormalizedProviders(modelPath, preferred))[0] == preferred[0]
    ensures !Contains(modelPath, "migan") && "cpu" in preferred && NoDuplicates(preferred) ==>
      Dedupe(NormalizedProviders(modelPath, preferred)) == preferred
  {
    var eps := NormalizedProviders(modelPath, preferred);
    if Contains(modelPath, "migan") {
      DedupeOfDistinct(eps);
    } else {
      assert "cpu" in eps;
      if |preferred| > 0 {
        DedupeKeepsHead(eps);
        assert eps[0] == preferred[0];
      }
      if "cpu" in preferred && NoDuplicates(preferred) {
        DedupeOfDistinct(preferred);
      }
    }
  }

  /**
   * With the default providers a model other than "migan" tries "webgpu"
   * and then "cpu", and uses the first of the two that `create` accepts.
   */
  lemma DefaultProvidersTried(modelPath: string, create: string -> bool)
    requires !Contains(modelPath, "migan")
    ensures Dedupe(NormalizedProviders(modelPath, DefaultProviders)) == ["webgpu", "cpu"]
    ensures FirstSuccess(Dedupe(NormalizedProviders(modelPath, DefaultProviders)), create) ==
      if create("webgpu") then Some("webgpu") else if create("cpu") then Some("cpu") else None
  {
    assert NoDuplicates(DefaultProviders);
    ProvidersTried(modelPath, DefaultProviders);
    assert ["webgpu", "cpu"][1..] == ["cpu"];
  }
}
