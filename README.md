# BatchShots core, modelled in Dafny

BatchShots is a browser-based batch photo editor. It runs filters on canvas pixels, removes objects with an inpainting model, converts formats and adds watermarks. It also has SEO helpers backed by Gemini, a sitemap generator and a locale-aware middleware. This project models the deterministic logic at its core and proves what that logic promises. There is one Dafny module per source file:

- **Pixel filters** (`ImageProcessing`, `ImageProcessingUtils`, `Filters`, `Convolution`, `Hsl`, `Bytes`). The Canvas fallback filters of `imageProcessing.ts` and the `skipTransparent` variants of the test suite are methods over an `array<int>` RGBA buffer of length 4·w·h.
  - Every store goes through `Bytes.Store`, the clamp-and-round-half-even conversion of a `Uint8ClampedArray`.
  - The contracts state each pixel's new colour as a function of its old one. They also state that alpha is never written, that neutral parameters change nothing and that transparent pixels are skipped when asked.
  - Sharpen reads from a snapshot and leaves the border untouched. Auto-level maps each channel's minimum to 0 and its maximum to 255.
- **Object removal tensors** (`ObjectRemoval`).
  - RGBA is converted to planar NCHW with blending over white.
  - The stroke mask is built with its pixel count, and the output tensor is chosen.
  - The planar output is converted back to RGBA.
  - Execution providers are normalised and the first one that creates a session is used. The provider list is a class, because the source appends "cpu" to the caller's array.
- **Watermark settings** (`WatermarkControl`). The functional updater of the settings panel, the tab-switch guard and the logo upload.
- **Trending keywords** (`GoogleTrends`).
  - Categories are detected from the description.
  - Simulated keywords are drawn from fixed pools, with random picks supplied as permutations.
  - Trends results are shaped, and the API module is loaded lazily through a cache object.
  - Keywords are formatted with hyphens, and the real result falls back to the simulated one.
- **Format conversion** (`ImageFormatConverter`). HEIC detection by name, MIME type, library answer and `ftyp` header; output names and MIME types; and the byte loop that turns the decoded data URL into the file.
- **Sitemap** (`SitemapConfig`). The `transform` hook of `next-sitemap.config.js` with its locale alternates.
- **Middleware** (`Middleware`). Which pathnames bypass the locale middleware.
- **Device tier and model presets** (`WorkerDeviceDetector`, `WorkerModelConfig`). The browser readings are parameters.
- **SEO API routes** (`SeoNamesRoute`, `SeoProductDescriptionRoute`, `RouteCommon`, `Gemini`).
  - The validation order, the captcha thresholds (0.5 and 0.1) and the `imageCount` default.
  - The five-per-day free-usage limiter kept in a cookie, proved to allow at most five descriptions a day.
  - The Gemini prompts and the post-processing of the model's reply.

JavaScript numbers are modelled as exact reals, and integers as unbounded integers where the source stores into byte arrays. The following are parameters of the functions and methods that use them:
- random shuffles;
- the `navigator` readings;
- the clock;
- the signed-in user and pro status;
- the cookie;
- the reCAPTCHA and Gemini replies;
- the Trends API outcomes;
- `Math.pow`;
- `atob`;
- the canvas data URL;
- the ONNX Runtime `create` call.

## Model

| member | source | states |
|---|---|---|
| ObjectRemoval.BlendChannel | src/app/lib/objectRemovalProcessing.ts:49-52 | a blended channel is a byte; an opaque pixel (alpha 255) keeps its value and a fully transparent one becomes white (255) |
| ObjectRemoval.BlendBounds | src/app/lib/objectRemovalProcessing.ts:50-52 | the blend v·α + 255·(1 − α) of a byte with white stays within [0, 255] for every α in [0, 1) |
| ObjectRemoval.ToUint8Array | src/app/lib/objectRemovalProcessing.ts:59-60 | `new Uint8Array(list)` keeps the length and every value that is already a byte |
| ObjectRemoval.BlendAt | src/app/lib/objectRemovalProcessing.ts:47-52 | the three values computed at byte offset 4p are pixel p's channels blended over white |
| ObjectRemoval.CanvasToUint8Array | src/app/lib/objectRemovalProcessing.ts:36-62 | the shape is [1, 3, height, width] and the data is planar: for n pixels, index k holds pixel k's blended red, n + k its green and 2n + k its blue, 3n entries in all |
| ObjectRemoval.PlanarOfPlanes | src/app/lib/objectRemovalProcessing.ts:54-60 | the red, green and blue lists, concatenated and stored, form the planar tensor |
| ObjectRemoval.PlanarBytes | src/app/lib/objectRemovalProcessing.ts:47-60 | every entry of the planar tensor is a byte |
| ObjectRemoval.PlanarOpaque | src/app/lib/objectRemovalProcessing.ts:49-52 | an opaque pixel's red, green and blue reach the tensor unchanged |
| ObjectRemoval.PlanarTransparent | src/app/lib/objectRemovalProcessing.ts:49-52 | a fully transparent pixel becomes white in all three planes |
| ObjectRemoval.DrawnAt | src/app/lib/objectRemovalProcessing.ts:103-106 | the test at offset 4k is exactly "R > 50, A > 20, R > 1.5·G and R > 1.5·B" for pixel k |
| ObjectRemoval.MaskCount | src/app/lib/objectRemovalProcessing.ts:105-109 | a mask built entry by entry has as many 0 entries as there are drawn pixels |
| ObjectRemoval.MaskRow | src/app/lib/objectRemovalProcessing.ts:102-110 | after row y every entry up to the row's end is the inverted drawn test of its pixel, and the count is the number of drawn pixels so far |
| ObjectRemoval.MaskCanvasToUint8Array | src/app/lib/objectRemovalProcessing.ts:93-111 | a fresh mask of width·height entries with shape [1, 1, height, width]; entry y·width + x is 0 for a drawn pixel and 255 otherwise; maskPixelCount is the number of 0 entries |
| ObjectRemoval.CountZerosBounds | src/app/lib/objectRemovalProcessing.ts:109-115 | the count is at most the mask size; it is 0 exactly when no entry is 0 and equals the size exactly when every entry is 0 |
| ObjectRemoval.MaskEntries | src/app/lib/objectRemovalProcessing.ts:105-108 | every mask entry is 0 or 255, and it is 0 exactly when its pixel is drawn |
| ObjectRemoval.SelectOutputKeyChoice | src/app/lib/objectRemovalProcessing.ts:221-237 | a tensor is chosen exactly when the results have a key: "output" if present, else "result", else the first key; with no key it is the "No output tensors" error |
| ObjectRemoval.SelectOutputTensor | src/app/lib/objectRemovalProcessing.ts:221-241 | with no output key the result is the "No output tensors" error; otherwise the tensor SelectOutputKey picks is returned exactly when it has both data and a shape, and the "Invalid output tensor data or shape" error otherwise |
| ObjectRemoval.UnusableOutputIsNotSkipped | src/app/lib/objectRemovalProcessing.ts:222-241 | an "output" tensor without data or shape makes the step fail even when "result" is usable: there is no fall-back |
| ObjectRemoval.OutputChannel | src/app/lib/objectRemovalProcessing.ts:296-302 | every channel written is a byte (an index past the end reads NaN and stores 0) |
| ObjectRemoval.TensorPixel | src/app/lib/objectRemovalProcessing.ts:291-303 | each output pixel is a byte quadruple with alpha 255 |
| ObjectRemoval.WritePixel | src/app/lib/objectRemovalProcessing.ts:300-303 | the four stores set pixel q and leave every other pixel as it was |
| ObjectRemoval.RenderRow | src/app/lib/objectRemovalProcessing.ts:290-304 | after row h every pixel up to the row's end holds the channels read from indices k, H·W + k and 2·H·W + k |
| ObjectRemoval.TensorToImageData | src/app/lib/objectRemovalProcessing.ts:274-305 | a fresh buffer of 4·H·W bytes; pixel k = h·W + w takes red from index k, green from H·W + k and blue from 2·H·W + k, each scaled by 255 for Float32 data or 1 otherwise and clamped, with alpha 255 |
| ObjectRemoval.TensorImageOpaque | src/app/lib/objectRemovalProcessing.ts:296-303 | the rendered buffer holds only bytes and every alpha byte is 255 |
| ObjectRemoval.TensorBytesCopied | src/app/lib/objectRemovalProcessing.ts:274-298 | with scale 1, a tensor of whole numbers in [0, 255] is copied into the image exactly |
| ObjectRemoval.ProviderList.constructor | src/app/lib/objectRemovalProcessing.ts:331-335 | the caller's provider array holds the given providers |
| ObjectRemoval.GetObjectRemovalOrtSession | src/app/lib/objectRemovalProcessing.ts:331-396 | without a runtime, [null, null] and the array is untouched; otherwise the provider used is the first one `create` accepts among the de-duplicated list (["cpu"] for a "migan" model, else the caller's list with "cpu" appended when missing), the session and provider are both present or both null, and the caller's array is extended in place except for "migan" models |
| ObjectRemoval.FirstSuccessSpec | src/app/lib/objectRemovalProcessing.ts:359-393 | no provider is used exactly when every `create` fails; otherwise the provider used succeeded and every provider before it failed |
| ObjectRemoval.ProvidersTried | src/app/lib/objectRemovalProcessing.ts:347-357 | the list tried is ["cpu"] for a "migan" model; otherwise it contains "cpu", has no duplicates, starts with the caller's first provider, and is the caller's list itself when that already held "cpu" once per provider |
| ObjectRemoval.DefaultProvidersTried | src/app/lib/objectRemovalProcessing.ts:334-357 | with the default ["webgpu", "cpu"] a model other than "migan" tries "webgpu" then "cpu" and uses the first that `create` accepts |
| ImageProcessing.TargetSize | src/app/lib/imageProcessing.ts:289-302 | without a preset the canvas keeps the image's size; with one it takes the preset's width, and its height when that is set and non-zero |
| ImageProcessing.TargetSizeKeepsAspect | src/app/lib/imageProcessing.ts:295-298 | without a preset height the output height is within half a pixel of width · imgHeight / imgWidth |
| ImageProcessing.TargetSizeOfSameWidth | src/app/lib/imageProcessing.ts:293-302 | a preset with the image's own width and no height reproduces the image's size exactly |
| ImageProcessing.JpegQuality | src/app/lib/imageProcessing.ts:355 | the quality is 0.85 without a preset and preset.quality / 100 with one |
| ImageProcessing.ChannelBounds | src/app/lib/imageProcessing.ts:69-82 | every pixel's channel lies between the running minimum and maximum of that channel |
| ImageProcessing.ChannelExtremesAttained | src/app/lib/imageProcessing.ts:69-82 | on a byte buffer with at least one pixel the channel minimum and maximum are values some pixel actually has |
| ImageProcessing.LevelChannel | src/app/lib/imageProcessing.ts:86-96 | the stretched channel value is always a byte |
| ImageProcessing.LevelStretch | src/app/lib/imageProcessing.ts:86-96 | a value within [min, max] is stretched by round((v − min) / (max − min) · 255) without clamping; the minimum goes to 0 and the maximum to 255 |
| ImageProcessing.UnitRatio | src/app/lib/imageProcessing.ts:88 | (v − min) / (max − min) lies in [0, 1] for v in [min, max], and is 0 at the minimum and 1 at the maximum |
| ImageProcessing.ChannelExtremes | src/app/lib/imageProcessing.ts:69-82 | the first loop returns exactly the per-channel minimum (from 255) and maximum (from 0) over all pixels |
| ImageProcessing.CanvasAutoLevel | src/app/lib/imageProcessing.ts:64-100 | the buffer after auto level is the old buffer with every pixel's R, G, B stretched by the extremes of the old buffer; alpha is untouched |
| ImageProcessing.AutoLevelChannel | src/app/lib/imageProcessing.ts:85-97 | channel c of pixel q after auto level is the stretch of its old value by channel c's minimum and maximum |
| ImageProcessing.AutoLevelFlatChannel | src/app/lib/imageProcessing.ts:86-87 | a channel whose minimum equals its maximum keeps every value |
| ImageProcessing.AutoLevelStretches | src/app/lib/imageProcessing.ts:85-97 | in any other channel each value v becomes round((v − min) / (max − min) · 255), the minimum becomes 0 and the maximum 255 |
| ImageProcessing.GammaEntry | src/app/lib/imageProcessing.ts:110 | each entry stored into the Uint8Array table is a byte |
| ImageProcessing.GammaEntryNoWrap | src/app/lib/imageProcessing.ts:110 | for a non-negative power the entry is min(255, round(pow(i / 255, 1 / gamma) · 255)) itself, with no wrap-around |
| ImageProcessing.GammaTable | src/app/lib/imageProcessing.ts:108-111 | the table has 256 entries, all bytes |
| ImageProcessing.GammaOneTable | src/app/lib/imageProcessing.ts:108-111 | with gamma 1 and a power function that fixes x¹ entry i is i |
| ImageProcessing.GammaLookup | src/app/lib/imageProcessing.ts:108-111 | the loop fills a fresh 256-entry array with exactly the gamma table |
| ImageProcessing.CanvasGammaCorrection | src/app/lib/imageProcessing.ts:103-121 | every pixel's R, G, B value v is replaced by table[v]; alpha is untouched |
| ImageProcessing.GammaOneIsIdentity | src/app/lib/imageProcessing.ts:103-121 | gamma 1 with a faithful x¹ leaves the image unchanged |
| ImageProcessing.CanvasBrightnessContrast | src/app/lib/imageProcessing.ts:238-263 | every pixel's R, G, B is brightened, contrasted by the factor of the contrast value and clamped; alpha is untouched |
| ImageProcessing.BrightnessContrastNeutral | src/app/lib/imageProcessing.ts:238-263 | brightness 0 and contrast 0 leave the image unchanged |
| ImageProcessing.CanvasRgbAdjustment | src/app/lib/imageProcessing.ts:266-278 | each channel is multiplied by its own scale and clamped to [0, 255]; alpha is untouched |
| ImageProcessing.RgbScaleNeutral | src/app/lib/imageProcessing.ts:266-278 | scales 1, 1, 1 leave the image unchanged |
| ImageProcessing.CanvasHslAdjustment | src/app/lib/imageProcessing.ts:164-225 | every pixel's R, G, B becomes the HSL-adjusted colour of its old R, G, B; alpha is untouched |
| ImageProcessing.CanvasSharpen | src/app/lib/imageProcessing.ts:124-161 | an amount ≤ 0 leaves the buffer as it was; otherwise the buffer is the sharpened copy with strength min(amount, 2) |
| ImageProcessing.CanvasPipeline | src/app/lib/imageProcessing.ts:330-352 | the Canvas branch, in its order, leaves a byte buffer of the same size whose alpha bytes are all unchanged |
| ImageProcessing.MappedStep | src/app/lib/imageProcessing.ts:330-352 | a per-pixel filter whose colour map yields bytes keeps "byte buffer with the original alpha" from one step of the pipeline to the next |
| Filters.PixelBytes | src/app/lib/imageProcessing.ts:71-74 | every pixel read from a byte buffer has byte channels |
| Filters.ByteOfPixel | src/app/lib/imageProcessing.ts:271-275 | byte k of the buffer is channel k mod 4 of pixel k / 4, the addressing of the `i += 4` loops |
| Filters.MapPixel | src/app/lib/imageProcessing.ts:271-275 | a filtered pixel keeps its alpha; its colour is the colour map of its old colour, or, when transparent pixels are skipped and its alpha is 0, the pixel is unchanged |
| Filters.MapPixels | src/app/lib/imageProcessing.ts:271-275 | the `i += 4` loop leaves every pixel equal to the mapped old pixel |
| Filters.MappedBufferUnique | src/app/lib/imageProcessing.ts:271-275 | the buffer after a filter is determined by the buffer before it |
| Filters.MappedBufferKeepsAlpha | src/app/lib/imageProcessing.ts:271-275 | no per-pixel filter changes a byte at offset 3 of a pixel |
| Filters.MappedBufferSkipsTransparent | src/app/lib/imageProcessingUtils.test.ts:18-19 | when transparent pixels are skipped, a pixel with alpha 0 keeps all four bytes |
| Filters.MappedBufferWrites | src/app/lib/imageProcessing.ts:271-275 | every other pixel gets the colour the map gives for its old colour |
| Filters.MappedBufferBytes | src/app/lib/imageProcessing.ts:271-275 | a colour map that yields bytes keeps the buffer a byte buffer |
| Filters.MappedBufferIdentity | src/app/lib/imageProcessing.ts:271-275 | a colour map that fixes every byte colour leaves the buffer unchanged |
| Filters.Factor | src/app/lib/imageProcessing.ts:243 | the factor is +Infinity exactly at contrast 259; below 259 it is non-negative exactly when contrast ≥ −255 |
| Filters.FactorOfZero | src/app/lib/imageProcessing.ts:243 | contrast 0 gives factor 1 |
| Filters.ContrastStore | src/app/lib/imageProcessing.ts:252-254 | the contrasted value stored into the clamped array is a byte, for a finite and an infinite factor alike |
| Filters.BrightnessContrastChannel | src/app/lib/imageProcessing.ts:247-259 | the channel after brightness, contrast and the final clamp is a byte |
| Filters.ContrastZeroAddsBrightness | src/app/lib/imageProcessing.ts:247-259 | with contrast 0 and an integral brightness a channel becomes v + brightness clamped to [0, 255] |
| Filters.BrightnessContrastIdentity | src/app/lib/imageProcessing.ts:247-259 | brightness 0 and contrast 0 leave every byte as it is |
| Filters.FinalClampIsRedundant | src/app/lib/imageProcessing.ts:257-259 | the final max/min clamp never changes a value already stored into the clamped array |
| Filters.ScaleChannel | src/app/lib/imageProcessing.ts:272-274 | a scaled channel is a byte |
| Filters.ScaleByOne | src/app/lib/imageProcessing.ts:272-274 | scale 1 leaves a byte unchanged |
| Filters.ScaleExact | src/app/lib/imageProcessing.ts:272-274 | an integral product within [0, 255] is stored exactly |
| Hsl.Trunc | src/app/lib/imageProcessingUtils.test.ts:90 | Math.trunc moves a number toward zero by less than 1 |
| Hsl.JsRem | src/app/lib/imageProcessing.ts:200 | JavaScript's `%` by a positive modulus keeps the sign of the dividend and is smaller than the modulus in magnitude |
| Hsl.WrapIsFrac | src/app/lib/imageProcessing.ts:200-201 | wrapping by `% 1` and adding 1 to a negative result is taking the fractional part |
| Hsl.RgbToHsl | src/app/lib/imageProcessing.ts:174-197 | the hue lies in [0, 1), saturation and lightness in [0, 1]; the saturation is 0 exactly for a grey pixel, whose hue is 0 and whose lightness is its channel value over 255 |
| Hsl.HueToRgb | src/app/lib/imageProcessing.ts:228-236 | for p ≤ q and a hue offset in [-1, 2] the channel lies between p and q |
| Hsl.Lerp | src/app/lib/imageProcessing.ts:231 | p + (q − p) · w lies between p and q for a weight in [0, 1] |
| Hsl.UpperPivot | src/app/lib/imageProcessing.ts:211-212 | for saturation and lightness in [0, 1] the pivots satisfy 0 ≤ p = 2l − q ≤ q ≤ 1 |
| Hsl.HslToRgb | src/app/lib/imageProcessing.ts:206-217 | a colour with every component in its unit range converts to channels in [0, 1]; a grey converts to three channels equal to its lightness |
| Hsl.GreyRoundTrip | src/app/lib/imageProcessing.ts:208-209 | a zero-saturation colour converts back with all three channels equal to its lightness |
| Hsl.StoreUnit | src/app/lib/imageProcessing.ts:219-221 | `Math.round(x * 255)` stored into the clamped array is a byte, and for x in [0, 1] it is the rounded value itself, with no clamping |
| Hsl.StoreRgb | src/app/lib/imageProcessing.ts:219-221 | the three stored channels form a byte colour |
| Hsl.AdjustCanvas | src/app/lib/imageProcessing.ts:199-203 | the adjusted hue lies in [0, 1) and saturation and lightness are clamped into [0, 1] |
| Hsl.AdjustCanvasHueIsFrac | src/app/lib/imageProcessing.ts:169-201 | the Canvas hue shift adds (hue − 100) / 100 turns modulo one turn |
| Hsl.AdjustTest | src/app/lib/imageProcessingUtils.test.ts:89-98 | the test variant's hue lies in [0, 1); saturation and lightness are scaled and only capped at 1, so a scaled value up to 1 is kept exactly |
| Hsl.AdjustTestHueIsFrac | src/app/lib/imageProcessingUtils.test.ts:58-91 | the test variant's hue shift adds (hue − 100) · 3.6 / 360 turns modulo one turn |
| Convolution.PixelInImage | src/app/lib/imageProcessing.ts:142 | pixel (x, y) of a width × height image starts at byte (y · width + x) · 4, inside the buffer |
| Convolution.PixelIndexInjective | src/app/lib/imageProcessing.ts:142 | distinct coordinates address distinct pixels |
| Convolution.TapAt | src/app/lib/imageProcessing.ts:150-151 | the neighbour (x + kx, y + ky) of an interior pixel is read at byte ((y + ky) · width + (x + kx)) · 4 + c, inside the buffer |
| Convolution.KernelAt | src/app/lib/imageProcessing.ts:133-137 | kernel entry (ky + 1) · 3 + (kx + 1) is 1 + 4s at the centre, −s at the four edges and 0 at the corners |
| Convolution.WindowAt | src/app/lib/imageProcessing.ts:147-153 | the byte the loops read for (ky, kx) is window entry (ky + 1) · 3 + (kx + 1) |
| Convolution.ProductsTotal | src/app/lib/imageProcessing.ts:133-153 | the nine kernel products add up to the centre times 1 + 4s minus s times the four edge neighbours |
| Convolution.KernelComplete | src/app/lib/imageProcessing.ts:145-153 | the nine products in the loops' order add up to the sharpen sum of the pixel |
| Convolution.KernelSum | src/app/lib/imageProcessing.ts:145-153 | the nested ky/kx loops leave in `sum` exactly (1 + 4s) · centre − s · (left + right + up + down) over the snapshot |
| Convolution.TapProduct | src/app/lib/imageProcessing.ts:149-151 | one inner step yields the snapshot byte times the kernel weight for that neighbour |
| Convolution.ClampedSum | src/app/lib/imageProcessing.ts:155 | the stored sum is a byte, and a whole sum within [0, 255] is stored as itself |
| Convolution.SharpenedPixel | src/app/lib/imageProcessing.ts:140-158 | a sharpened pixel is a byte pixel with its old alpha; border pixels and skipped transparent pixels are unchanged |
| Convolution.ByteOfXY | src/app/lib/imageProcessing.ts:142 | every byte of the image is channel k mod 4 of some pixel (x, y) |
| Convolution.SharpenedBufferUnique | src/app/lib/imageProcessing.ts:124-161 | the sharpened buffer is determined by the buffer before it |
| Convolution.SharpenedBufferBytes | src/app/lib/imageProcessing.ts:155 | sharpening keeps a byte buffer a byte buffer |
| Convolution.SharpenedBufferKeepsAlpha | src/app/lib/imageProcessing.ts:144 | no alpha byte is written: only channels 0 to 2 are processed |
| Convolution.SharpenedBufferBorder | src/app/lib/imageProcessing.ts:140-141 | the first and last rows and columns are left exactly as they were |
| Convolution.SharpenedBufferInterior | src/app/lib/imageProcessing.ts:140-158 | every interior pixel that is not skipped gets, in each of R, G, B, the clamped kernel sum over the old buffer |
| Convolution.SharpenFlat | src/app/lib/imageProcessing.ts:133-155 | where the centre and its four edge neighbours agree, sharpening reproduces the value whatever the strength |
| Convolution.Convolve | src/app/lib/imageProcessing.ts:140-158 | the row and column loops, reading only the snapshot, turn the buffer into the sharpened snapshot |
| Convolution.ConvolvePixel | src/app/lib/imageProcessing.ts:142-156 | one column-loop body sets pixel (x, y) to its sharpened value and changes no other pixel |
| ImageProcessingUtils.ApplyBrightnessContrast | src/app/lib/imageProcessingUtils.test.ts:6-36 | brightness 0 and contrast 0 return with the buffer unchanged; otherwise every pixel (except skipped transparent ones) is brightened, contrasted and clamped |
| ImageProcessingUtils.ApplyHslAdjustment | src/app/lib/imageProcessingUtils.test.ts:47-118 | hue, saturation and lightness all 100 return with the buffer unchanged; otherwise every pixel (except skipped transparent ones) gets the test variant's HSL adjustment |
| ImageProcessingUtils.ApplyRgbAdjustment | src/app/lib/imageProcessingUtils.test.ts:120-138 | scales 1, 1, 1 return with the buffer unchanged; otherwise every pixel (except skipped transparent ones) is scaled channel by channel and clamped |
| ImageProcessingUtils.TestStrength | src/app/lib/imageProcessingUtils.test.ts:156 | the test kernel's strength is at most 4 and is 2 · amount for amounts up to 2 |
| ImageProcessingUtils.CopyBuffer | src/app/lib/imageProcessingUtils.test.ts:150-153 | the copy loop yields a fresh array equal to the buffer |
| ImageProcessingUtils.ApplySharpen | src/app/lib/imageProcessingUtils.test.ts:140-185 | an amount ≤ 0 leaves the buffer unchanged; otherwise the buffer is the sharpened copy with strength min(2 · amount, 4), skipping transparent pixels when asked |
| ImageProcessingUtils.BrightnessTestValues | src/app/lib/imageProcessingUtils.test.ts:210-224 | brightness 50 with contrast 0 turns (100, 150, 200) into (150, 200, 250) |
| ImageProcessingUtils.ContrastTestChanges | src/app/lib/imageProcessingUtils.test.ts:226-240 | contrast 50 changes every channel of (100, 150, 200) |
| ImageProcessingUtils.ContrastStoreNear | src/app/lib/imageProcessingUtils.test.ts:27-29 | a contrasted value strictly inside (lo, hi) is stored within half a step of that interval |
| ImageProcessingUtils.TestColourHsl | src/app/lib/imageProcessingUtils.test.ts:65-87 | the test colour (100, 150, 200) has hue 7/12, saturation 10/21 and lightness 10/17 |
| ImageProcessingUtils.HueTestChanges | src/app/lib/imageProcessingUtils.test.ts:260-278 | hue 150 turns (100, 150, 200) into (200, 150, 100), so the pixel changes |
| ImageProcessingUtils.SaturationTestChanges | src/app/lib/imageProcessingUtils.test.ts:280-298 | saturation 150 turns (100, 150, 200) into (75, 150, 225), so the pixel changes |
| ImageProcessingUtils.LightnessTestBrighter | src/app/lib/imageProcessingUtils.test.ts:300-313 | lightness 150 turns (100, 150, 200) into (211, 225, 239), whose channel sum exceeds 450 |
| ImageProcessingUtils.RgbScaleTestValues | src/app/lib/imageProcessingUtils.test.ts:332-347 | scales 1.5, 0.5, 2 turn (100, 150, 200) into (150, 75, 255) |
| ImageProcessingUtils.CheckerboardSharpen | src/app/lib/imageProcessingUtils.test.ts:364-389 | on the checkerboard with amount 2 a dark interior pixel among light neighbours goes to 0 and a light one among dark neighbours to 255 |
| WatermarkControl.HandleInputChange | src/app/components/WatermarkControl.tsx:79-115 | the changed field holds the new value and every other field but `enabled` and `type` is copied; a type change sets that type and enables; text forces type text; a non-null logo forces type logo; a shared setting enables and, when no type is set, takes the open tab; enabling keeps the type and disabling clears it; a null logo or a logo file changes only that field |
| WatermarkControl.DefaultSettingsAreOff | src/app/components/WatermarkControl.tsx:24-35 | the defaults are disabled with no type, text "BatchShots.com", opacity 0.5, size 10 and position bottom right |
| WatermarkControl.ChangeKeepsInvariant | src/app/components/WatermarkControl.tsx:79-115 | every change keeps "a disabled watermark has no type" |
| WatermarkControl.ChangeIsIdempotent | src/app/components/WatermarkControl.tsx:79-115 | repeating a change has no further effect |
| WatermarkControl.EnableAloneLeavesNoType | src/app/components/WatermarkControl.tsx:100-106 | ticking `enabled` on the defaults switches the watermark on without choosing a type |
| WatermarkControl.AddTypeTabSwitch | src/app/components/WatermarkControl.tsx:117-122 | the tab always changes; the settings change to that type (and enabled) only when the watermark is on or the logo tab is chosen with a logo loaded, otherwise they stay as they were |
| WatermarkControl.HandleLogoUpload | src/app/components/WatermarkControl.tsx:64-72 | a read logo sets type logo, enables the watermark, stores the data URL and the file, and opens the logo tab |
| WatermarkControl.ChangesKeepInvariant | src/app/components/WatermarkControl.tsx:79-115 | any sequence of changes from a state with the invariant keeps it |
| GoogleTrends.CategoryNamesDistinct | src/app/lib/googleTrends.ts:79-95 | the five category names are distinct and none of them is "ecommerce" |
| GoogleTrends.Matched | src/app/lib/googleTrends.ts:88-92 | the matched list has at most one entry per table row visited, each a category name of those rows |
| GoogleTrends.Categorize | src/app/lib/googleTrends.ts:73-99 | the result is never empty and always ends with "ecommerce" |
| GoogleTrends.MatchCategories | src/app/lib/googleTrends.ts:88-92 | the forEach loop pushes exactly the matching categories of the table, in table order |
| GoogleTrends.AnalyzeDescription | src/app/lib/googleTrends.ts:73-99 | analyzeDescription returns the matching categories of the fixed table followed by "ecommerce" |
| GoogleTrends.MatchedSpec | src/app/lib/googleTrends.ts:88-92 | with distinct names, a category is listed exactly when one of its keywords occurs, and listed categories keep the table order |
| GoogleTrends.MatchedMembers | src/app/lib/googleTrends.ts:89-90 | a category is pushed if and only if some keyword of it is a substring of the description |
| GoogleTrends.MatchedInOrder | src/app/lib/googleTrends.ts:88-92 | the pushed categories appear in the order of the table |
| GoogleTrends.CategorizeSpec | src/app/lib/googleTrends.ts:73-99 | a category is listed exactly when one of its words occurs in the lower-cased description; the listed ones keep the order fashion, electronics, home, beauty, outdoors; "ecommerce" is last and only there; nothing repeats; there are 1 to 6 entries |
| GoogleTrends.CategorizeIgnoresCase | src/app/lib/googleTrends.ts:76 | lower-casing the description first does not change the categories |
| GoogleTrends.Pool | src/app/lib/googleTrends.ts:113 | a known category draws from its TRENDING_KEYWORDS_BY_CATEGORY list, any other from the empty list |
| GoogleTrends.PoolsFrom | src/app/lib/googleTrends.ts:112-128 | the pools drawn from are one per category, in order, then the seasonal list, then the general list |
| GoogleTrends.GetRandomItems | src/app/lib/googleTrends.ts:65-68 | the result has min(count, length) items and is a prefix of the shuffled copy |
| GoogleTrends.RandomItemsFromArray | src/app/lib/googleTrends.ts:65-68 | the picked items are a sub-multiset of the array: every pick is an item of it, none more often than it occurs |
| GoogleTrends.CategoryPicks | src/app/lib/googleTrends.ts:112-118 | at most three picks per category |
| GoogleTrends.AllPicks | src/app/lib/googleTrends.ts:112-128 | at most three picks per category plus two seasonal and two general |
| GoogleTrends.SimulatedKeywords | src/app/lib/googleTrends.ts:130-133 | the result repeats nothing and holds exactly the keywords that were picked |
| GoogleTrends.CollectPicks | src/app/lib/googleTrends.ts:109-128 | the push loop collects three picks per category, then two seasonal, then two general, in that order |
| GoogleTrends.SimulatedTrendingKeywords | src/app/lib/googleTrends.ts:104-134 | getSimulatedTrendingKeywords returns the de-duplicated picks from the pools of the description's categories |
| GoogleTrends.CategoryPicksFromPools | src/app/lib/googleTrends.ts:112-118 | every category pick comes from that category's pool |
| GoogleTrends.AllPicksFromPools | src/app/lib/googleTrends.ts:112-128 | every pick comes from one of the pools |
| GoogleTrends.PicksFromTables | src/app/lib/googleTrends.ts:108-133 | for any tables, the de-duplicated picks number at most 3 per category plus 4 and each comes from a category pool or from the seasonal or general list |
| GoogleTrends.SimulatedKeywordsSpec | src/app/lib/googleTrends.ts:104-134 | the simulated keywords repeat nothing, number at most 3 per category plus 4, and each comes from a relevant category's pool, SEASONAL_TRENDS or GENERAL_TRENDS |
| GoogleTrends.TrendsApiCache.constructor | src/app/lib/googleTrends.ts:7 | the module cache starts empty |
| GoogleTrends.TrendsApiCache.GetApi | src/app/lib/googleTrends.ts:140-162 | the API is available exactly when it was cached or, in a browser, the import succeeds; a successful import is cached |
| GoogleTrends.TrendsCategoryId | src/app/lib/googleTrends.ts:187-204 | the id is the mapping's entry for the lower-cased category, or 0 when there is none |
| GoogleTrends.TrendsCategoryIdZeroIffUnknown | src/app/lib/googleTrends.ts:204 | the id is 0 exactly when the lower-cased category is not in the mapping |
| GoogleTrends.Score | src/app/lib/googleTrends.ts:237 | a missing value gives score 0, a present one is kept |
| GoogleTrends.TopItems | src/app/lib/googleTrends.ts:234 | the visited items are the first min(limit, length) items, in order |
| GoogleTrends.ToKeywords | src/app/lib/googleTrends.ts:234-239 | one keyword per item, in order, with the item's query and score |
| GoogleTrends.RealKeywords | src/app/lib/googleTrends.ts:171-249 | a result exists only when the API is available and the first ranked list has its keywords; it then holds 1 to limit keywords, the first ones of that list with their scores; an available API with a non-empty first list and a positive limit always yields one; every other case (no API, rejection, timeout, falsy result, empty list) gives null |
| GoogleTrends.RealTrendingKeywords | src/app/lib/googleTrends.ts:171-249 | the push loop returns exactly RealKeywords of the outcome, and the cache holds the API afterwards exactly when it was available |
| GoogleTrends.ToKeywordsAppend | src/app/lib/googleTrends.ts:234-239 | pushing one more item appends its keyword |
| GoogleTrends.SkipWhitespace | src/app/lib/googleTrends.ts:269 | the rest after a leading whitespace run is a suffix starting with a non-whitespace character, and everything skipped is whitespace |
| GoogleTrends.Hyphenate | src/app/lib/googleTrends.ts:269 | the result contains no whitespace, and a string without whitespace is unchanged |
| GoogleTrends.HyphenateKeepsCharacters | src/app/lib/googleTrends.ts:269 | every character of the result is a character of the input or a hyphen |
| GoogleTrends.HyphenateJoins | src/app/lib/googleTrends.ts:269 | two words separated by any whitespace run come out joined by exactly one hyphen |
| GoogleTrends.HyphenateRun | src/app/lib/googleTrends.ts:269 | a whitespace run in front of a word becomes a single hyphen |
| GoogleTrends.FormatKeyword | src/app/lib/googleTrends.ts:268-270 | a formatted keyword has no whitespace and no upper-case letter |
| GoogleTrends.FormatKeywordIdempotent | src/app/lib/googleTrends.ts:268-270 | formatting a formatted keyword changes nothing |
| GoogleTrends.FormatKeywordJoinsWords | src/app/lib/googleTrends.ts:268-270 | two lower-case words with whitespace between them come out as the two words joined by one hyphen |
| GoogleTrends.FormatAll | src/app/lib/googleTrends.ts:268-270 | one formatted string per keyword, in order |
| GoogleTrends.FirstRealResult | src/app/lib/googleTrends.ts:263-275 | a result is never empty, and on the server with nothing cached there is none |
| GoogleTrends.TrendingResult | src/app/lib/googleTrends.ts:255-285 | without a real result the answer is the simulated keywords; with one it is non-empty and free of whitespace |
| GoogleTrends.FirstRealKeywords | src/app/lib/googleTrends.ts:263-275 | the category loop returns the first non-empty real result, trying categories in order |
| GoogleTrends.TrendingKeywords | src/app/lib/googleTrends.ts:255-285 | getTrendingKeywords returns the first category's real keywords, formatted, or else the simulated keywords |
| GoogleTrends.ServerAlwaysSimulates | src/app/lib/googleTrends.ts:146-150 | on the server the API never loads, so the keywords are always the simulated ones |
| GoogleTrends.FirstCategoryWithQueriesWins | src/app/lib/googleTrends.ts:263-274 | when every earlier category's request failed and category k yields queries, the result is category k's first five queries |
| ImageFormatConverter.HexDigit | src/app/utils/imageFormatConverter.ts:28 | a digit of `toString(16)` is 0-9 or a lower-case a-f |
| ImageFormatConverter.ToHex | src/app/utils/imageFormatConverter.ts:28 | `byte.toString(16)` of a byte has one or two digits |
| ImageFormatConverter.PadStart2 | src/app/utils/imageFormatConverter.ts:28 | `padStart(2, "0")` of one or two digits has exactly two characters |
| ImageFormatConverter.PaddedToStringIsHexByte | src/app/utils/imageFormatConverter.ts:28 | the padded `toString(16)` of a byte is its two hex digits, high then low, with a leading 0 below 16 |
| ImageFormatConverter.Hex | src/app/utils/imageFormatConverter.ts:27-29 | the header string is two characters per byte read |
| ImageFormatConverter.Unhex | src/app/utils/imageFormatConverter.ts:27-29 | reading the hex string back pairs up its digits: half as many bytes as characters |
| ImageFormatConverter.DigitRoundTrip | src/app/utils/imageFormatConverter.ts:28 | a hex digit reads back as its value |
| ImageFormatConverter.UnhexHex | src/app/utils/imageFormatConverter.ts:27-29 | reading back the header string gives the bytes it was made from |
| ImageFormatConverter.HexInjective | src/app/utils/imageFormatConverter.ts:27-29 | different byte sequences give different header strings |
| ImageFormatConverter.HexConcat | src/app/utils/imageFormatConverter.ts:27-29 | `join("")`: the header of two byte runs is the concatenation of their headers |
| ImageFormatConverter.HexSlice | src/app/utils/imageFormatConverter.ts:27-29 | digits 2i to 2j of the header are the header of bytes i to j |
| ImageFormatConverter.HeaderBytes | src/app/utils/imageFormatConverter.ts:26 | `file.slice(0, 12)` gives the first min(12, size) bytes of the file |
| ImageFormatConverter.IsHeicFormat | src/app/utils/imageFormatConverter.ts:4-42 | a .heic/.heif name in any case or an image/heic or image/heif type is HEIC at once; otherwise the library's answer decides; when the library throws and the file cannot be read the answer is false |
| ImageFormatConverter.HexAt | src/app/utils/imageFormatConverter.ts:28 | digit 2m of the header is byte m's high nibble and digit 2m + 1 its low nibble |
| ImageFormatConverter.ShiftedOccurrence | src/app/utils/imageFormatConverter.ts:32-36 | a signature whose nibbles straddle consecutive bytes occurs in the header string at digit 1 |
| ImageFormatConverter.MisalignedHeaderNibbles | src/app/utils/imageFormatConverter.ts:33 | the eight-byte header 06 67 47 97 06 86 56 90 carries the first signature's nibbles shifted by one digit, and neither of its first two bytes is 0x66 |
| ImageFormatConverter.MisalignedMatch | src/app/utils/imageFormatConverter.ts:26-36 | such a header passes the hex test although no signature's bytes occur in it |
| ImageFormatConverter.MisalignedSignatureMatch | src/app/utils/imageFormatConverter.ts:26-36 | when the name and type say nothing and the library throws, a file holding that header is reported as HEIC although it has no "ftyp" brand |
| ImageFormatConverter.SignatureHex | src/app/utils/imageFormatConverter.ts:33-35 | each of the three hex signatures is the hex of "ftyphe" followed by the brand byte i, j or v |
| ImageFormatConverter.HexEqual | src/app/utils/imageFormatConverter.ts:27-29 | two byte runs have the same header string exactly when they are equal |
| ImageFormatConverter.AlignedOccurrence | src/app/utils/imageFormatConverter.ts:32-36 | a byte run occurs at byte i exactly when its hex occurs at digit 2i |
| ImageFormatConverter.AlignedSignature | src/app/utils/imageFormatConverter.ts:32-36 | a signature's bytes occur at byte i exactly when its hex occurs at digit 2i |
| ImageFormatConverter.BrandIffAlignedMatch | src/app/utils/imageFormatConverter.ts:32-36 | the header holds a signature's bytes exactly when a hex signature occurs at an even digit, and then the as-written test passes too |
| ImageFormatConverter.IsHeicFormatByBrand | src/app/utils/imageFormatConverter.ts:4-42 | the byte-aligned check accepts only what the as-written check accepts; in the header fallback it says HEIC exactly when the first 12 bytes hold "ftyphe" and a brand byte; elsewhere it agrees with the as-written check |
| ImageFormatConverter.HeicOutputName | src/app/utils/imageFormatConverter.ts:61 | a trailing .heic or .heif in any case is replaced by "." + format; any other name is unchanged |
| ImageFormatConverter.ConvertHeicToFormat | src/app/utils/imageFormatConverter.ts:45-67 | the result is null exactly when the conversion fails; otherwise it carries the renamed file name, MIME "image/" + format and the converted bytes |
| ImageFormatConverter.OutputName | src/app/utils/imageFormatConverter.ts:128-132 | the new name ends with "." + targetFormat; a name without a dot gets it appended; otherwise the text before the last dot is kept |
| ImageFormatConverter.OutputNameIdempotent | src/app/utils/imageFormatConverter.ts:128-132 | for a format without a dot, renaming a renamed file changes nothing |
| ImageFormatConverter.LastIndexOfIs | src/app/utils/imageFormatConverter.ts:130 | the last dot is the one with no dot after it |
| ImageFormatConverter.HeicNamesAgree | src/app/utils/imageFormatConverter.ts:61 | for a .heic/.heif name the HEIC renaming and the generic renaming give the same name |
| ImageFormatConverter.TargetMimeType | src/app/utils/imageFormatConverter.ts:113 | the type is "image/" followed by the target format |
| ImageFormatConverter.JpgTargetMimeDisagrees | src/app/utils/imageFormatConverter.ts:70-75 | the "jpg" entry gets "image/jpg" instead of its listed "image/jpeg"; the other three entries get their listed types |
| ImageFormatConverter.ListedIdsDistinct | src/app/utils/imageFormatConverter.ts:70-75 | the four listed ids are distinct |
| ImageFormatConverter.LookupMimeType | src/app/utils/imageFormatConverter.ts:70-75 | the lookup finds nothing exactly when no entry has the id, and otherwise returns a matching entry's MIME type |
| ImageFormatConverter.ListedMimeType | src/app/utils/imageFormatConverter.ts:70-75 | a listed id gets its listed type; any other id gets "image/" + id |
| ImageFormatConverter.ListedMimeTypeFixesOnlyJpg | src/app/utils/imageFormatConverter.ts:70-75 | the corrected type differs from the as-written one only for "jpg", which becomes "image/jpeg" |
| ImageFormatConverter.ListedFormatNamesStable | src/app/utils/imageFormatConverter.ts:128-132 | renaming to any listed format ends with "." + id and is stable under repetition |
| ImageFormatConverter.BinaryStringToBytes | src/app/utils/imageFormatConverter.ts:117-121 | the loop fills a fresh array of one byte per character with each character code kept to its low 8 bits |
| ImageFormatConverter.BinaryCharsAreBytes | src/app/utils/imageFormatConverter.ts:117-121 | for the characters below 256 that `atob` yields, each byte is the character code itself |
| ImageFormatConverter.DataUrlPayload | src/app/utils/imageFormatConverter.ts:117 | with a comma the payload is the second part of `split(",")` |
| ImageFormatConverter.ConvertImageFormat | src/app/utils/imageFormatConverter.ts:78-140 | HEIC input always goes to the HEIC converter; otherwise a file results exactly when the data URL exists and decodes, and it is named by the last-dot rule, typed "image/" + targetFormat, and holds one byte per decoded character |
| SitemapConfig.SiteUrl | next-sitemap.config.js:3 | a set, non-empty SITE_URL is used; otherwise https://www.batchshots.com |
| SitemapConfig.FindFrom | next-sitemap.config.js:79 | the search finds the first occurrence of the pattern at or after the start, or reports that there is none |
| SitemapConfig.ReplaceFirst | next-sitemap.config.js:79 | a string-pattern `replace` leaves a string without the pattern unchanged |
| SitemapConfig.AlternateRefs | next-sitemap.config.js:11-44 | one alternate per locale, in the order en, de, nl, fr, pl, cs, ru, uk |
| SitemapConfig.Transform | next-sitemap.config.js:47-106 | a path starting with /api/, /_next/, /404 or /500 gives null and every other path an entry with changefreq weekly and the current lastmod; a localised path keeps its loc and priority 0.7 with the alternates of its base path; "/" gets priority 1.0 with the alternates of the empty path; any other path keeps loc and priority 0.7 and has no alternates |
| SitemapConfig.TemplateHref | next-sitemap.config.js:78-81 | with no "{" in the site URL, replacing "{path}" in a locale's href template gives siteUrl + "/" + locale + path |
| SitemapConfig.FindFirst | next-sitemap.config.js:79 | a pattern whose first character does not occur earlier is found where it occurs |
| SitemapConfig.AlternateHrefs | next-sitemap.config.js:78-81 | alternate i of a path is siteUrl + "/" + locale i + path, with hreflang locale i |
| SitemapConfig.LocalePathNotExcluded | next-sitemap.config.js:49-58 | no path beginning with a locale segment is excluded |
| SitemapConfig.SplitAtSlash | next-sitemap.config.js:64 | splitting a + "/" + b, with no slash in a, gives a then the parts of b |
| SitemapConfig.SegmentParts | next-sitemap.config.js:64 | the non-empty segments of "/" + l + "/" + rest are l followed by those of rest |
| SitemapConfig.LocalePathParts | next-sitemap.config.js:64-70 | "/" + locale + "/" + rest is localised, and its base path is "/" followed by rest's segments joined by "/" |
| SitemapConfig.LanguageVariantsShareAlternates | next-sitemap.config.js:61-82 | every language variant of a page lists the same alternates, those of the page without its locale segment |
| SitemapConfig.LocalizedEntry | next-sitemap.config.js:67-82 | a localised page keeps its loc, gets priority 0.7 and the alternates of its base path |
| SitemapConfig.HomePage | next-sitemap.config.js:86-97 | "/" gets priority 1.0 and its alternate i points to siteUrl + "/" + locale i |
| SitemapConfig.LocalizedPage | next-sitemap.config.js:67-82 | a one-segment localised page such as /de/pricing links the same segment under every locale |
| WorkerDeviceDetector.DeviceMemory | src/app/utils/workerDeviceDetector.js:10-18 | the reported memory is used when present and non-zero, and 4 GB otherwise (also without a navigator); the result is never 0 |
| WorkerDeviceDetector.HardwareConcurrency | src/app/utils/workerDeviceDetector.js:24-29 | the reported core count is used when present and non-zero, and 4 otherwise; the result is at least 1 |
| WorkerDeviceDetector.IsMobileDevice | src/app/utils/workerDeviceDetector.js:35-46 | no navigator means not mobile; otherwise mobile exactly when the user agent names a mobile platform (case-insensitively) or a touch device has a screen narrower than 768 |
| WorkerDeviceDetector.CheckWebGpu | src/app/utils/workerDeviceDetector.js:52-62 | WebGPU counts as available exactly when an adapter is returned; no gpu, no adapter or a throw all give false |
| WorkerDeviceDetector.TierOf | src/app/utils/workerDeviceDetector.js:76-91 | mobile is ultra-low; a desktop under 4 GB or 4 cores is low; WebGPU with 8 GB or more is high; medium exactly for the remaining desktops |
| WorkerDeviceDetector.DeviceResourceTier | src/app/utils/workerDeviceDetector.js:68-92 | every mobile device gets ultra-low, and a context without a navigator gets medium (4 GB, 4 cores, no WebGPU) |
| WorkerDeviceDetector.TierMonotone | src/app/utils/workerDeviceDetector.js:80-91 | on a desktop, more memory, more cores or gaining WebGPU never lowers the tier |
| WorkerDeviceDetector.OptimalWasmThreads | src/app/utils/workerDeviceDetector.js:98-109 | at most 4 threads; 1 on mobile; half the cores, rounded down and capped at 4, on a desktop |
| WorkerDeviceDetector.OneCoreDesktopGetsNoThreads | src/app/utils/workerDeviceDetector.js:107-108 | a single-core desktop is given 0 WASM threads |
| WorkerDeviceDetector.IPhoneIsUltraLow | src/app/utils/workerDeviceDetector.js:39-77 | an iPhone user agent puts the device in the ultra-low tier whatever the other readings are |
| WorkerModelConfig.FastVlmConfigs | src/app/utils/workerModelConfig.js:11-45 | the preset table holds exactly the tiers ultra-low, low, medium and high |
| WorkerModelConfig.FastVlmConfigForTier | src/app/utils/workerModelConfig.js:61-63 | a tier in the table gets its own preset, any other name the low preset |
| WorkerModelConfig.FastVlmConfigForDevice | src/app/utils/workerModelConfig.js:51-54 | every detected tier has a preset, so the device lookup agrees with the per-tier lookup; a mobile device gets the ultra-low preset |
| WorkerModelConfig.UltraLowIsLow | src/app/utils/workerModelConfig.js:16-28 | the ultra-low and low presets are identical, all three parts q4f16 |
| WorkerModelConfig.SizesRange | src/app/utils/workerModelConfig.js:71-98 | every size in the table lies between 136 and 992 MB |
| WorkerModelConfig.SizeOr | src/app/utils/workerModelConfig.js:100-102 | since no size is 0, the default is used exactly for a key missing from the table |
| WorkerModelConfig.EstimateModelSize | src/app/utils/workerModelConfig.js:70-105 | the estimate is the embed size plus the "vision_" size plus the "decoder_" size, with defaults 272, 253 and 317 for unknown dtypes |
| WorkerModelConfig.EstimateRange | src/app/utils/workerModelConfig.js:70-105 | any configuration is estimated between 408 and 2976 MB |
| WorkerModelConfig.LowPresetEstimate | src/app/utils/workerModelConfig.js:13-28 | the low and ultra-low presets are estimated at 807 MB, as their comments say |
| WorkerModelConfig.MediumPresetEstimate | src/app/utils/workerModelConfig.js:31-36 | the medium preset is estimated at 842 MB, as its comment says |
| WorkerModelConfig.HighPresetEstimate | src/app/utils/workerModelConfig.js:39-44 | the high preset is estimated at 1517 MB, the "~1.5 GB" of its comment |
| WorkerModelConfig.UnknownTierEstimate | src/app/utils/workerModelConfig.js:61-63 | an unknown tier name is estimated like the low preset, at 807 MB |
| WorkerModelConfig.GenericConfigs | src/app/utils/workerModelConfig.js:116-129 | the generic table holds exactly low, medium and high |
| WorkerModelConfig.GenericModelConfig | src/app/utils/workerModelConfig.js:113-132 | a given non-empty tier is looked up as is; without one the detected tier is used, and the result is missing exactly when that tier is ultra-low |
| WorkerModelConfig.MobileDetectionFindsNoGenericConfig | src/app/utils/workerModelConfig.js:114-131 | on a detected mobile device the lookup returns nothing |
| WorkerModelConfig.GenericModelConfigForDevice | src/app/utils/workerModelConfig.js:113-132 | a detected tier always yields a configuration, ultra-low getting the low row; otherwise it agrees with the lookup as written |
| WorkerModelConfig.GenericConfigTable | src/app/utils/workerModelConfig.js:116-129 | low is q4 quantised, medium q8 quantised, high fp16 unquantised, and ultra-low has no row |
| RouteCommon.RecaptchaPasses | src/app/api/seo-names/route.ts:21-63 | the captcha passes exactly when the secret key is set and non-empty, the siteverify call answers OK with success, and the score (0 when absent) reaches the route's threshold |
| RouteCommon.ScorelessAnswerFails | src/app/api/seo-names/route.ts:53-57 | with a positive threshold, a successful answer that carries no score fails |
| RouteCommon.ThresholdMonotone | src/app/api/seo-product-description/route.ts:56-57 | a higher threshold never admits an answer a lower one rejects, so what passes the names route's 0.5 also passes the description route's 0.1 |
| RouteCommon.LanguageOrDefault | src/app/api/seo-names/route.ts:108 | a non-empty language is passed on as given; otherwise "en" |
| SeoNamesRoute.VerifyRecaptcha | src/app/api/seo-names/route.ts:21-63 | this route's captcha check passes exactly when the key is set, the answer is successful and the score is at least 0.5 |
| SeoNamesRoute.Count | src/app/api/seo-names/route.ts:104 | an absent or zero count, or an empty or non-numeric string, becomes 10; any other value is its numeric value |
| SeoNamesRoute.Post | src/app/api/seo-names/route.ts:65-129 | an unreadable body gives 500; then no description gives 400, no token 400 and a failed captcha 403, in that order; an admitted request gets 200 with the names, or 500 with the error's message; no cookie is set |
| SeoNamesRoute.PostStatuses | src/app/api/seo-names/route.ts:65-129 | 200 exactly when every check passes and Gemini answers with an array; 400 exactly for a missing description or token; 403 exactly for a failed captcha; any other outcome is 500 |
| SeoNamesRoute.CountDefaults | src/app/api/seo-names/route.ts:104 | no count, the number 0, an empty string or a non-numeric string give 10; a non-empty numeric string gives its value |
| SeoNamesRoute.ZeroTextCountGivesNoNames | src/app/api/seo-names/route.ts:104-118 | the string "0" is not replaced by 10, so an admitted request sending it gets 200 with no names |
| SeoNamesRoute.NamesWithinCount | src/app/api/seo-names/route.ts:104-118 | a successful response holds at most as many names as a non-negative integral count asks for |
| SeoProductDescriptionRoute.VerifyRecaptcha | src/app/api/seo-product-description/route.ts:21-63 | this route's captcha check passes exactly when the key is set, the answer is successful and the score is at least 0.1 |
| SeoProductDescriptionRoute.StoredUsage | src/app/api/seo-product-description/route.ts:86-101 | the usage is dated today, with the cookie's count when the cookie parses and is dated today, and 0 otherwise |
| SeoProductDescriptionRoute.ReadUsage | src/app/api/seo-product-description/route.ts:160-175 | reading the cookie step by step gives the stored usage for the given day |
| SeoProductDescriptionRoute.CountedUsage | src/app/api/seo-product-description/route.ts:177-179 | the record written back is dated today and counts one more use than the stored one |
| SeoProductDescriptionRoute.Remaining | src/app/api/seo-product-description/route.ts:180 | the remaining count is 5 minus the uses, floored at 0 |
| SeoProductDescriptionRoute.Rejection | src/app/api/seo-product-description/route.ts:69-148 | a request is turned away exactly when it is not admitted: 401 signed out, 429 for a free user with 5 or more uses today, 500 for an unreadable body, 400 without a description or token, 403 for a failed captcha, in that order |
| SeoProductDescriptionRoute.Generated | src/app/api/seo-product-description/route.ts:150-215 | a failed generation gives 500 with its message; a pro user gets 200 with the description only; a free user also gets the remaining count, isPro false and a 24-hour cookie counting one more use |
| SeoProductDescriptionRoute.Post | src/app/api/seo-product-description/route.ts:66-217 | the handler returns the rejection of a rejected request, and for an admitted one what Generated makes of the Gemini reply on the date read after generation |
| SeoProductDescriptionRoute.AtMostFiveUsesPerDay | src/app/api/seo-product-description/route.ts:84-204 | however many requests a free user sends in one day, keeping the cookies set, at most 5 descriptions (less today's recorded count) are generated |
| SeoProductDescriptionRoute.AllowanceIsUsedUp | src/app/api/seo-product-description/route.ts:84-204 | when every request succeeds, the free user gets exactly the smaller of the number of requests and the remaining allowance |
| SeoProductDescriptionRoute.StaleCookieResets | src/app/api/seo-product-description/route.ts:88-101 | a cookie from another day or one that does not parse counts as no use; the next success records 1 and leaves 4 |
| SeoProductDescriptionRoute.MidnightRequestStartsNewDay | src/app/api/seo-product-description/route.ts:159-179 | since the date is read again after generation, a request admitted before midnight records a count of 1 for the new day |
| Gemini.LanguageName | src/app/lib/gemini.ts:18-28 | the name is one of the eight listed; any code the switch does not know gives English |
| Gemini.LanguageNameTable | src/app/lib/gemini.ts:19-28 | each of the eight codes gets the name of its own case |
| Gemini.LanguageNamesDistinct | src/app/lib/gemini.ts:141-151 | no two cases of the switch assign the same name |
| Gemini.LanguageCode | src/app/lib/gemini.ts:19-28 | the code recovered from a listed name is one of the known codes |
| Gemini.LanguageNameRoundTrip | src/app/lib/gemini.ts:19-28 | a known code is recovered from the name it maps to |
| Gemini.UnknownLanguageIsEnglish | src/app/lib/gemini.ts:141-151 | an unknown code, the empty one included, gets the same name as "en" |
| Gemini.NatText | src/app/lib/gemini.ts:33 | a non-negative integral count renders as decimal digits without leading zeros |
| Gemini.NatTextRoundTrip | src/app/lib/gemini.ts:33 | reading the rendered digits back gives the count |
| Gemini.IntText | src/app/lib/gemini.ts:43 | an integral count renders with a leading minus exactly when it is negative |
| Gemini.IntTextRoundTrip | src/app/lib/gemini.ts:47 | the count is read back from its rendering in the prompt, so the rendering loses nothing |
| Gemini.SeoNamesPrompt | src/app/lib/gemini.ts:16-49 | the prompt holds the count right after its opening sentence and ends with the instruction naming the language and repeating the count |
| Gemini.InstructionNamesLanguage | src/app/lib/gemini.ts:47 | the closing instruction names the language in which the model must answer |
| Gemini.NamesPromptStatesCountAndLanguage | src/app/lib/gemini.ts:31-48 | the names prompt contains both the requested count and the language's name |
| Gemini.SeoProductDescriptionPrompt | src/app/lib/gemini.ts:139-178 | the prompt starts with the fixed copywriting body and ends with the instruction naming the language |
| Gemini.WithDescription | src/app/lib/gemini.ts:62 | the request text starts with the prompt and ends with the user's description |
| Gemini.InitGemini | src/app/lib/gemini.ts:4-13 | initialisation fails with the missing-key error exactly when the key is unset or empty, and otherwise uses that key |
| Gemini.ReplyJson | src/app/lib/gemini.ts:99-131 | the reply is usable exactly when the key is set, the call answers, the text is non-empty and parses; a missing key, a throwing call and an empty text each give their own error |
| Gemini.Trunc | src/app/lib/gemini.ts:126 | slice converts its bound by truncation toward zero |
| Gemini.SliceEnd | src/app/lib/gemini.ts:126 | the end index of slice(0, count) lies within the array; a non-negative bound is capped at the length and a negative one counts back from the end |
| Gemini.GenerateSeoImageNames | src/app/lib/gemini.ts:52-136 | the result is a list exactly when the parsed reply is a JSON array; earlier failures pass through; a reply that is not an array is reported as a parse failure; the names are the reply's leading elements |
| Gemini.ImageNamesArePrefix | src/app/lib/gemini.ts:125-126 | with a non-negative integral count the names are the first min(count, n) elements of the reply, in order |
| Gemini.GenerateSeoProductDescription | src/app/lib/gemini.ts:193-301 | the result is the parsed reply, unchecked, exactly when the key is set, the call answers and the text is non-empty and parses; a parse failure gives its own error |
| Gemini.MissingKeyFailsFirst | src/app/lib/gemini.ts:4-13 | an empty or missing key fails both generate functions before any request, whatever the reply |
| Middleware.Route | src/middleware.ts:14-29 | a pathname bypasses the locale middleware exactly when it starts with /api, /trpc or /models or contains a dot; every other pathname goes to it |
| Middleware.PrefixesBypass | src/middleware.ts:18-25 | everything under /api, /trpc and /models bypasses, whatever follows the prefix |
| Middleware.RawPrefixBypass | src/middleware.ts:19 | the prefix test is on the raw string, so /apiary bypasses too |
| Middleware.DottedPathsBypass | src/middleware.ts:22 | any pathname containing a dot bypasses |
| Middleware.PagesGoToIntl | src/middleware.ts:27-28 | a page path such as /de/pricing, and "/", reach the locale middleware |
| Bytes.Clamp255 | src/app/lib/imageProcessingUtils.test.ts:32-34 | the clamp lies in 0..255 and leaves values already in range unchanged |
| Bytes.MathRound | src/app/lib/imageProcessingUtils.test.ts:114-116 | Math.round gives the integer within one half of its argument, halves going up |
| Bytes.Store | src/app/lib/imageProcessingUtils.test.ts:27-29 | a store into a clamped byte array yields a byte: 0 at or below 0, 255 at or above 255, and within one half of the value in between |
| Bytes.StoreOfByte | src/app/lib/imageProcessingUtils.test.ts:32-34 | storing a value that is already a byte leaves it unchanged |
| Bytes.StoreOfClamped | src/app/lib/imageProcessingUtils.test.ts:134 | clamping before a clamped store changes nothing |
| Bytes.Wrap256 | src/app/utils/imageFormatConverter.ts:117-121 | a store into a plain byte array yields a byte and leaves a byte unchanged |
| Strings.Lower | src/app/lib/googleTrends.ts:76 | lower-casing keeps the length and lower-cases each character on its own |
| Strings.LowerIdempotent | src/app/lib/googleTrends.ts:76 | lower-casing twice is the same as lower-casing once |
| Strings.LastIndexOf | src/app/utils/imageFormatConverter.ts:130 | the index of the last dot is missing exactly when there is no dot; otherwise a dot sits there and none after it |
| Strings.Split | next-sitemap.config.js:64 | split always yields at least one part |
| Strings.NonEmpty | next-sitemap.config.js:64 | filtering keeps only non-empty parts, and never more parts than there were |
| Strings.SplitPartsFree | next-sitemap.config.js:64 | no part that split yields contains the separator |
| Strings.JoinSplit | next-sitemap.config.js:64-70 | joining the parts split yields gives back the original string |
| Strings.SplitJoin | next-sitemap.config.js:64-70 | splitting a join of separator-free parts gives back the parts |
| Strings.Dedupe | src/app/lib/googleTrends.ts:131 | the set-based dedupe has no duplicates, keeps exactly the same elements and is no longer than its input |
| Strings.DedupeOfDistinct | src/app/lib/googleTrends.ts:131 | a list without duplicates passes through unchanged |
| Strings.DedupeKeepsFirstOccurrenceOrder | src/app/lib/googleTrends.ts:131 | kept elements come in the order of their first occurrences |
| Strings.DedupeKeepsHead | src/app/lib/googleTrends.ts:131 | the first element of a non-empty list stays first |

## Left out

- Floating point: numbers are exact reals, so IEEE rounding in the contrast factor, the HSL conversion, auto-level's division and the mask's 1.5·G comparison is not modelled. The clamped byte store's rounding is modelled exactly.
- ImageProcessing.GammaTable: entries are stated in terms of the `pow` parameter; the values of `Math.pow` itself are not modelled.
- The OpenCV path of `processImage` (`processWithOpenCV`, `hasOpenCVFunction`) and the drawing, scaling and encoding calls of the canvas (`drawImage`, `getImageData`, `toDataURL`, `toBlob`) are not part of this model. Their results enter as parameters where the core uses them.
- `canvas.toDataURL` with a type the browser cannot encode returns a PNG data URL. The data URL is a parameter, so this fallback is not modelled.
- ObjectRemoval.TensorToImageData: takes the data, its Float32 flag and the output height and width directly. Reading them from `dims` (a shape with fewer than four entries, a channel count other than 3, which the source only logs) is not modelled; SelectOutputTensor models the check that data and shape are present.
- The ONNX Runtime session object, the model run and tensor creation are outside the model. `create` stands for `InferenceSession.create` succeeding or failing for a provider; the error logged when every provider fails is not modelled.
- GoogleTrends.GetRandomItems: the biased `sort(() => 0.5 - Math.random())` shuffle is a permutation parameter, so the distribution of picks is not modelled, only that they come from a permutation.
- GoogleTrends.RealTrendingKeywords: the API error, the 5-second timeout race and a failing `JSON.parse` are folded into one rejected outcome. The outer catch of `getTrendingKeywords`, which returns the simulated keywords, is reached only when a ranked item has no string `query`: such an item is kept with an undefined keyword, and the later `keyword.toLowerCase()` throws outside the inner try. The model types `RankedItem.query` as a string, so it leaves such items, and this path, out.
- `categoryMapping[category.toLowerCase()]` on a key inherited from `Object.prototype` (such as "constructor") is not modelled: the model maps every key outside the table to 0, where JavaScript would find the inherited member.
- Strings.Lower: `toLowerCase` is modelled for ASCII letters only; other characters are left unchanged.
- SitemapConfig.ReplaceFirst: the `$` replacement patterns of `String.prototype.replace` are not interpreted. The alternates are stated for base paths as the locale split produces them.
- Request bodies are modelled with string fields that are either present or absent. JSON numbers, booleans, arrays or objects in `description`, `baseDescription`, `recaptchaToken` or `language` are not modelled; `imageCount` is absent, a number or a string.
- SeoProductDescriptionRoute.AtMostFiveUsesPerDay: assumes the cookie does not record a negative count. A hand-edited cookie with a negative count, or a non-number count (which `+= 1` would concatenate), gets more than five uses; this is modelled as written by StoredUsage.
- SeoProductDescriptionRoute.Post: `auth()` or `checkProStatus` throwing (which the outer catch turns into 500) is not modelled; the signed-in user and pro status are parameters.
- Gemini.SeoNamesPrompt: takes the count already rendered as text. Only integral counts are rendered (Gemini.IntText); how a fractional count is printed is not modelled.
- The request sent to Gemini (model name, response schema, safety settings) and the SDK call are outside the model; its reply is a parameter.
- Logging (`console.log`/`console.error`) is left out throughout.
- WatermarkControl.AddTypeTabSwitch: the handler reads the settings from its render's closure; it is modelled on the current settings, so a stale closure is not modelled. The FileReader that produces the logo's data URL is a parameter.
- Middleware.Route: the Clerk wrapper, the locale middleware's own behaviour and the `config.matcher` patterns that decide whether the middleware runs at all are not modelled.
- The Python duplicate finder (`duplicate.py`) is left out. Its metrics are floating-point numerics over a pretrained network and OpenCV, none of which is visible.
- `MiganObjectRemoval.tsx` is not part of this model: it is commented out and duplicates `objectRemovalProcessing.ts`.
- The model and worker helpers, the background-removal and captioning workers, the Stripe and Clerk routes, the sitemap.xml route and the React pages other than the watermark updater are not part of this model.

## Findings

| source | as written | input that shows it | evidently intended | confidence | as-written member | corrected member |
|---|---|---|---|---|---|---|
| src/app/utils/workerModelConfig.js:113-131 | without a tier, the detected tier is looked up in a table with rows only for low, medium and high | any mobile device: detection yields "ultra-low", and the lookup returns undefined | a configuration for every detected tier, with ultra-low served like low (as `getFastVLMConfigForTier` does) | not executed; medium | WorkerModelConfig.MobileDetectionFindsNoGenericConfig | WorkerModelConfig.GenericModelConfigForDevice |
| src/app/utils/imageFormatConverter.ts:26-36 | the `ftyp` signatures are searched for at any offset of the hex string, including odd offsets that straddle two bytes | header bytes 06 67 47 97 06 86 56 90 render as "0667479706865690", which holds "66747970686569" at offset 1 though no byte sequence "ftyphei" is present | match the brand on byte boundaries, that is in the bytes themselves | not executed; high | ImageFormatConverter.MisalignedSignatureMatch | ImageFormatConverter.IsHeicFormatByBrand |
| src/app/utils/imageFormatConverter.ts:113 | the MIME type is "image/" followed by the target id | target "jpg" gives "image/jpg", while the format table at lines 70-75 lists "image/jpeg" | the listed MIME type of the target format | not executed; medium | ImageFormatConverter.JpgTargetMimeDisagrees | ImageFormatConverter.ListedMimeType |

The corrected definitions are proved to agree with the code everywhere except on the inputs above: `BrandIffAlignedMatch` and `ListedMimeTypeFixesOnlyJpg`. `ConvertImageFormat` and `IsHeicFormat` keep the behaviour as written, so that the converter models the code as it runs.
