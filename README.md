# Image editor core, modelled in Dafny

This project models the image-data layer of a browser image editor written in
JavaScript and React, and proves properties of that model. The modelled parts are:

- the GrayBit-7 raster format: a 12-byte header, then one byte per pixel holding
  a 7-bit grey level and a mask bit. The model covers its signature check,
  decoder, encoder and file-info reader;
- the three resamplers: nearest neighbour, bilinear and bicubic (Keys kernel,
  a = -0.5), all over RGBA buffers with clamp-to-edge reads;
- the colour-depth heuristic over an RGBA buffer;
- the `rgb(r, g, b)` parser, the WCAG 2.1 contrast ratio and rating, and the
  GrayBit-7 colour display text;
- the file-name and data-URL helpers of the image loader;
- the hand tool: the rule that keeps 50 px of the image on the canvas, and its
  keyboard and mouse handlers;
- the layer stack: the hook that owns it, and the layers panel's add, delete,
  property, fill, reset, drag-and-drop and alpha-mask operations;
- the resize dialog: validation, the aspect lock with its preset table, the
  target size and the dispatch to a resampler;
- the editor page: the undo/redo history, zoom clamping, the transparency scan
  before GrayBit-7 export and the file-size unit;
- the test-pattern generator used to compare the resamplers.

Each source file is one module: `GrayBit7`, `Interpolation`, `InterpolationTest`,
`ColorDepth`, `ColorConversions`, `ImageLoader`, `CanvasKeyHand`, `Layers`,
`LayersPanel`, `ScalingModal` and `Editor`. `Common` adds what they share: the
option type, bytes, RGBA image data, rounding, decimal text and index
arithmetic.

Loops that fill byte buffers are methods over arrays. Each is proved equal to a
function that gives the value at every index, and the properties are lemmas
about those functions. This applies to encode, decode, the resamplers, the
colour-depth scan, the test pattern and the alpha mask.

State that the source updates in place is a class whose methods have
`modifies` clauses:

- `Layers.LayerStore`, the layer hook;
- `ScalingModal.ScalingDialog`, the dialog's fields;
- `Editor.History`, the undo history;
- `CanvasKeyHand.HandTool`, the hand-tool position.

JavaScript's `Math.round(x)` is `floor(x + 1/2)`. On a quotient of naturals it
is modelled exactly as `(2n + d) div (2d)`. Other floating-point arithmetic is
modelled with exact reals.

## Model

| member | source | states |
|---|---|---|
| GrayBit7.IsGrayBit7 | src/utils/ImageFormats/GrayBit7.js:25-40 | true exactly when the buffer holds at least the 12 header bytes and starts with the signature 47 42 37 1D |
| GrayBit7.GetUint16BE | src/utils/ImageFormats/GrayBit7.js:59-61 | a big-endian 16-bit read is below 65536 |
| GrayBit7.SetUint16BE | src/utils/ImageFormats/GrayBit7.js:146-150 | a big-endian 16-bit write is two bytes that read back as the value modulo 65536 |
| GrayBit7.Gray8 | src/utils/ImageFormats/GrayBit7.js:163 | the grey level is the rounded mean of R, G and B: three times it is within 1 of their sum |
| GrayBit7.Gray7 | src/utils/ImageFormats/GrayBit7.js:166 | the 7-bit level lies in 0..127 and is the rounding of gray * 127 / 255 |
| GrayBit7.Expand | src/utils/ImageFormats/GrayBit7.js:91 | the 8-bit level is the rounding of q * 255 / 127 |
| GrayBit7.QuantizeExpand | src/utils/ImageFormats/GrayBit7.js:85-91 | quantising an expanded 7-bit level gives it back |
| GrayBit7.ExpandQuantize | src/utils/ImageFormats/GrayBit7.js:163-166 | expanding a quantised 8-bit level is within 1 of it |
| GrayBit7.PayloadByte | src/utils/ImageFormats/GrayBit7.js:169-175 | the low 7 bits are the quantised grey level; the top bit is set exactly when the mask is included and alpha exceeds 127 |
| GrayBit7.Header | src/utils/ImageFormats/GrayBit7.js:137-150 | the header is 12 bytes long |
| GrayBit7.Encoding | src/utils/ImageFormats/GrayBit7.js:126-181 | the buffer is 12 header bytes plus one byte per pixel |
| GrayBit7.Encode | src/utils/ImageFormats/GrayBit7.js:126-181 | the loop writes exactly the header and the payload byte of every pixel |
| GrayBit7.EncodingHeader | src/utils/ImageFormats/GrayBit7.js:137-150 | the encoding starts with the signature, version 1, the mask flag and the big-endian width, height and zero reserve |
| GrayBit7.EncodingPayload | src/utils/ImageFormats/GrayBit7.js:153-178 | byte 12 + i of the encoding is the payload byte of pixel i |
| GrayBit7.EncodeWhiteSquare | src/utils/ImageFormats/GrayBit7.js:126-181 | a 2 x 2 opaque white image encodes to the 12-byte header followed by four bytes 0x7F |
| GrayBit7.DecodedPixels | src/utils/ImageFormats/GrayBit7.js:81-105 | the decoded buffer holds four bytes per pixel |
| GrayBit7.Decode | src/utils/ImageFormats/GrayBit7.js:47-118 | the loop decodes exactly as the specification function, errors included |
| GrayBit7.DecodeFailures | src/utils/ImageFormats/GrayBit7.js:48-77 | each error (bad signature, unsupported version, too little data, a width or height of 0 rejected by `new ImageData`) is raised exactly when its condition holds and the earlier checks pass; the decode succeeds exactly when none applies |
| GrayBit7.DecodedHeader | src/utils/ImageFormats/GrayBit7.js:55-117 | a successful decode reports the header's version, mask flag, width and height (both at least 1) and the buffer size |
| GrayBit7.DecodedEmptySide | src/utils/ImageFormats/GrayBit7.js:72-77 | every version-1 header with a side of 0 is rejected by `new ImageData`, whatever the payload length |
| GrayBit7.EmptySideRejected | src/utils/ImageFormats/GrayBit7.js:72-77 | a header of width 0 and height 5 with no payload passes the length check and is rejected by `new ImageData` |
| GrayBit7.DecodedPixel | src/utils/ImageFormats/GrayBit7.js:81-105 | each decoded pixel is grey, expanded from the low 7 bits, opaque unless the mask is set and its bit is clear |
| GrayBit7.TrailingBytesIgnored | src/utils/ImageFormats/GrayBit7.js:69-82 | bytes after the payload change nothing but the reported size |
| GrayBit7.RoundTripHeader | src/utils/ImageFormats/GrayBit7.js:47-181 | decoding the encoding of an image with sides from 1 to 65535 succeeds and returns the image's width, height and mask flag |
| GrayBit7.RoundTripPixel | src/utils/ImageFormats/GrayBit7.js:47-181 | decoding an encoding returns, per pixel, the expanded quantised grey level and the thresholded alpha |
| GrayBit7.ReencodeByte | src/utils/ImageFormats/GrayBit7.js:153-178 | re-encoding a decoded pixel gives back its byte (the top bit when the mask is in use) |
| GrayBit7.ReencodeDecoded | src/utils/ImageFormats/GrayBit7.js:47-181 | re-encoding a decoded image reproduces each payload byte |
| GrayBit7.PayloadOfEncoding | src/utils/ImageFormats/GrayBit7.js:153-178 | the payload read back from an encoding is the encoded pixel byte |
| GrayBit7.GetFileInfo | src/utils/ImageFormats/GrayBit7.js:199-216 | no information exactly when the signature check fails; otherwise the header fields and the sizes |
| GrayBit7.FileInfoMatchesDecode | src/utils/ImageFormats/GrayBit7.js:199-216 | the file information agrees with the metadata of a successful decode |
| Interpolation.ClampToByte | src/utils/ImageProcessing/InterpolationMethods.js:43 | a value in 0..255 is rounded to the nearest byte; values below 0 store 0 and above 255 store 255 |
| Interpolation.ClampToByteBetween | src/utils/ImageProcessing/InterpolationMethods.js:43 | a value between two bytes is stored as a byte between them |
| Interpolation.Nearest | src/utils/ImageProcessing/InterpolationMethods.js:125-150 | no image when a target side is 0 (ImageData refuses it), otherwise an image of the requested size |
| Interpolation.NearestNeighborInterpolation | src/utils/ImageProcessing/InterpolationMethods.js:125-150 | the nested loops write exactly the nearest-neighbour image |
| Interpolation.NearestPixel | src/utils/ImageProcessing/InterpolationMethods.js:132-145 | one pass of the inner loop writes the four channels of one output pixel |
| Interpolation.CentreSource | src/utils/ImageProcessing/InterpolationMethods.js:132-137 | the source pixel chosen for an output pixel lies inside the source |
| Interpolation.NearestIndexIsFloor | src/utils/ImageProcessing/InterpolationMethods.js:132 | rounding the shifted source coordinate equals the floor division ((2x + 1) * size) / (2 * newSize) |
| Interpolation.NearestCopiesSource | src/utils/ImageProcessing/InterpolationMethods.js:132-145 | every output channel is the source channel at the source pixel whose span holds the output pixel's centre |
| Interpolation.NearestIdentity | src/utils/ImageProcessing/InterpolationMethods.js:125-150 | resampling to the same size copies the image |
| Interpolation.NearestFromEmpty | src/utils/ImageProcessing/InterpolationMethods.js:144 | a source with no pixels reads `|| 0` everywhere, so the output is all zero |
| Interpolation.BilinearFootprint | src/utils/ImageProcessing/InterpolationMethods.js:15-30 | the fractions lie in [0, 1) and the two neighbour columns and rows lie inside the image, at most one apart |
| Interpolation.Bilinear | src/utils/ImageProcessing/InterpolationMethods.js:8-49 | no image when a target side is 0, otherwise an image of the requested size |
| Interpolation.BilinearInterpolation | src/utils/ImageProcessing/InterpolationMethods.js:8-49 | the nested loops write exactly the bilinear image |
| Interpolation.BilinearPixel | src/utils/ImageProcessing/InterpolationMethods.js:15-43 | one pass of the inner loop writes the four channels of one output pixel |
| Interpolation.BilinearValueBetween | src/utils/ImageProcessing/InterpolationMethods.js:38-41 | the four weights are non-negative and sum to 1, so the value lies between the smallest and largest neighbour |
| Interpolation.BilinearBetweenNeighbours | src/utils/ImageProcessing/InterpolationMethods.js:27-43 | every output channel lies between the smallest and largest of its four source neighbours |
| Interpolation.BilinearUniform | src/utils/ImageProcessing/InterpolationMethods.js:8-49 | a channel with one value everywhere keeps that value |
| Interpolation.BilinearIdentity | src/utils/ImageProcessing/InterpolationMethods.js:8-49 | resampling to the same size copies the image |
| Interpolation.CubicKernel | src/utils/ImageProcessing/InterpolationMethods.js:63-71 | the kernel is 1 at 0, 0 at plus and minus 1, 0 outside (-2, 2), and even |
| Interpolation.CubicAtInteger | src/utils/ImageProcessing/InterpolationMethods.js:63-71 | at an integer the kernel is 1 for 0 and 0 for every other integer |
| Interpolation.CubicPartition | src/utils/ImageProcessing/InterpolationMethods.js:63-71 | the four kernel weights of one axis sum to 1 wherever the sample falls |
| Interpolation.Bicubic | src/utils/ImageProcessing/InterpolationMethods.js:58-116 | no image when a target side is 0, otherwise an image of the requested size |
| Interpolation.BicubicInterpolation | src/utils/ImageProcessing/InterpolationMethods.js:58-116 | the nested loops write exactly the bicubic image as the source computes it |
| Interpolation.ReadTap | src/utils/ImageProcessing/InterpolationMethods.js:88-102 | reads the clamped tap and returns its kernel weight |
| Interpolation.BicubicTaps | src/utils/ImageProcessing/InterpolationMethods.js:82-106 | the 4 x 4 tap loops accumulate the weighted sum and the sum of weight magnitudes |
| Interpolation.BicubicPixel | src/utils/ImageProcessing/InterpolationMethods.js:81-111 | one pass of the inner loop writes the four channels of one output pixel |
| Interpolation.TapIsClamped | src/utils/ImageProcessing/InterpolationMethods.js:93-100 | both branches of the tap read give the source pixel at the position clamped into the image |
| Interpolation.AxisPartition | src/utils/ImageProcessing/InterpolationMethods.js:63-71 | the signed weights along one axis sum to 1 |
| Interpolation.AxisAbsAtLeastOne | src/utils/ImageProcessing/InterpolationMethods.js:104 | the weight magnitudes along one axis sum to at least 1 |
| Interpolation.NeighbourhoodSums | src/utils/ImageProcessing/InterpolationMethods.js:86-106 | the sixteen signed weights sum to 1 and their magnitudes sum to the product of the axis magnitude sums |
| Interpolation.TapAbsSumAtLeastOne | src/utils/ImageProcessing/InterpolationMethods.js:109 | weightSum is at least 1, so the branch that stores 0 is never taken |
| Interpolation.UniformSum | src/utils/ImageProcessing/InterpolationMethods.js:86-106 | on a uniform channel the weighted sum is the channel's value |
| Interpolation.BicubicUniform | src/utils/ImageProcessing/InterpolationMethods.js:102-110 | on a uniform channel the output is the value divided by the sum of the weight magnitudes |
| Interpolation.BicubicUniformAtMost | src/utils/ImageProcessing/InterpolationMethods.js:102-110 | a uniform channel never comes out brighter |
| Interpolation.HalfAbsSum | src/utils/ImageProcessing/InterpolationMethods.js:104 | midway between four pixels the weight magnitudes sum to 1.5625 |
| Interpolation.BicubicDarkensWhiteSquare | src/utils/ImageProcessing/InterpolationMethods.js:102-110 | shrinking a 2 x 2 white image to 1 x 1 gives the value 163 in every channel, alpha included |
| Interpolation.BicubicNormalized | src/utils/ImageProcessing/InterpolationMethods.js:58-116 | bicubic resampling normalised by the signed weight sum; no image when a target side is 0, otherwise the requested size |
| Interpolation.BicubicNormalizedUniform | src/utils/ImageProcessing/InterpolationMethods.js:102-110 | normalised by the signed weights, a uniform channel keeps its value |
| Interpolation.BicubicNormalizedWhiteSquare | src/utils/ImageProcessing/InterpolationMethods.js:102-110 | with that normalisation the 2 x 2 white image shrinks to a white pixel |
| Interpolation.TapWeightAtInteger | src/utils/ImageProcessing/InterpolationMethods.js:102 | on a source pixel centre only the tap on that pixel has a weight, and it is 1 |
| Interpolation.BicubicSameSizeChannel | src/utils/ImageProcessing/InterpolationMethods.js:76-110 | at the source's own size each output channel is the source channel, for both normalisations |
| Interpolation.BicubicIdentity | src/utils/ImageProcessing/InterpolationMethods.js:58-116 | resampling to the same size with the weights as written copies the image |
| Interpolation.BicubicNormalizedIdentity | src/utils/ImageProcessing/InterpolationMethods.js:58-116 | the corrected bicubic resampler also copies the image at the same size |
| InterpolationTest.TestPattern | src/utils/ImageProcessing/InterpolationTest.js:12-54 | no image when a side is 0, otherwise an image of the requested size |
| InterpolationTest.CreateTestPattern | src/utils/ImageProcessing/InterpolationTest.js:12-54 | the row and column loops write exactly the pattern image |
| InterpolationTest.PaintPixel | src/utils/ImageProcessing/InterpolationTest.js:18-49 | one pass of the inner loop leaves the pixel with the colour of the last rule that applies to it |
| InterpolationTest.PatternPixel | src/utils/ImageProcessing/InterpolationTest.js:16-51 | every channel of the generated image is the pattern's channel for that pixel |
| InterpolationTest.PatternIsOpaque | src/utils/ImageProcessing/InterpolationTest.js:26-48 | every alpha byte of the pattern is 255, so the image has no transparent pixel |
| InterpolationTest.DiagonalIsBlue | src/utils/ImageProcessing/InterpolationTest.js:44-49 | pixels with abs(x - y) <= 2 are blue, over every other rule |
| InterpolationTest.BandIsRed | src/utils/ImageProcessing/InterpolationTest.js:36-41 | pixels off the diagonal with height / 2 - 5 <= y <= height / 2 + 5 are red |
| InterpolationTest.BoardColours | src/utils/ImageProcessing/InterpolationTest.js:21-33 | the remaining pixels are white when the sum of the square indices is even and black otherwise |
| InterpolationTest.DefaultBandRows | src/utils/ImageProcessing/InterpolationTest.js:12-41 | at the default height of 100 the band covers rows 45 to 55 |
| InterpolationTest.TestAllInterpolationMethods | src/utils/ImageProcessing/InterpolationTest.js:63-127 | runs the three resamplers on the same image; each result has the requested size and is that resampler's image |
| ColorDepth.EstimateBits | src/utils/ImageAnalysis/colorDepth.js:121-130 | the estimate lies in 1..8 and is the least b with uniqueCount <= 2^b, 8 when no b up to 7 suffices |
| ColorDepth.EstimateBitsMonotone | src/utils/ImageAnalysis/colorDepth.js:121-130 | more distinct values never give fewer bits |
| ColorDepth.EstimateBitsLeast | src/utils/ImageAnalysis/colorDepth.js:121-130 | any bit count b in 1..8 with uniqueCount <= 2^b is at least the estimate |
| ColorDepth.ValuesMembers | src/utils/ImageAnalysis/colorDepth.js:76-89 | a byte is in a channel's value set exactly when some scanned pixel has it in that channel |
| ColorDepth.ValuesBounds | src/utils/ImageAnalysis/colorDepth.js:76-89 | a channel's value set has at most one value per pixel and at most 256 values |
| ColorDepth.KindLabel | src/utils/ImageAnalysis/colorDepth.js:143-155 | the label of the kind of depth is non-empty and does not end in A |
| ColorDepth.DescriptionRule | src/utils/ImageAnalysis/colorDepth.js:139-156 | every description is the total bit count (4 or 3 times the bits per channel), the kind label and an A exactly when there is alpha |
| ColorDepth.GeneralLabel | src/utils/ImageAnalysis/colorDepth.js:140-146 | outside 5, 6 and 8 bits the description is the computed total, the kind label and the alpha mark |
| ColorDepth.FixedLabel | src/utils/ImageAnalysis/colorDepth.js:147-152 | the fixed labels for 5, 6 and 8 bits follow the same rule as the computed ones |
| ColorDepth.DetailedDescription | src/utils/ImageAnalysis/colorDepth.js:165-173 | the detailed description starts with the bits-per-channel text and is longer exactly when there is alpha |
| ColorDepth.DetailedDescriptionNumber | src/utils/ImageAnalysis/colorDepth.js:166 | the detailed description begins with the decimal bits per channel |
| ColorDepth.Summarize | src/utils/ImageAnalysis/colorDepth.js:91-113 | bits per channel is the greatest channel estimate; alpha bits only with transparency; total bits is 3 times bits per channel plus alpha bits, within 3..32; the descriptions follow |
| ColorDepth.CalculateColorDepth | src/utils/ImageAnalysis/colorDepth.js:64-114 | the scan's value sets and flags give the summary; alpha is reported exactly when some alpha is below 255, partial transparency exactly when some alpha is strictly between 0 and 255 |
| ColorDepth.ScanSample | src/utils/ImageAnalysis/colorDepth.js:76-89 | the loop collects each channel's value set and both transparency flags over every pixel |
| ColorDepth.ScanStep | src/utils/ImageAnalysis/colorDepth.js:82-88 | one pixel adds its four channel values to the sets and updates both flags |
| ColorConversions.DigitRun | src/utils/ColorSpaces/colorConversions.js:14 | splits a string into its leading run of digits and the rest, the rest not starting with a digit (the greedy `\d+`) |
| ColorConversions.SkipSpaces | src/utils/ColorSpaces/colorConversions.js:14 | drops the leading run of `\s` characters, leaving a suffix that does not start with one (the greedy `\s*`) |
| ColorConversions.DigitRunOf | src/utils/ColorSpaces/colorConversions.js:14 | a digit run followed by a non-digit is read back exactly |
| ColorConversions.MatchGroups | src/utils/ColorSpaces/colorConversions.js:14-21 | the pattern matches `rgb(R, G, B)` written with digit runs and yields their decimal values |
| ColorConversions.ExtractRgbString | src/utils/ColorSpaces/colorConversions.js:11-22 | reading the `rgb(r, g, b)` text of a colour gives the colour back |
| ColorConversions.ExtractFirstMatch | src/utils/ColorSpaces/colorConversions.js:14-21 | the result is the match at the first position where the pattern matches |
| ColorConversions.ExtractNoMatch | src/utils/ColorSpaces/colorConversions.js:12-15 | with no match anywhere, including the empty string, the result is black (0, 0, 0) |
| ColorConversions.LuminanceRange | src/utils/ColorSpaces/colorConversions.js:137-152 | the luminance weights sum to 1, so luminance lies in [0, 1] when the linearised channels do |
| ColorConversions.ContrastRatio | src/utils/ColorSpaces/colorConversions.js:157-160 | the ratio of the lighter to the darker luminance, each plus 0.05, is at least 1 |
| ColorConversions.RateMonotone | src/utils/ColorSpaces/colorConversions.js:163-172 | a higher ratio never gets a lower WCAG rating |
| ColorConversions.CalculateContrast | src/utils/ColorSpaces/colorConversions.js:133-175 | no result exactly when a colour is missing; otherwise a ratio of at least 1 and the rating of that ratio |
| ColorConversions.ContrastSymmetric | src/utils/ColorSpaces/colorConversions.js:154-160 | swapping the two colours does not change the result |
| ColorConversions.SelfContrast | src/utils/ColorSpaces/colorConversions.js:154-172 | a colour against itself has ratio 1, which rates as insufficient |
| ColorConversions.BlackOnWhite | src/utils/ColorSpaces/colorConversions.js:154-172 | black on white has ratio 21 and rates AAA |
| ColorConversions.ContrastAtMost21 | src/utils/ColorSpaces/colorConversions.js:157-160 | for luminances in [0, 1] the ratio is at most 21 |
| ColorConversions.FormatColorForDisplay | src/utils/ColorSpaces/colorConversions.js:183-195 | empty input gives empty output; the output always starts with the input; other formats get the input unchanged |
| ColorConversions.DisplayShowsStoredLevel | src/utils/ColorSpaces/colorConversions.js:186-191 | for a grey pixel the GrayBit-7 decoder expanded from level q, the text shows q/127 |
| ImageLoader.LastIndexOf | src/utils/ImageFormats/ImageLoader.js:124 | the index of the last occurrence of the character, or -1 when there is none |
| ImageLoader.ToUint32 | src/utils/ImageFormats/ImageLoader.js:124 | `x >>> 0` lies in 0..2^32 - 1 |
| ImageLoader.ExtensionAfterLastDot | src/utils/ImageFormats/ImageLoader.js:123-125 | the extension is the text after the last dot when that dot is not the first character, and empty otherwise (no dot, only a leading dot) |
| ImageLoader.ShiftedStart | src/utils/ImageFormats/ImageLoader.js:124 | the slice start is the index after the last dot, or 2^32 or 2^32 + 1 when the dot is missing or first |
| ImageLoader.ExtensionHasNoDot | src/utils/ImageFormats/ImageLoader.js:123-125 | the extension never holds a dot |
| ImageLoader.ExtensionOfJoin | src/utils/ImageFormats/ImageLoader.js:123-125 | a non-empty name, a dot and a dot-free suffix give that suffix as the extension |
| ImageLoader.ToLower | src/utils/ImageFormats/ImageLoader.js:159 | lower-cases the ASCII capitals and keeps every other character |
| ImageLoader.SupportedHasExtension | src/utils/ImageFormats/ImageLoader.js:158-164 | a supported name has a dot after its first character and a non-empty extension |
| ImageLoader.SupportedByExtension | src/utils/ImageFormats/ImageLoader.js:158-164 | a name with a dot-free extension is supported exactly when the lower-cased extension is in the list |
| ImageLoader.SupportedIgnoresCase | src/utils/ImageFormats/ImageLoader.js:158-164 | the extension check ignores case: .PNG and .gb7 are supported |
| ImageLoader.LoadPathFor | src/utils/ImageFormats/ImageLoader.js:29-53 | the GrayBit-7 path is chosen exactly when the lower-cased extension is gb7 |
| ImageLoader.GrayBit7Routing | src/utils/ImageFormats/ImageLoader.js:29-53 | a name ending in .gb7, in any case, and no other name, goes to the GrayBit-7 decoder |
| ImageLoader.LoadGrayBit7 | src/utils/ImageFormats/ImageLoader.js:61-88 | succeeds exactly when the decode does, with the image's size, the buffer length and the mask-dependent label; otherwise the decoder's message behind the prefix |
| ImageLoader.LoadRejectsEmptySide | src/utils/ImageFormats/ImageLoader.js:61-88 | a GrayBit-7 file with a side of 0 is rejected with the prefix and the `new ImageData` error |
| ImageLoader.LoadLabelFollowsFlag | src/utils/ImageFormats/ImageLoader.js:83 | the label is "8-bit Grayscale+A" exactly when bit 0 of the flag byte is set |
| ImageLoader.FormatIsTableLookup | src/utils/ImageFormats/ImageLoader.js:132-141 | the chain of checks is the first matching prefix of the table, and "Unknown" exactly when no prefix matches |
| ImageLoader.PrefixesExclusive | src/utils/ImageFormats/ImageLoader.js:133-139 | no URL starts with two of the prefixes, so the order of the checks does not matter |
| ImageLoader.IndexOf | src/utils/ImageFormats/ImageLoader.js:149 | the index of the first occurrence of the character, or -1 when there is none |
| ImageLoader.EstimateOfDataURL | src/utils/ImageFormats/ImageLoader.js:148-151 | for a URL with one comma the estimate is three quarters of the payload length, rounded, and 0 exactly when the payload is empty |
| CanvasKeyHand.ConstrainAxis | src/utils/CanvasChange/canvasKeyHand.js:20-36 | an offset that leaves 50 px visible is kept; past the near side the trailing edge is put at 50 px; past the far side the leading edge is put 50 px before it |
| CanvasKeyHand.ConstrainImagePosition | src/utils/CanvasChange/canvasKeyHand.js:2-39 | on each axis an offset that leaves 50 px of the image visible is returned unchanged |
| CanvasKeyHand.AxesIndependent | src/utils/CanvasChange/canvasKeyHand.js:20-36 | the x result depends only on the horizontal inputs and the y result only on the vertical ones |
| CanvasKeyHand.ConstrainAxisVisible | src/utils/CanvasChange/canvasKeyHand.js:20-36 | when canvas and image together span at least 100 px, the result leaves the image visible and constraining again changes nothing |
| CanvasKeyHand.ConstrainAxisOnTinyCanvas | src/utils/CanvasChange/canvasKeyHand.js:20-36 | when they span less than 100 px, an image pushed past the near side lands past the far side and a second constraint moves it again |
| CanvasKeyHand.ConstrainLayerPosition | src/utils/CanvasChange/canvasKeyHand.js:42-83 | the layer's result plus the base offset is the image constraint applied to base plus new offset |
| CanvasKeyHand.LayerAtOriginIsImage | src/utils/CanvasChange/canvasKeyHand.js:42 | with the default base offset (0, 0) a layer is constrained exactly like the image |
| CanvasKeyHand.ArrowShift | src/utils/CanvasChange/canvasKeyHand.js:115-127 | only the four arrow keys give a shift, and each moves along one axis only |
| CanvasKeyHand.HandTool.constructor | src/utils/CanvasChange/canvasKeyHand.js:101-109 | the tool starts at offset (0, 0) and not dragging |
| CanvasKeyHand.HandTool.HandleMouseDown | src/utils/CanvasChange/canvasKeyHand.js:101-105 | a drag starts under the hand tool and nothing else changes |
| CanvasKeyHand.HandTool.HandleMouseUp | src/utils/CanvasChange/canvasKeyHand.js:107-109 | the drag always ends and the position is kept |
| CanvasKeyHand.HandTool.HandleKeyDown | src/utils/CanvasChange/canvasKeyHand.js:111-147 | nothing happens under another tool; Space resets to (0, 0); other non-arrow keys change nothing; an arrow shifts one axis by the step and the 50 px rule is applied |
| CanvasKeyHand.ArrowKeepsVisible | src/utils/CanvasChange/canvasKeyHand.js:111-147 | a keyboard step leaves the image visible when canvas and image span at least 100 px on both axes |
| Layers.BaseLayer | src/hooks/useLayers.js:10-21 | the base layer has id base-layer, name Слой 1, is visible at opacity 100, holds the image and has no alpha channel |
| Layers.FindIndex | src/components/LayersPanel/LayersPanel.jsx:329-330 | the first index whose layer has the id, or -1 when no layer has it |
| Layers.FindLayer | src/hooks/useLayers.js:67 | no layer exactly when no id matches; otherwise the first layer whose id matches |
| Layers.Reverse | src/hooks/useLayers.js:78 | the copy reversed: element i is element length - 1 - i of the stack |
| Layers.DrawableOnly | src/hooks/useLayers.js:79 | keeps only visible layers with data, each taken from the input |
| Layers.DrawableOnlyMembers | src/hooks/useLayers.js:79 | a layer is kept exactly when it is in the input, visible and has data |
| Layers.DrawableOnlyAppend | src/hooks/useLayers.js:78-86 | filtering a concatenation filters each part, in order |
| Layers.PaintOrderSplits | src/hooks/useLayers.js:77-86 | the layers after a split point are painted before the ones ahead of it |
| Layers.LastStoredPaintedFirst | src/hooks/useLayers.js:77-86 | the last stored layer, when drawable, is painted first, so index 0 ends up on top |
| Layers.GetCompositeOperation | src/hooks/useLayers.js:141-153 | multiply, screen and overlay map to themselves, every other mode to source-over |
| Layers.RenderLayer | src/hooks/useLayers.js:90-108 | the layer is drawn with alpha opacity / 100 and its mode's operation; image layers draw their image, colour layers fill with their colour, empty layers draw nothing |
| Layers.FitRect | src/hooks/useLayers.js:116-123 | the drawn rectangle fits inside the canvas, fills it along one side, keeps the image's aspect ratio and is centred |
| Layers.FitBounds | src/hooks/useLayers.js:117-119 | the scale min(cw / iw, ch / ih) fits both sides and fills at least one |
| Layers.CountVisible | src/hooks/useLayers.js:169 | the number of visible layers is at most the number of layers |
| Layers.CountVisibleAll | src/hooks/useLayers.js:169 | the count equals the number of layers exactly when every layer is visible |
| Layers.GetLayersInfo | src/hooks/useLayers.js:166-173 | total is the stack length, visible is at most total, alpha channels are reported exactly when some layer has one, and the active layer is the matching one |
| Layers.LayerStore.constructor | src/hooks/useLayers.js:4-5 | the hook starts with no layers and no active id |
| Layers.LayerStore.InitializeWithImage | src/hooks/useLayers.js:9-47 | exactly one layer, the base layer, which becomes active |
| Layers.LayerStore.AddLayer | src/hooks/useLayers.js:50-53 | the new layer goes on top, the others keep their order, and it becomes the active layer |
| Layers.LayerStore.UpdateLayers | src/hooks/useLayers.js:56-58 | the stack is replaced and the active id is kept |
| Layers.LayerStore.SetActiveLayer | src/hooks/useLayers.js:61-63 | the active id is replaced and the stack is kept |
| Layers.LayerStore.GetActiveLayer | src/hooks/useLayers.js:66-68 | the first layer of the stack with the active id, or none exactly when no layer has that id |
| Layers.LayerStore.RenderLayers | src/hooks/useLayers.js:71-87 | the layers painted are the visible ones with data in reverse storage order, each drawn as RenderLayer says |
| LayersPanel.HandleAddLayer | src/components/LayersPanel/LayersPanel.jsx:37-56 | nothing is added exactly when the stack has reached the cap; otherwise a visible, empty layer at opacity 100 in normal mode named Слой n+1 |
| LayersPanel.AddKeepsCap | src/components/LayersPanel/LayersPanel.jsx:37-56 | adding through the panel never takes a stack within the cap past it |
| LayersPanel.WithoutId | src/components/LayersPanel/LayersPanel.jsx:65 | the layers kept are exactly those of the stack with another id |
| LayersPanel.WithoutIdRemovesOne | src/components/LayersPanel/LayersPanel.jsx:65 | with distinct ids, deleting layer k's id removes layer k only and keeps the order of the rest |
| LayersPanel.WithoutIdKeepsAll | src/components/LayersPanel/LayersPanel.jsx:65 | deleting an id no layer has leaves the stack unchanged |
| LayersPanel.HandleDeleteLayer | src/components/LayersPanel/LayersPanel.jsx:59-72 | the last layer is never deleted; otherwise the layers with that id go, and the first remaining layer becomes active when the active one was deleted |
| LayersPanel.DeleteKeepsOne | src/components/LayersPanel/LayersPanel.jsx:59-72 | deleting one of two or more layers with distinct ids removes exactly it, leaves at least one, and makes the first remaining layer active when the deleted one was active |
| LayersPanel.ToggleVisibility | src/components/LayersPanel/LayersPanel.jsx:75-88 | only the layers with the id change, and only in their visibility, which flips |
| LayersPanel.ToggleVisibilityTwice | src/components/LayersPanel/LayersPanel.jsx:75-88 | toggling visibility twice restores the stack |
| LayersPanel.SetOpacity | src/components/LayersPanel/LayersPanel.jsx:91-102 | only the layers with the id change, and only in their opacity |
| LayersPanel.SetBlendMode | src/components/LayersPanel/LayersPanel.jsx:105-116 | only the layers with the id change, and only in their blend mode |
| LayersPanel.ToggleAlphaChannel | src/components/LayersPanel/LayersPanel.jsx:351-364 | a layer with the id loses its alpha channel when it has one and otherwise gains a visible, empty one; the others are left as they were |
| LayersPanel.ToggleAlphaVisibility | src/components/LayersPanel/LayersPanel.jsx:367-384 | only layers with the id that have an alpha channel change, and only in that channel's visibility |
| LayersPanel.ToggleAlphaVisibilityTwice | src/components/LayersPanel/LayersPanel.jsx:367-384 | toggling the alpha channel's visibility twice restores the stack |
| LayersPanel.DeleteAlphaChannel | src/components/LayersPanel/LayersPanel.jsx:386-393 | the layers with the id lose their alpha channel and nothing else changes |
| LayersPanel.LoadImage | src/components/LayersPanel/LayersPanel.jsx:223-234 | a layer with the id becomes an image layer holding the file's data, preview and alpha mask, named after the file when it has a name; the others are left as they were |
| LayersPanel.FillLayer | src/components/LayersPanel/LayersPanel.jsx:258-275 | the layer becomes a colour layer named Цвет and the colour; its earlier state is saved only when it was not already a colour layer |
| LayersPanel.FillColor | src/components/LayersPanel/LayersPanel.jsx:248-278 | the layers with the id are filled and every other layer is left as it was |
| LayersPanel.ResetLayer | src/components/LayersPanel/LayersPanel.jsx:281-300 | the saved state is restored when there is one, and otherwise the layer is emptied and named Слой with its id unless its name already holds the word; the saved state is cleared |
| LayersPanel.ResetLayers | src/components/LayersPanel/LayersPanel.jsx:281-300 | the layers with the id are reset and every other layer is left as it was |
| LayersPanel.FillThenReset | src/components/LayersPanel/LayersPanel.jsx:258-300 | filling a layer that is not a colour layer and then resetting it gives back the layer |
| LayersPanel.RefillThenReset | src/components/LayersPanel/LayersPanel.jsx:258-300 | after two fills one reset still gives back the layer as it was before the first |
| LayersPanel.MovedPermutes | src/components/LayersPanel/LayersPanel.jsx:337-339 | moving a layer from one index to another is a permutation that puts it at the target index and keeps every other layer in order |
| LayersPanel.SpliceMove | src/components/LayersPanel/LayersPanel.jsx:337-339 | the two splices on the copied array leave exactly the moved order |
| LayersPanel.HandleDrop | src/components/LayersPanel/LayersPanel.jsx:320-348 | no drag (null or the empty id), a drop on the dragged layer itself or an unknown id leaves the stack as it was; otherwise the dragged layer moves to the target's index; the result is always a permutation |
| LayersPanel.ExtractAlphaChannel | src/components/LayersPanel/LayersPanel.jsx:132-161 | no mask exactly when no pixel has an alpha below 255; otherwise each pixel's alpha on red, green and blue with an opaque alpha |
| ScalingModal.Validate | src/pages/Editor/ScalingModal/ScalingModal.jsx:101-130 | a field is rejected as not a positive integer exactly when it is not a number, not whole or not positive; too large exactly above 32768; out of the percent range exactly above 1000 in percent mode; the below-1 branch is never reached |
| ScalingModal.ValidIffInRange | src/pages/Editor/ScalingModal/ScalingModal.jsx:101-130 | a field passes exactly when it is a whole number from 1 to 32768, and at most 1000 in percent mode |
| ScalingModal.ErrorMessage | src/pages/Editor/ScalingModal/ScalingModal.jsx:106-128 | the error text is empty exactly when the field passes |
| ScalingModal.PresetLookup | src/pages/Editor/ScalingModal/ScalingModal.jsx:29-49 | no preset exactly when no key equals the value; otherwise the value of the last entry with that key, as a JavaScript object literal keeps the last duplicate |
| ScalingModal.PresetAsWrittenMixesDirections | src/pages/Editor/ScalingModal/ScalingModal.jsx:29-49 | the single table as written gives height 2560 for width 1440 and width 480 for height 720 |
| ScalingModal.LookupOnlyMatch | src/pages/Editor/ScalingModal/ScalingModal.jsx:29-49 | the entry whose key no later entry repeats is the one found |
| ScalingModal.PresetFindsEveryEntry | src/pages/Editor/ScalingModal/ScalingModal.jsx:30-48 | with the width and height entries kept apart, every entry of each table is found for its own key |
| ScalingModal.PresetsPositive | src/pages/Editor/ScalingModal/ScalingModal.jsx:29-49 | every preset value is positive, so the truthiness test on the lookup is a test for an entry |
| ScalingModal.HeightFromWidth | src/pages/Editor/ScalingModal/ScalingModal.jsx:154 | the height is Math.round of width / ratio, and not a number when the ratio is 0 or the width is not a number |
| ScalingModal.WidthFromHeight | src/pages/Editor/ScalingModal/ScalingModal.jsx:182 | the width is Math.round of height * ratio, and not a number only when the height is not a number |
| ScalingModal.InitialLockIgnoresStoredFalse | src/pages/Editor/ScalingModal/ScalingModal.jsx:16 | as written, a stored false still starts with the ratio locked |
| ScalingModal.InitialLock | src/pages/Editor/ScalingModal/ScalingModal.jsx:16 | the stored choice when there is one, locked otherwise |
| ScalingModal.StoredOr | src/pages/Editor/ScalingModal/ScalingModal.jsx:13-18 | the stored value unless it is missing or empty, and the default then |
| ScalingModal.TargetSize | src/pages/Editor/ScalingModal/ScalingModal.jsx:242-247 | in percent mode the side is natural * value / 100 rounded to the nearest whole number, otherwise the value itself |
| ScalingModal.TargetAtHundredPercent | src/pages/Editor/ScalingModal/ScalingModal.jsx:242-247 | 100 % keeps the natural side |
| ScalingModal.SmallPercentVanishes | src/pages/Editor/ScalingModal/ScalingModal.jsx:101-130 | 10 % passes validation, yet of a 1-pixel side it rounds to 0 |
| ScalingModal.Dispatch | src/pages/Editor/ScalingModal/ScalingModal.jsx:250-269 | a failure exactly when a side is 0, for every algorithm name; otherwise the output of the as-written resampler the name selects, of the requested size, and browser scaling for any other name |
| ScalingModal.ScalingDialog.constructor | src/pages/Editor/ScalingModal/ScalingModal.jsx:13-18 | the mode and algorithm come from storage with their defaults, the lock is the as-written `|| true` and so always on, both fields 100 and the ratio 0 |
| ScalingModal.ScalingDialog.OnImageLoad | src/pages/Editor/ScalingModal/ScalingModal.jsx:74-91 | the ratio becomes naturalWidth / naturalHeight, and the fields 100 in percent mode or the natural sides otherwise; nothing else changes |
| ScalingModal.ScalingDialog.HandleWidthChange | src/pages/Editor/ScalingModal/ScalingModal.jsx:135-161 | the width takes the value; under the lock the height copies it in percent mode, takes the value the single preset table as written gives for the width when there is one and the ratio-derived height otherwise; unlocked it is kept |
| ScalingModal.ScalingDialog.HandleHeightChange | src/pages/Editor/ScalingModal/ScalingModal.jsx:163-189 | the height takes the value; under the lock the width copies it in percent mode, takes the value the same single table gives for the height when there is one and the ratio-derived width otherwise; unlocked it is kept |
| ScalingModal.ScalingDialog.ToggleLock | src/pages/Editor/ScalingModal/ScalingModal.jsx:345 | only the lock flips |
| ScalingModal.ScalingDialog.HandleResizeModeChange | src/pages/Editor/ScalingModal/ScalingModal.jsx:287-302 | the mode is replaced and the fields reset to 100 or to the natural sides; nothing else changes |
| ScalingModal.ScalingDialog.HandleInterpolationAlgorithmChange | src/pages/Editor/ScalingModal/ScalingModal.jsx:304-306 | only the algorithm is replaced |
| ScalingModal.ScalingDialog.HandleResizeConfirm | src/pages/Editor/ScalingModal/ScalingModal.jsx:215-269 | nothing happens exactly when a field has an error; otherwise both fields are whole numbers of at least 1 and the outcome is the dispatch to the target sizes |
| ScalingModal.ConfirmAtHundredPercent | src/pages/Editor/ScalingModal/ScalingModal.jsx:242-247 | confirming at 100 % in both fields resamples to the natural size |
| Editor.Added | src/pages/Editor/Editor.jsx:908-913 | the redo tail is dropped, the new image becomes the last entry and the current one, and the entries up to the old current one are kept |
| Editor.Undone | src/pages/Editor/Editor.jsx:915-920 | the current entry moves back one when there is an earlier one, and nothing changes otherwise |
| Editor.Redone | src/pages/Editor/Editor.jsx:922-927 | the current entry moves forward one when there is a later one, and nothing changes otherwise |
| Editor.UndoRedoInverse | src/pages/Editor/Editor.jsx:915-927 | redo after undo, and undo after redo, restore the history |
| Editor.UndoAfterAdd | src/pages/Editor/Editor.jsx:908-920 | undoing an addition returns to the image it was made on and leaves the new image to redo |
| Editor.History.constructor | src/pages/Editor/Editor.jsx:88-89 | the history starts empty with index -1 |
| Editor.History.AddToHistory | src/pages/Editor/Editor.jsx:908-913 | the history becomes Added of the old history; the image shown is unchanged |
| Editor.History.Undo | src/pages/Editor/Editor.jsx:915-920 | the history becomes Undone of the old one, and the image shown is the new current entry when there was an earlier one |
| Editor.History.Redo | src/pages/Editor/Editor.jsx:922-927 | the history becomes Redone of the old one, and the image shown is the new current entry when there was a later one |
| Editor.History.ImageChanged | src/pages/Editor/Editor.jsx:929-933 | a non-empty image that is not the current entry is added; an empty image or the current entry leaves the history unchanged |
| Editor.History.UpdateImage | src/pages/Editor/Editor.jsx:935-941 | the image is shown and added to the history |
| Editor.ClampZoom | src/pages/Editor/Editor.jsx:185-186 | the zoom is kept within 12 to 300 and unchanged inside that range |
| Editor.WheelZoom | src/pages/Editor/Editor.jsx:290-305 | a wheel step up adds 10, a step down subtracts 10, and the result stays within 12 to 300 |
| Editor.WheelZoomMonotone | src/pages/Editor/Editor.jsx:290-305 | from a zoom in range, zooming in never lowers it and zooming out never raises it |
| Editor.FitZoom | src/pages/Editor/Editor.jsx:176-186 | the load zoom lies within 12 to 300 |
| Editor.FitZoomFits | src/pages/Editor/Editor.jsx:176-186 | unless raised to the minimum, the image at the load zoom fits in the workspace less 50 px on each side |
| Editor.CheckImageHasTransparency | src/pages/Editor/Editor.jsx:721-729 | true exactly when some pixel's alpha is below 255 |
| Editor.ExportGrayBit7 | src/pages/Editor/Editor.jsx:779-784 | the exported file is the GrayBit-7 encoding, with a mask exactly when the image has transparency |
| Editor.OpaqueExportHasNoMask | src/pages/Editor/Editor.jsx:779-784 | an opaque image is exported with the no-mask flag |
| Editor.FileSizeUnit | src/pages/Editor/Editor.jsx:105-109 | bytes below 1024, kilobytes below 1048576, megabytes from there on |
| Editor.FileSizeQuantityRange | src/pages/Editor/Editor.jsx:105-109 | a size shown in KB or MB shows at least 1, and one in KB shows less than 1024 |
| Editor.FormatBytes | src/pages/Editor/Editor.jsx:106 | a size below 1024 is shown as its decimal digits followed by " B" |

## Left out

- Canvas, DOM and asynchronous plumbing is not modelled. This covers `analyzeColorDepth` and `analyzeFromDataURL` (canvas drawing, promises), `createDownloadURL` (Blob, URL), `loadFromFile` and `loadStandardImage` (FileReader, Image), and the canvas round trip at the end of `loadGrayBit7`. Each modelled operation starts from the pixel buffer or the bytes those calls produce.
- Preview and thumbnail drawing in the layers panel and the layer hook is not modelled, and neither are data URLs produced by `toDataURL`. Previews, data URLs, file names and `Date.now()` ids are parameters.
- `rgbToXyz`, `rgbToLab` and `rgbToOKLch` are not modelled: they are floating-point colour maths (`Math.pow`, `Math.cbrt`, `Math.atan2`).
- The sRGB gamma curve inside `getLuminance` is a function parameter with values in [0, 1], because it is floating-point exponentiation.
- Floating-point arithmetic in the resamplers, the zoom, the fit rectangle, the contrast ratio and the aspect ratio is modelled with exact reals. Rounding error is not modelled.
- `toFixed` text formatting is not modelled anywhere.
- ColorConversions.CalculateContrast: returns the ratio and its rating rather than the two-decimal text.
- Editor.FileSizeUnit: gives the unit and the exact number rather than the `toFixed(1)` text. Editor.FormatBytes covers only the byte case, which has no decimals.
- ScalingModal.ScalingDialog: `updateResizedSize`, `formatSize` and the file-size estimate are not modelled; they only feed the dialog's display.
- GrayBit7.DecodeErrorMessage: the message of the exception `new ImageData` throws for a side of 0 is browser-defined; the model gives only its name, IndexSizeError.
- ScalingModal.Dispatch: the browser's own scaling, used for an unknown algorithm name, is recorded as an outcome and not computed.
- ScalingModal.ScalingDialog.HandleResizeConfirm: the `localStorage` writes and the final canvas and Blob steps are not modelled; the outcome is the resampled image.
- ScalingModal.ScalingDialog.constructor: stored values are parameters instead of `localStorage` reads.
- ScalingModal.Validate: `Number()` parsing of the text fields is not modelled. A field is an already-parsed number or "not a number".
- ImageLoader.ToLower: lower-cases ASCII letters only; JavaScript's Unicode lower-casing is not modelled.
- ImageLoader.ExtensionAfterLastDot: requires names of at most 2^32 characters, the range in which `>>> 0` behaves as modelled.
- ColorDepth.CalculateColorDepth: requires a buffer length that is a multiple of 4, as every browser `ImageData` has. The same holds for LayersPanel.ExtractAlphaChannel.
- GrayBit7.RoundTripHeader: stated for widths and heights below 65536. Larger sides are cut to 16 bits by `setUint16`, which GrayBit7.SetUint16BE models.
- Layers.BaseLayer: the `position` field (0, 0) of the base-layer object is not part of the layer record; the layer offset CanvasKeyHand.ConstrainLayerPosition takes is its parameter instead.
- Layers.LayerStore.RenderLayers: returns the sequence of draw calls rather than drawing. Canvas clearing, image loading and the blend arithmetic are not modelled; blending is done by the browser's `globalCompositeOperation`, so the source has no formula to verify.
- LayersPanel.HandleDrop: the `draggedLayer` state is a parameter. `handleDragStart` and `handleDragOver` only touch DOM events and are not modelled.
- LayersPanel.LoadImage: the file reading and the preview drawing happen outside the model. The operation starts from the data URL, preview and mask they produce.
- InterpolationTest.TestAllInterpolationMethods: the `performance.now()` timings are not modelled.
- `createVisualComparison` and `runInterpolationTest` are not modelled: they build DOM nodes and log timings. `runInterpolationTest` also refers to a `testResults` that is never defined (src/utils/ImageProcessing/InterpolationTest.js:195).
- `updateTranslation` and its `requestAnimationFrame` scheduling in the hand tool are not modelled; they are view updates.
- Editor.History.UpdateImage: the `newFileSize` argument and its `setFileSize(formatFileSize(newFileSize))` display update are not modelled, since the size text comes from `toFixed`; the method keeps only the image and the history.
- Event wiring, scroll and zoom view synchronisation, timers, `localStorage`, the Telegram share and the export download in the editor page are not modelled. `drawTransparencyBackground` only draws.
- The UI-only components are not modelled: LayerItem, StartPage, EditorCanvas, StatusBar and the image provider.

## Findings

| source | as written | input that shows it | evidently intended | confidence | as-written member | corrected member |
|---|---|---|---|---|---|---|
| src/utils/ImageProcessing/InterpolationMethods.js:104-109 | the bicubic sum is divided by the sum of the absolute weights | a 2 x 2 image of opaque white shrunk to 1 x 1 gives 163 in every colour channel instead of 255 | dividing by the signed weight sum, which is 1, so a uniform image stays uniform | not executed | Interpolation.BicubicDarkensWhiteSquare | Interpolation.BicubicNormalized |
| src/pages/Editor/ScalingModal/ScalingModal.jsx:29-49 | one object holds both the width-to-height and the height-to-width presets, and the lock looks up either field in it | width 1440 sets the height to 2560 (the later duplicate key wins); height 720 sets the width to 480 | a width table for widths and a height table for heights, so width 1440 gives 900 and height 720 falls back to the aspect ratio | not executed | ScalingModal.PresetAsWrittenMixesDirections | ScalingModal.PresetFindsEveryEntry |
| src/pages/Editor/ScalingModal/ScalingModal.jsx:16 | the stored lock choice is combined with a logical or with true | a stored `false` starts the dialog with the ratio locked | the stored choice, and locked only when nothing is stored | not executed | ScalingModal.InitialLockIgnoresStoredFalse | ScalingModal.InitialLock |

The dialog and its dispatch model the code as written: they use the single
preset table, the `|| true` lock and the as-written bicubic resampler. Each
corrected member stands beside them with its intended property proved.
