/** The test image used to compare the resamplers (InterpolationTest.js): a
    checkerboard of 10-pixel squares, a red horizontal band through the middle
    and a blue diagonal drawn over both, and the helper that runs all three
    resamplers on one image. */
module InterpolationTest {
  import opened Common
  import Interpolation

  /** JavaScript's `Math.abs` on integers. */
  function Abs(n: int): nat { if n < 0 then -n else n }

  /** The pixel lies on the blue diagonal: `Math.abs(x - y) <= 2`. */
  predicate OnDiagonal(x: int, y: int) { Abs(x - y) <= 2 }

  /** The pixel lies in the red band: `height / 2 - 5 <= y <= height / 2 + 5`,
      with the division exact, written without it. */
  predicate InRedBand(height: int, y: int) { height - 10 <= 2 * y <= height + 10 }

  /** The checkerboard square holding the pixel is white:
      `(Math.floor(x / 10) + Math.floor(y / 10)) % 2 === 0`. */
  predicate WhiteSquare(x: nat, y: nat) { (x / 10 + y / 10) % 2 == 0 }

  /** The RGBA value of a channel with index c in 0..3 of a pixel whose channels are r, g, b
      and an alpha of 255. */
  function Opaque(r: byte, g: byte, b: byte, c: int): byte
  {
    if c == 0 then r else if c == 1 then g else if c == 2 then b else 255
  }

  /** Channel c of pixel (x, y) of the test pattern: the last of the three
      writes of the loop body that applies to the pixel decides its colour. */
  function PatternChannel(height: nat, x: nat, y: nat, c: int): byte
  {
    if OnDiagonal(x, y) then Opaque(0, 0, 255, c)
    else if InRedBand(height, y) then Opaque(255, 0, 0, c)
    else if WhiteSquare(x, y) then Opaque(255, 255, 255, c)
    else Opaque(0, 0, 0, c)
  }

  function PatternAt(width: nat, height: nat, k: nat): byte
    requires width > 0
  {
    PatternChannel(height, (k / 4) % width, (k / 4) / width, k % 4)
  }

  /** The image `createTestPattern` returns; `new ImageData` refuses a side of 0. */
  function TestPattern(width: nat, height: nat): (r: Option<ImageData>)
    ensures Interpolation.IsResampled(r, width, height)
  {
    if width == 0 || height == 0 then None
    else
      var n := width * height * 4;
      Some(ImageData(width, height, seq(n, k requires 0 <= k < n => PatternAt(width, height, k))))
  }

  /** `createTestPattern`: a row by row, pixel by pixel fill of a fresh buffer. */
  method CreateTestPattern(width: nat, height: nat) returns (r: Option<ImageData>)
    ensures r == TestPattern(width, height)
  {
    if width == 0 || height == 0 {
      return None;
    }
    var data := new byte[width * height * 4];
    var y := 0;
    while y < height
      invariant 0 <= y <= height
      invariant ChannelIndex(width, 0, y, 0) <= data.Length
      invariant forall j :: 0 <= j < ChannelIndex(width, 0, y, 0) ==> data[j] == PatternAt(width, height, j)
    {
      var x := 0;
      while x < width
        invariant 0 <= x <= width
        invariant ChannelIndex(width, x, y, 0) <= data.Length
        invariant forall j :: 0 <= j < ChannelIndex(width, x, y, 0) ==> data[j] == PatternAt(width, height, j)
      {
        ChannelIndexInBounds(width, height, x, y, 3);
        PaintPixel(width, height, x, y, data);
        x := x + 1;
      }
      NextRow(width, y);
      y := y + 1;
    }
    assert ChannelIndex(width, 0, height, 0) == width * height * 4;
    assert data[..] == seq(width * height * 4, k requires 0 <= k < width * height * 4 => PatternAt(width, height, k));
    r := Some(ImageData(width, height, data[..]));
  }

  /** The body of the inner loop: the checkerboard colour is written first,
      then the red band and the blue diagonal overwrite it where they apply. */
  method PaintPixel(width: nat, height: nat, x: nat, y: nat, data: array<byte>)
    requires x < width && y < height && data.Length == width * height * 4
    requires ChannelIndex(width, x, y, 0) + 4 <= data.Length
    requires forall j :: 0 <= j < ChannelIndex(width, x, y, 0) ==> data[j] == PatternAt(width, height, j)
    modifies data
    ensures forall j :: 0 <= j < ChannelIndex(width, x, y, 0) + 4 ==> data[j] == PatternAt(width, height, j)
  {
    var index := (y * width + x) * 4;
    assert index == ChannelIndex(width, x, y, 0);
    ghost var before := data[..index];
    if (x / 10 + y / 10) % 2 == 0 {
      SetPixel(data, index, 255, 255, 255, 255);
    } else {
      SetPixel(data, index, 0, 0, 0, 255);
    }
    if 2 * y >= height - 10 && 2 * y <= height + 10 {
      SetPixel(data, index, 255, 0, 0, 255);
    }
    if Abs(x - y) <= 2 {
      SetPixel(data, index, 0, 0, 255, 255);
    }
    PixelChannels(width, height, x, y, index);
    forall j | 0 <= j < index + 4
      ensures data[j] == PatternAt(width, height, j)
    {
      if j < index {
        assert data[j] == data[..index][j] == before[j];
      } else {
        assert data[index + (j - index)] == PatternChannel(height, x, y, j - index);
      }
    }
  }

  /** The four writes `data[index + channel] = value` of one colour. */
  method SetPixel(data: array<byte>, index: nat, r: byte, g: byte, b: byte, a: byte)
    requires index + 4 <= data.Length
    modifies data
    ensures data[index] == r && data[index + 1] == g && data[index + 2] == b && data[index + 3] == a
    ensures data[..index] == old(data[..index])
  {
    data[index] := r;
    data[index + 1] := g;
    data[index + 2] := b;
    data[index + 3] := a;
  }

  /** The four flat indices of pixel (x, y) name its four channels. */
  lemma PixelChannels(width: nat, height: nat, x: nat, y: nat, index: int)
    requires x < width && index == ChannelIndex(width, x, y, 0)
    ensures forall c :: 0 <= c < 4 ==> PatternAt(width, height, index + c) == PatternChannel(height, x, y, c)
  {
    forall c | 0 <= c < 4
      ensures PatternAt(width, height, index + c) == PatternChannel(height, x, y, c)
    {
      FlatIndex(width, x, y, c);
    }
  }

  /** Channel c of pixel (x, y) of the generated image is the pattern's colour there. */
  lemma {:induction false} PatternPixel(width: nat, height: nat, x: nat, y: nat, c: nat)
    requires x < width && y < height && c < 4
    ensures TestPattern(width, height).Some?
    ensures TestPattern(width, height).value.At(x, y, c) == PatternChannel(height, x, y, c)
  {
    ChannelIndexInBounds(width, height, x, y, c);
    FlatIndex(width, x, y, c);
  }

  /** Every pixel of the test pattern is opaque. */
  lemma PatternIsOpaque(width: nat, height: nat)
    requires width > 0 && height > 0
    ensures var img := TestPattern(width, height).value;
      forall k :: 0 <= k < |img.data| && k % 4 == 3 ==> img.data[k] == 255
    ensures !SomeAlphaBelow255(TestPattern(width, height).value.data)
  {
    var img := TestPattern(width, height).value;
    forall k | 0 <= k < |img.data| && k % 4 == 3
      ensures img.data[k] == 255
    {
      FlatIndexInRange(width, height, k);
    }
  }

  /** The blue diagonal overrides the band and the board. */
  lemma DiagonalIsBlue(width: nat, height: nat, x: nat, y: nat)
    requires x < width && y < height && OnDiagonal(x, y)
    ensures var img := TestPattern(width, height).value;
      img.At(x, y, 0) == 0 && img.At(x, y, 1) == 0 && img.At(x, y, 2) == 255 && img.At(x, y, 3) == 255
  {
    PatternPixel(width, height, x, y, 0);
    PatternPixel(width, height, x, y, 1);
    PatternPixel(width, height, x, y, 2);
    PatternPixel(width, height, x, y, 3);
  }

  /** Off the diagonal, the red band overrides the board. */
  lemma BandIsRed(width: nat, height: nat, x: nat, y: nat)
    requires x < width && y < height && !OnDiagonal(x, y) && InRedBand(height, y)
    ensures var img := TestPattern(width, height).value;
      img.At(x, y, 0) == 255 && img.At(x, y, 1) == 0 && img.At(x, y, 2) == 0 && img.At(x, y, 3) == 255
  {
    PatternPixel(width, height, x, y, 0);
    PatternPixel(width, height, x, y, 1);
    PatternPixel(width, height, x, y, 2);
    PatternPixel(width, height, x, y, 3);
  }

  /** Elsewhere the pixel is white on an even square and black on an odd one. */
  lemma BoardColours(width: nat, height: nat, x: nat, y: nat, c: nat)
    requires x < width && y < height && c < 3 && !OnDiagonal(x, y) && !InRedBand(height, y)
    ensures TestPattern(width, height).value.At(x, y, c) == if WhiteSquare(x, y) then 255 else 0
  {
    PatternPixel(width, height, x, y, c);
  }

  /** The default 100 x 100 pattern has its band on rows 45 to 55. */
  lemma DefaultBandRows(y: nat)
    requires y < 100
    ensures InRedBand(100, y) <==> 45 <= y <= 55
  {
  }

  /** The three results `testAllInterpolationMethods` collects. */
  datatype Results = Results(nearestNeighbor: Option<ImageData>, bilinear: Option<ImageData>, bicubic: Option<ImageData>)

  /** `testAllInterpolationMethods` without its timings: every resampler is
      run on the same image, each result has the requested size, and the
      bicubic one is the source's own formula. */
  method TestAllInterpolationMethods(sourceImage: ImageData, newWidth: nat, newHeight: nat) returns (results: Results)
    ensures Interpolation.IsResampled(results.nearestNeighbor, newWidth, newHeight)
    ensures Interpolation.IsResampled(results.bilinear, newWidth, newHeight)
    ensures Interpolation.IsResampled(results.bicubic, newWidth, newHeight)
    ensures results == Results(Interpolation.Nearest(sourceImage, newWidth, newHeight),
                               Interpolation.Bilinear(sourceImage, newWidth, newHeight),
                               Interpolation.Bicubic(sourceImage, newWidth, newHeight))
  {
    var nearestNeighbor := Interpolation.NearestNeighborInterpolation(sourceImage, newWidth, newHeight);
    var bilinear := Interpolation.BilinearInterpolation(sourceImage, newWidth, newHeight);
    var bicubic := Interpolation.BicubicInterpolation(sourceImage, newWidth, newHeight);
    results := Results(nearestNeighbor, bilinear, bicubic);
  }
}
