/** The three resamplers of src/utils/ImageProcessing/InterpolationMethods.js.

    Each one allocates a `new ImageData(newWidth, newHeight)` and fills it
    row by row, pixel by pixel, channel by channel. The source coordinate of
    output column x is (x + 0.5) * width / newWidth - 0.5, and likewise for
    rows. Reads go through `data[i] || 0`, so an index outside the source
    buffer reads 0. Arithmetic here is exact: the model uses `real` where
    the source uses double-precision numbers. */
module Interpolation {
  import opened Common

  // ---------------------------------------------------------------- shared

  /** `(x + 0.5) * size / newSize - 0.5`: where output index x falls in the source. */
  function SourceCoord(x: int, size: nat, newSize: nat): real
    requires newSize > 0
  {
    (x as real + 0.5) * size as real / newSize as real - 0.5
  }

  /** `Math.round(Math.max(0, Math.min(255, v)))`: what each resampler stores
      in an output byte. */
  function ClampToByte(v: real): (b: byte)
    ensures 0.0 <= v <= 255.0 ==> b as real - 0.5 <= v < b as real + 0.5
    ensures v < 0.0 ==> b == 0
    ensures v > 255.0 ==> b == 255
  {
    Round(MaxReal(0.0, MinReal(255.0, v)))
  }

  /** A value already between two bytes stays between them after ClampToByte. */
  lemma ClampToByteBetween(v: real, lo: byte, hi: byte)
    requires lo as real <= v <= hi as real
    ensures lo <= ClampToByte(v) <= hi
  {
  }

  /** The output of a resampler: no image when a side is 0 (the browser's
      ImageData constructor throws), otherwise the bytes `at` gives for each
      flat index. */
  predicate IsResampled(r: Option<ImageData>, newWidth: nat, newHeight: nat)
  {
    if newWidth == 0 || newHeight == 0 then r.None?
    else r.Some? && r.value.width == newWidth && r.value.height == newHeight && r.value.Valid()
  }

  /** Channel c has the value v in every pixel of the image. */
  predicate Uniform(img: ImageData, c: nat, v: byte)
  {
    img.Valid() && c < 4 &&
    forall sx, sy :: 0 <= sx < img.width && 0 <= sy < img.height ==> img.At(sx, sy, c) == v
  }

  // ---------------------------------------------------------------- nearest neighbour

  /** `Math.max(0, Math.min(Math.round(SourceCoord), size - 1))`. */
  function NearestIndex(x: int, size: nat, newSize: nat): int
    requires newSize > 0
  {
    Clamp(Round(SourceCoord(x, size, newSize)), 0, size - 1)
  }

  /** Channel c of output pixel (x, y): `data[srcIndex + channel] || 0`. */
  function NearestChannel(img: ImageData, newWidth: nat, newHeight: nat, x: int, y: int, c: int): byte
    requires newWidth > 0 && newHeight > 0
  {
    var sourceX := NearestIndex(x, img.width, newWidth);
    var sourceY := NearestIndex(y, img.height, newHeight);
    ReadOr0(img.data, 4 * (sourceY * img.width + sourceX) + c)
  }

  function NearestAt(img: ImageData, newWidth: nat, newHeight: nat, k: nat): byte
    requires newWidth > 0 && newHeight > 0
  {
    NearestChannel(img, newWidth, newHeight, (k / 4) % newWidth, (k / 4) / newWidth, k % 4)
  }

  /** The image `nearestNeighborInterpolation` returns. */
  function Nearest(img: ImageData, newWidth: nat, newHeight: nat): (r: Option<ImageData>)
    ensures IsResampled(r, newWidth, newHeight)
  {
    if newWidth == 0 || newHeight == 0 then None
    else
      var n := newWidth * newHeight * 4;
      Some(ImageData(newWidth, newHeight, seq(n, k requires 0 <= k < n => NearestAt(img, newWidth, newHeight, k))))
  }

  /** `nearestNeighborInterpolation`. */
  method NearestNeighborInterpolation(img: ImageData, newWidth: nat, newHeight: nat) returns (r: Option<ImageData>)
    ensures r == Nearest(img, newWidth, newHeight)
  {
    if newWidth == 0 || newHeight == 0 {
      return None;
    }
    var out := new byte[newWidth * newHeight * 4];
    var y := 0;
    while y < newHeight
      invariant 0 <= y <= newHeight
      invariant ChannelIndex(newWidth, 0, y, 0) <= out.Length
      invariant forall j :: 0 <= j < ChannelIndex(newWidth, 0, y, 0) ==> out[j] == NearestAt(img, newWidth, newHeight, j)
    {
      var x := 0;
      while x < newWidth
        invariant 0 <= x <= newWidth
        invariant ChannelIndex(newWidth, x, y, 0) <= out.Length
        invariant forall j :: 0 <= j < ChannelIndex(newWidth, x, y, 0) ==> out[j] == NearestAt(img, newWidth, newHeight, j)
      {
        ChannelIndexInBounds(newWidth, newHeight, x, y, 3);
        NearestPixel(img, newWidth, newHeight, x, y, out);
        x := x + 1;
      }
      NextRow(newWidth, y);
      y := y + 1;
    }
    assert ChannelIndex(newWidth, 0, newHeight, 0) == newWidth * newHeight * 4;
    assert out[..] == seq(newWidth * newHeight * 4, k requires 0 <= k < newWidth * newHeight * 4 => NearestAt(img, newWidth, newHeight, k));
    r := Some(ImageData(newWidth, newHeight, out[..]));
  }

  /** The body of the column loop of `nearestNeighborInterpolation`: the
      rounded and clamped source pixel of output pixel (x, y), then its four
      channels copied with `data[srcIndex + channel] || 0`. */
  method NearestPixel(img: ImageData, newWidth: nat, newHeight: nat, x: nat, y: nat, out: array<byte>)
    requires x < newWidth && y < newHeight && out.Length == newWidth * newHeight * 4
    requires ChannelIndex(newWidth, x, y, 0) + 4 <= out.Length
    requires forall j :: 0 <= j < ChannelIndex(newWidth, x, y, 0) ==> out[j] == NearestAt(img, newWidth, newHeight, j)
    modifies out
    ensures forall j :: 0 <= j < ChannelIndex(newWidth, x, y, 0) + 4 ==> out[j] == NearestAt(img, newWidth, newHeight, j)
  {
    var width: int, height: int, data := img.width, img.height, img.data;
    var gx := Round(SourceCoord(x, width, newWidth));
    var gy := Round(SourceCoord(y, height, newHeight));
    var sourceX := Max(0, Min(gx, width - 1));
    var sourceY := Max(0, Min(gy, height - 1));
    var srcIndex := 4 * (sourceY * width + sourceX);
    assert srcIndex == 4 * (NearestIndex(y, img.height, newHeight) * img.width + NearestIndex(x, img.width, newWidth));
    var channel := 0;
    while channel < 4
      invariant 0 <= channel <= 4
      invariant forall j :: 0 <= j < ChannelIndex(newWidth, x, y, 0) + channel ==> out[j] == NearestAt(img, newWidth, newHeight, j)
    {
      var previous := channel;
      channel := channel + 1;
      NearestChannelStep(img, newWidth, newHeight, x, y, srcIndex, previous, channel, out);
    }
  }

  /** The body of the channel loop of `nearestNeighborInterpolation`: one
      channel copied from the source pixel, `|| 0` past the end of the buffer. */
  method NearestChannelStep(img: ImageData, newWidth: nat, newHeight: nat, x: nat, y: nat, srcIndex: int,
                            channel: nat, next: nat, out: array<byte>)
    requires x < newWidth && y < newHeight && out.Length == newWidth * newHeight * 4
    requires srcIndex == 4 * (NearestIndex(y, img.height, newHeight) * img.width + NearestIndex(x, img.width, newWidth))
    requires channel < 4 && next == channel + 1 && ChannelIndex(newWidth, x, y, 0) + 4 <= out.Length
    requires forall j :: 0 <= j < ChannelIndex(newWidth, x, y, 0) + channel ==> out[j] == NearestAt(img, newWidth, newHeight, j)
    modifies out
    ensures forall j :: 0 <= j < ChannelIndex(newWidth, x, y, 0) + next ==> out[j] == NearestAt(img, newWidth, newHeight, j)
  {
    var destIndex := 4 * (y * newWidth + x);
    var index := ChannelIndex(newWidth, x, y, channel);
    FlatIndex(newWidth, x, y, channel);
    assert index == destIndex + channel == ChannelIndex(newWidth, x, y, 0) + channel;
    assert NearestAt(img, newWidth, newHeight, index) == NearestChannel(img, newWidth, newHeight, x, y, channel);
    ghost var before := out[..index];
    out[destIndex + channel] := ReadOr0(img.data, srcIndex + channel);
    assert out[..index] == before;
    forall j | 0 <= j < index + 1
      ensures out[j] == NearestAt(img, newWidth, newHeight, j)
    {
      if j < index {
        assert out[j] == before[j];
      }
    }
  }

  /** `((2x + 1) * size) / (2 * newSize)`: the source pixel whose span holds
      the centre of output pixel x; it lies inside the source. */
  function CentreSource(x: nat, size: nat, newSize: nat): (s: nat)
    requires newSize > 0
    ensures x < newSize && size > 0 ==> s < size
  {
    SourceBelowSize(x, size, newSize);
    ((2 * x + 1) * size) / (2 * newSize)
  }

  /** The floor-division source index of an output index below newSize is below size. */
  lemma SourceBelowSize(x: nat, size: nat, newSize: nat)
    requires newSize > 0
    ensures x < newSize && size > 0 ==> ((2 * x + 1) * size) / (2 * newSize) < size
  {
    if x < newSize && size > 0 {
      MulLe(2 * x + 1, 2 * newSize - 1, size);
      assert (2 * newSize - 1) * size == size * (2 * newSize) - size;
      DivBelow((2 * x + 1) * size, 2 * newSize, size);
    }
  }

  /** Rounding the source coordinate is floor division of integers: the
      nearest-neighbour pick is the pixel under the output pixel's centre. */
  lemma NearestIndexIsFloor(x: nat, size: nat, newSize: nat)
    requires newSize > 0
    ensures Round(SourceCoord(x, size, newSize)) == CentreSource(x, size, newSize)
  {
    var t := (x as real + 0.5) * size as real / newSize as real;
    assert t == ((2 * x + 1) * size) as real / (2 * newSize) as real;
    RealDivFloor((2 * x + 1) * size, 2 * newSize);
    assert SourceCoord(x, size, newSize) + 0.5 == t;
  }

  /** Each output pixel copies all four channels of the source pixel under
      its centre; the clamp never changes that index. */
  lemma NearestCopiesSource(img: ImageData, newWidth: nat, newHeight: nat, x: nat, y: nat, c: nat)
    requires img.Valid() && img.width > 0 && img.height > 0
    requires x < newWidth && y < newHeight && c < 4
    ensures var r := Nearest(img, newWidth, newHeight).value;
      r.At(x, y, c) == img.At(CentreSource(x, img.width, newWidth), CentreSource(y, img.height, newHeight), c)
  {
    var r := Nearest(img, newWidth, newHeight).value;
    var sx, sy := CentreSource(x, img.width, newWidth), CentreSource(y, img.height, newHeight);
    NearestIndexIsFloor(x, img.width, newWidth);
    NearestIndexIsFloor(y, img.height, newHeight);
    assert NearestIndex(x, img.width, newWidth) == sx;
    assert NearestIndex(y, img.height, newHeight) == sy;
    var k := ChannelIndex(newWidth, x, y, c);
    FlatIndex(newWidth, x, y, c);
    ChannelIndexInBounds(newWidth, newHeight, x, y, c);
    ChannelIndexInBounds(img.width, img.height, sx, sy, c);
    calc {
      r.At(x, y, c);
      r.data[k];
      NearestAt(img, newWidth, newHeight, k);
      NearestChannel(img, newWidth, newHeight, x, y, c);
      ReadOr0(img.data, ChannelIndex(img.width, sx, sy, c));
      img.At(sx, sy, c);
    }
  }

  /** Without scaling, the centre of output pixel x lies in source pixel x. */
  lemma CentreSourceSameSize(x: nat, size: nat)
    requires size > 0
    ensures CentreSource(x, size, size) == x
  {
    assert (2 * x + 1) * size == x * (2 * size) + size;
    DivUnique((2 * x + 1) * size, 2 * size, x, size);
  }

  /** At the same size, nearest neighbour picks the output pixel's own index. */
  lemma NearestIndexSameSize(x: nat, size: nat)
    requires x < size
    ensures NearestIndex(x, size, size) == x
  {
    NearestIndexIsFloor(x, size, size);
    CentreSourceSameSize(x, size);
  }

  /** At the same size, nearest neighbour gives back sample k of the image. */
  lemma NearestSameSizeAt(img: ImageData, k: nat)
    requires img.Valid() && k < |img.data|
    ensures img.width > 0 && img.height > 0 && NearestAt(img, img.width, img.height, k) == img.data[k]
  {
    var w, h := img.width, img.height;
    FlatIndexInRange(w, h, k);
    NearestChannelSameSize(img, (k / 4) % w, (k / 4) / w, k % 4);
  }

  /** At the same size, every channel of an output pixel is read from the same
      pixel of the source. */
  lemma NearestChannelSameSize(img: ImageData, x: nat, y: nat, c: nat)
    requires img.Valid() && x < img.width && y < img.height && c < 4
    ensures 0 <= ChannelIndex(img.width, x, y, c) < |img.data|
    ensures NearestChannel(img, img.width, img.height, x, y, c) == img.data[ChannelIndex(img.width, x, y, c)]
  {
    NearestIndexSameSize(x, img.width);
    NearestIndexSameSize(y, img.height);
    ChannelIndexInBounds(img.width, img.height, x, y, c);
  }

  /** Resampling to the same size with nearest neighbour copies the image. */
  lemma NearestIdentity(img: ImageData)
    requires img.Valid() && img.width > 0 && img.height > 0
    ensures Nearest(img, img.width, img.height) == Some(img)
  {
    var r := Nearest(img, img.width, img.height).value;
    forall k | 0 <= k < |img.data|
      ensures r.data[k] == img.data[k]
    {
      NearestSameSizeAt(img, k);
    }
    assert r.data == img.data;
  }

  /** An empty or zero-sided source reads as 0 everywhere (`|| 0`), so every output byte is 0. */
  lemma NearestFromEmpty(img: ImageData, newWidth: nat, newHeight: nat, k: nat)
    requires img.Valid() && (img.width == 0 || img.height == 0)
    requires k < newWidth * newHeight * 4
    ensures Nearest(img, newWidth, newHeight).value.data[k] == 0
  {
  }

  // ---------------------------------------------------------------- bilinear

  /** The neighbours and fractional offsets bilinear output pixel (x, y) reads:
      columns x1, x2 and rows y1, y2 clamped into the source, and fx, fy. */
  datatype Footprint = Footprint(x1: int, x2: int, y1: int, y2: int, fx: real, fy: real)

  function BilinearFootprint(width: nat, height: nat, newWidth: nat, newHeight: nat, x: int, y: int): (f: Footprint)
    requires newWidth > 0 && newHeight > 0
    ensures 0.0 <= f.fx < 1.0 && 0.0 <= f.fy < 1.0
    ensures width > 0 ==> 0 <= f.x1 <= f.x2 < width && f.x2 <= f.x1 + 1
    ensures height > 0 ==> 0 <= f.y1 <= f.y2 < height && f.y2 <= f.y1 + 1
  {
    var gx, gy := SourceCoord(x, width, newWidth), SourceCoord(y, height, newHeight);
    var gxi, gyi := gx.Floor, gy.Floor;
    Footprint(Clamp(gxi, 0, width - 1), Clamp(gxi + 1, 0, width - 1),
              Clamp(gyi, 0, height - 1), Clamp(gyi + 1, 0, height - 1),
              gx - gxi as real, gy - gyi as real)
  }

  /** The weighted value `a(1-fx)(1-fy) + b fx(1-fy) + c(1-fx)fy + d fx fy`. */
  function BilinearValue(a: real, b: real, c: real, d: real, fx: real, fy: real): real
  {
    a * (1.0 - fx) * (1.0 - fy) + b * fx * (1.0 - fy) + c * (1.0 - fx) * fy + d * fx * fy
  }

  /** Channel c of bilinear output pixel (x, y). */
  function BilinearChannel(img: ImageData, newWidth: nat, newHeight: nat, x: int, y: int, c: int): byte
    requires newWidth > 0 && newHeight > 0
  {
    var f := BilinearFootprint(img.width, img.height, newWidth, newHeight, x, y);
    var a := ReadOr0(img.data, 4 * (f.y1 * img.width + f.x1) + c);
    var b := ReadOr0(img.data, 4 * (f.y1 * img.width + f.x2) + c);
    var cc := ReadOr0(img.data, 4 * (f.y2 * img.width + f.x1) + c);
    var d := ReadOr0(img.data, 4 * (f.y2 * img.width + f.x2) + c);
    ClampToByte(BilinearValue(a as real, b as real, cc as real, d as real, f.fx, f.fy))
  }

  function BilinearAt(img: ImageData, newWidth: nat, newHeight: nat, k: nat): byte
    requires newWidth > 0 && newHeight > 0
  {
    BilinearChannel(img, newWidth, newHeight, (k / 4) % newWidth, (k / 4) / newWidth, k % 4)
  }

  /** The image `bilinearInterpolation` returns. */
  function Bilinear(img: ImageData, newWidth: nat, newHeight: nat): (r: Option<ImageData>)
    ensures IsResampled(r, newWidth, newHeight)
  {
    if newWidth == 0 || newHeight == 0 then None
    else
      var n := newWidth * newHeight * 4;
      Some(ImageData(newWidth, newHeight, seq(n, k requires 0 <= k < n => BilinearAt(img, newWidth, newHeight, k))))
  }

  /** `bilinearInterpolation`. */
  method BilinearInterpolation(img: ImageData, newWidth: nat, newHeight: nat) returns (r: Option<ImageData>)
    ensures r == Bilinear(img, newWidth, newHeight)
  {
    if newWidth == 0 || newHeight == 0 {
      return None;
    }
    var width: int, height: int, data := img.width, img.height, img.data;
    var out := new byte[newWidth * newHeight * 4];
    var y := 0;
    while y < newHeight
      invariant 0 <= y <= newHeight
      invariant ChannelIndex(newWidth, 0, y, 0) <= out.Length
      invariant forall j :: 0 <= j < ChannelIndex(newWidth, 0, y, 0) ==> out[j] == BilinearAt(img, newWidth, newHeight, j)
    {
      var x := 0;
      while x < newWidth
        invariant 0 <= x <= newWidth
        invariant ChannelIndex(newWidth, x, y, 0) <= out.Length
        invariant forall j :: 0 <= j < ChannelIndex(newWidth, x, y, 0) ==> out[j] == BilinearAt(img, newWidth, newHeight, j)
      {
        ChannelIndexInBounds(newWidth, newHeight, x, y, 3);
        BilinearPixel(img, newWidth, newHeight, x, y, out);
        x := x + 1;
      }
      NextRow(newWidth, y);
      y := y + 1;
    }
    assert ChannelIndex(newWidth, 0, newHeight, 0) == newWidth * newHeight * 4;
    assert out[..] == seq(newWidth * newHeight * 4, k requires 0 <= k < newWidth * newHeight * 4 => BilinearAt(img, newWidth, newHeight, k));
    r := Some(ImageData(newWidth, newHeight, out[..]));
  }

  /** The body of the column loop of `bilinearInterpolation`: the source
      coordinates of output pixel (x, y), then its four channels. */
  method BilinearPixel(img: ImageData, newWidth: nat, newHeight: nat, x: nat, y: nat, out: array<byte>)
    requires x < newWidth && y < newHeight && out.Length == newWidth * newHeight * 4
    requires ChannelIndex(newWidth, x, y, 0) + 4 <= out.Length
    requires forall j :: 0 <= j < ChannelIndex(newWidth, x, y, 0) ==> out[j] == BilinearAt(img, newWidth, newHeight, j)
    modifies out
    ensures forall j :: 0 <= j < ChannelIndex(newWidth, x, y, 0) + 4 ==> out[j] == BilinearAt(img, newWidth, newHeight, j)
  {
    var width: int, height: int, data := img.width, img.height, img.data;
    var gx := SourceCoord(x, width, newWidth);
    var gy := SourceCoord(y, height, newHeight);
    var gxi := gx.Floor;
    var gyi := gy.Floor;
    var fx := gx - gxi as real;
    var fy := gy - gyi as real;
    var channel := 0;
    while channel < 4
      invariant 0 <= channel <= 4
      invariant forall j :: 0 <= j < ChannelIndex(newWidth, x, y, 0) + channel ==> out[j] == BilinearAt(img, newWidth, newHeight, j)
    {
      var previous := channel;
      channel := channel + 1;
      BilinearChannelStep(img, newWidth, newHeight, x, y, gxi, gyi, fx, fy, previous, channel, out);
    }
  }

  /** The body of the channel loop of `bilinearInterpolation`: one channel,
      computed and stored. */
  method BilinearChannelStep(img: ImageData, newWidth: nat, newHeight: nat, x: nat, y: nat,
                             gxi: int, gyi: int, fx: real, fy: real, channel: nat, next: nat, out: array<byte>)
    requires x < newWidth && y < newHeight && out.Length == newWidth * newHeight * 4
    requires gxi == SourceCoord(x, img.width, newWidth).Floor && gyi == SourceCoord(y, img.height, newHeight).Floor
    requires fx == SourceCoord(x, img.width, newWidth) - gxi as real
    requires fy == SourceCoord(y, img.height, newHeight) - gyi as real
    requires channel < 4 && next == channel + 1 && ChannelIndex(newWidth, x, y, 0) + 4 <= out.Length
    requires forall j :: 0 <= j < ChannelIndex(newWidth, x, y, 0) + channel ==> out[j] == BilinearAt(img, newWidth, newHeight, j)
    modifies out
    ensures forall j :: 0 <= j < ChannelIndex(newWidth, x, y, 0) + next ==> out[j] == BilinearAt(img, newWidth, newHeight, j)
  {
    var value := BilinearChannelValue(img, newWidth, newHeight, x, y, gxi, gyi, fx, fy, channel);
    var index := ChannelIndex(newWidth, x, y, channel);
    assert index == ChannelIndex(newWidth, x, y, 0) + channel;
    ghost var before := out[..index];
    out[index] := value;
    assert out[..index] == before;
    forall j | 0 <= j < index + 1
      ensures out[j] == BilinearAt(img, newWidth, newHeight, j)
    {
      if j < index {
        assert out[j] == before[j];
      }
    }
  }

  /** The four clamped neighbours of one channel, weighted and clamped. */
  method BilinearChannelValue(img: ImageData, newWidth: nat, newHeight: nat, x: nat, y: nat,
                              gxi: int, gyi: int, fx: real, fy: real, channel: nat) returns (value: byte)
    requires newWidth > 0 && newHeight > 0
    requires gxi == SourceCoord(x, img.width, newWidth).Floor && gyi == SourceCoord(y, img.height, newHeight).Floor
    requires fx == SourceCoord(x, img.width, newWidth) - gxi as real
    requires fy == SourceCoord(y, img.height, newHeight) - gyi as real
    requires x < newWidth && channel < 4
    ensures value == BilinearAt(img, newWidth, newHeight, ChannelIndex(newWidth, x, y, channel))
  {
    var width: int, height: int, data := img.width, img.height, img.data;
    var x1 := Max(0, Min(gxi, width - 1));
    var y1 := Max(0, Min(gyi, height - 1));
    var x2 := Max(0, Min(gxi + 1, width - 1));
    var y2 := Max(0, Min(gyi + 1, height - 1));
    var a := ReadOr0(data, 4 * (y1 * width + x1) + channel);
    var b := ReadOr0(data, 4 * (y1 * width + x2) + channel);
    var c := ReadOr0(data, 4 * (y2 * width + x1) + channel);
    var d := ReadOr0(data, 4 * (y2 * width + x2) + channel);
    BilinearChannelFromReads(img, newWidth, newHeight, x, y, gxi, gyi, fx, fy, channel, x1, x2, y1, y2, a, b, c, d);
    value := ClampToByte(BilinearValue(a as real, b as real, c as real, d as real, fx, fy));
    FlatIndex(newWidth, x, y, channel);
    assert BilinearAt(img, newWidth, newHeight, ChannelIndex(newWidth, x, y, channel)) == BilinearChannel(img, newWidth, newHeight, x, y, channel);
  }

  /** The footprint and the four reads of one channel, as the loop computes
      them, give the channel `BilinearChannel` describes. */
  lemma BilinearChannelFromReads(img: ImageData, newWidth: nat, newHeight: nat, x: nat, y: nat,
                                 gxi: int, gyi: int, fx: real, fy: real, channel: nat,
                                 x1: int, x2: int, y1: int, y2: int, a: byte, b: byte, c: byte, d: byte)
    requires newWidth > 0 && newHeight > 0
    requires gxi == SourceCoord(x, img.width, newWidth).Floor && gyi == SourceCoord(y, img.height, newHeight).Floor
    requires fx == SourceCoord(x, img.width, newWidth) - gxi as real
    requires fy == SourceCoord(y, img.height, newHeight) - gyi as real
    requires x1 == Max(0, Min(gxi, img.width - 1)) && x2 == Max(0, Min(gxi + 1, img.width - 1))
    requires y1 == Max(0, Min(gyi, img.height - 1)) && y2 == Max(0, Min(gyi + 1, img.height - 1))
    requires a == ReadOr0(img.data, 4 * (y1 * img.width + x1) + channel)
    requires b == ReadOr0(img.data, 4 * (y1 * img.width + x2) + channel)
    requires c == ReadOr0(img.data, 4 * (y2 * img.width + x1) + channel)
    requires d == ReadOr0(img.data, 4 * (y2 * img.width + x2) + channel)
    ensures BilinearChannel(img, newWidth, newHeight, x, y, channel)
      == ClampToByte(BilinearValue(a as real, b as real, c as real, d as real, fx, fy))
  {
    assert BilinearFootprint(img.width, img.height, newWidth, newHeight, x, y) == Footprint(x1, x2, y1, y2, fx, fy);
  }

  /** Linear interpolation from a to b by t. */
  function Lerp(a: real, b: real, t: real): real { a * (1.0 - t) + b * t }

  /** `a (1 - t) + b t` with t in [0, 1] lies between a and b. */
  lemma LerpBetween(a: real, b: real, t: real)
    requires 0.0 <= t <= 1.0
    ensures MinReal(a, b) <= Lerp(a, b, t) <= MaxReal(a, b)
  {
    LerpForm(a, b, t);
    if a <= b {
      StepUp(a, b, t);
    } else {
      StepDown(a, b, t);
    }
  }

  /** The interpolated value is a plus the fraction t of the step from a to b. */
  lemma LerpForm(a: real, b: real, t: real)
    ensures Lerp(a, b, t) == a + t * (b - a)
  {
  }

  /** A fraction in [0, 1] of a step up from a to b lies between 0 and the step. */
  lemma StepUp(a: real, b: real, t: real)
    requires 0.0 <= t <= 1.0 && a <= b
    ensures 0.0 <= t * (b - a) <= b - a
  {
    var e := b - a;
    MulNonNegReal(t, e);
    MulNonNegReal(1.0 - t, e);
    assert (1.0 - t) * e == e - t * e;
  }

  /** A fraction in [0, 1] of a step down from a to b lies between the step and 0. */
  lemma StepDown(a: real, b: real, t: real)
    requires 0.0 <= t <= 1.0 && b < a
    ensures b - a <= t * (b - a) <= 0.0
  {
    var e := a - b;
    MulNonNegReal(t, e);
    MulNonNegReal(1.0 - t, e);
    assert (1.0 - t) * e == e - t * e;
    assert t * (b - a) == -(t * e);
  }

  /** The bilinear formula is a linear interpolation between the interpolated
      top row and the interpolated bottom row. */
  lemma BilinearAsLerp(a: real, b: real, c: real, d: real, fx: real, fy: real)
    ensures BilinearValue(a, b, c, d, fx, fy) == Lerp(Lerp(a, b, fx), Lerp(c, d, fx), fy)
  {
  }

  /** With fx, fy in [0, 1] the four bilinear weights are non-negative and sum to 1. */
  lemma BilinearWeights(fx: real, fy: real)
    requires 0.0 <= fx <= 1.0 && 0.0 <= fy <= 1.0
    ensures (1.0 - fx) * (1.0 - fy) + fx * (1.0 - fy) + (1.0 - fx) * fy + fx * fy == 1.0
    ensures 0.0 <= (1.0 - fx) * (1.0 - fy) && 0.0 <= fx * (1.0 - fy) && 0.0 <= (1.0 - fx) * fy && 0.0 <= fx * fy
  {
    MulNonNegReal(1.0 - fx, 1.0 - fy);
    MulNonNegReal(fx, 1.0 - fy);
    MulNonNegReal(1.0 - fx, fy);
    MulNonNegReal(fx, fy);
  }

  /** With fx, fy in [0, 1] the four bilinear weights are non-negative and sum
      to 1, so the weighted value lies between the least and the greatest of
      the four neighbours. */
  lemma BilinearValueBetween(a: real, b: real, c: real, d: real, fx: real, fy: real)
    requires 0.0 <= fx <= 1.0 && 0.0 <= fy <= 1.0
    ensures (1.0 - fx) * (1.0 - fy) + fx * (1.0 - fy) + (1.0 - fx) * fy + fx * fy == 1.0
    ensures 0.0 <= (1.0 - fx) * (1.0 - fy) && 0.0 <= fx * (1.0 - fy) && 0.0 <= (1.0 - fx) * fy && 0.0 <= fx * fy
    ensures MinReal(MinReal(a, b), MinReal(c, d)) <= BilinearValue(a, b, c, d, fx, fy) <= MaxReal(MaxReal(a, b), MaxReal(c, d))
  {
    BilinearWeights(fx, fy);
    BilinearAsLerp(a, b, c, d, fx, fy);
    LerpBetween(a, b, fx);
    LerpBetween(c, d, fx);
    LerpBetween(Lerp(a, b, fx), Lerp(c, d, fx), fy);
  }

  /** Inside a valid image the four reads of `bilinearInterpolation` are the
      four neighbours of the footprint. */
  lemma BilinearReadsNeighbours(img: ImageData, newWidth: nat, newHeight: nat, x: nat, y: nat, c: nat)
    requires img.Valid() && img.width > 0 && img.height > 0
    requires newWidth > 0 && newHeight > 0 && c < 4
    ensures var f := BilinearFootprint(img.width, img.height, newWidth, newHeight, x, y);
      var a, b := img.At(f.x1, f.y1, c), img.At(f.x2, f.y1, c);
      var cc, d := img.At(f.x1, f.y2, c), img.At(f.x2, f.y2, c);
      BilinearChannel(img, newWidth, newHeight, x, y, c)
        == ClampToByte(BilinearValue(a as real, b as real, cc as real, d as real, f.fx, f.fy))
  {
    var f := BilinearFootprint(img.width, img.height, newWidth, newHeight, x, y);
    ChannelIndexInBounds(img.width, img.height, f.x1, f.y1, c);
    ChannelIndexInBounds(img.width, img.height, f.x2, f.y1, c);
    ChannelIndexInBounds(img.width, img.height, f.x1, f.y2, c);
    ChannelIndexInBounds(img.width, img.height, f.x2, f.y2, c);
  }

  /** Every bilinear output byte lies between the least and the greatest of
      the four clamped source neighbours it reads. */
  lemma BilinearBetweenNeighbours(img: ImageData, newWidth: nat, newHeight: nat, x: nat, y: nat, c: nat)
    requires img.Valid() && img.width > 0 && img.height > 0
    requires newWidth > 0 && newHeight > 0 && c < 4
    ensures var f := BilinearFootprint(img.width, img.height, newWidth, newHeight, x, y);
      var a, b := img.At(f.x1, f.y1, c), img.At(f.x2, f.y1, c);
      var cc, d := img.At(f.x1, f.y2, c), img.At(f.x2, f.y2, c);
      Min(Min(a, b), Min(cc, d)) <= BilinearChannel(img, newWidth, newHeight, x, y, c) <= Max(Max(a, b), Max(cc, d))
  {
    var f := BilinearFootprint(img.width, img.height, newWidth, newHeight, x, y);
    var a, b := img.At(f.x1, f.y1, c), img.At(f.x2, f.y1, c);
    var cc, d := img.At(f.x1, f.y2, c), img.At(f.x2, f.y2, c);
    BilinearReadsNeighbours(img, newWidth, newHeight, x, y, c);
    BilinearValueBetween(a as real, b as real, cc as real, d as real, f.fx, f.fy);
    ClampToByteBetween(BilinearValue(a as real, b as real, cc as real, d as real, f.fx, f.fy),
                       Min(Min(a, b), Min(cc, d)), Max(Max(a, b), Max(cc, d)));
  }

  /** A channel that has the same value v in every source pixel has value v in
      every bilinear output pixel. */
  lemma BilinearUniform(img: ImageData, newWidth: nat, newHeight: nat, c: nat, v: byte, x: nat, y: nat)
    requires Uniform(img, c, v) && img.width > 0 && img.height > 0
    requires x < newWidth && y < newHeight
    ensures Bilinear(img, newWidth, newHeight).value.At(x, y, c) == v
  {
    BilinearBetweenNeighbours(img, newWidth, newHeight, x, y, c);
    FlatIndex(newWidth, x, y, c);
    ChannelIndexInBounds(newWidth, newHeight, x, y, c);
  }

  /** Without scaling, the source coordinate of every output index is the index itself. */
  lemma SourceCoordSameSize(x: nat, size: nat)
    requires size > 0
    ensures SourceCoord(x, size, size) == x as real
  {
  }

  /** Resampling to the same size with bilinear interpolation copies the image. */
  lemma BilinearIdentity(img: ImageData)
    requires img.Valid() && img.width > 0 && img.height > 0
    ensures Bilinear(img, img.width, img.height) == Some(img)
  {
    var w, h := img.width, img.height;
    var r := Bilinear(img, w, h).value;
    forall k | 0 <= k < |img.data|
      ensures r.data[k] == img.data[k]
    {
      FlatIndexInRange(w, h, k);
      var x, y, c := (k / 4) % w, (k / 4) / w, k % 4;
      SourceCoordSameSize(x, w);
      SourceCoordSameSize(y, h);
      var f := BilinearFootprint(w, h, w, h, x, y);
      assert f.x1 == x && f.y1 == y && f.fx == 0.0 && f.fy == 0.0;
      var a := img.data[k];
      assert BilinearValue(a as real, 0.0, 0.0, 0.0, 0.0, 0.0) == a as real;
    }
    assert r.data == img.data;
  }

  // ---------------------------------------------------------------- bicubic

  /** `cubic`: the Keys kernel with a = -0.5. */
  function Cubic(t: real): real
  {
    var a := AbsReal(t);
    if a <= 1.0 then 1.5 * a * a * a - 2.5 * a * a + 1.0
    else if a <= 2.0 then -0.5 * a * a * a + 2.5 * a * a - 4.0 * a + 2.0
    else 0.0
  }

  /** The kernel is 1 at 0, 0 at the other integers, 0 outside (-2, 2), and even. */
  lemma CubicKernel(t: real)
    ensures Cubic(0.0) == 1.0 && Cubic(1.0) == 0.0 && Cubic(-1.0) == 0.0
    ensures AbsReal(t) >= 2.0 ==> Cubic(t) == 0.0
    ensures Cubic(-t) == Cubic(t)
  {
  }

  lemma CubicAtInteger(n: int)
    ensures Cubic(n as real) == if n == 0 then 1.0 else 0.0
  {
    CubicKernel(n as real);
  }

  /** The four weights of one axis sum to 1 wherever the sample falls
      between two source pixels. */
  lemma CubicPartition(f: real)
    requires 0.0 <= f < 1.0
    ensures Cubic(f + 1.0) + Cubic(f) + Cubic(f - 1.0) + Cubic(f - 2.0) == 1.0
  {
    if f == 0.0 {
      assert Cubic(1.0) == 0.0 && Cubic(0.0) == 1.0 && Cubic(-1.0) == 0.0 && Cubic(-2.0) == 0.0;
    } else {
      CubicOuter(f + 1.0);
      CubicInner(f);
      CubicInner(f - 1.0);
      CubicOuter(f - 2.0);
      CubicPieces(f, f + 1.0, 1.0 - f, 2.0 - f);
    }
  }

  /** On |t| <= 1 the kernel is its inner cubic. */
  lemma CubicInner(t: real)
    requires -1.0 <= t <= 1.0
    ensures Cubic(t) == 1.5 * AbsReal(t) * AbsReal(t) * AbsReal(t) - 2.5 * AbsReal(t) * AbsReal(t) + 1.0
  {
  }

  /** On 1 < |t| <= 2 the kernel is its outer cubic. */
  lemma CubicOuter(t: real)
    requires 1.0 < AbsReal(t) <= 2.0
    ensures Cubic(t) == -0.5 * AbsReal(t) * AbsReal(t) * AbsReal(t) + 2.5 * AbsReal(t) * AbsReal(t) - 4.0 * AbsReal(t) + 2.0
  {
  }

  /** The four kernel pieces at distances f + 1, f, 1 - f and 2 - f add up to 1. */
  lemma CubicPieces(f: real, e: real, g: real, h: real)
    requires e == f + 1.0 && g == 1.0 - f && h == 2.0 - f
    ensures (-0.5 * e * e * e + 2.5 * e * e - 4.0 * e + 2.0) + (1.5 * f * f * f - 2.5 * f * f + 1.0)
          + (1.5 * g * g * g - 2.5 * g * g + 1.0) + (-0.5 * h * h * h + 2.5 * h * h - 4.0 * h + 2.0) == 1.0
  {
  }

  /** Column and row of tap t (0 <= t < 16) of the 4x4 neighbourhood, in the
      order the loops visit them: column offset i = t / 4 - 1 in the outer
      loop, row offset j = t % 4 - 1 in the inner one. */
  function TapX(gx: real, t: int): int { gx.Floor + t / 4 - 1 }

  function TapY(gy: real, t: int): int { gy.Floor + t % 4 - 1 }

  /** `pixelValue` for tap (xi, yi): read directly when inside the image,
      otherwise from the position clamped into it. */
  function TapValue(img: ImageData, xi: int, yi: int, c: int): byte
  {
    if xi >= 0 && xi < img.width && yi >= 0 && yi < img.height then
      ReadOr0(img.data, 4 * (yi * img.width + xi) + c)
    else
      ReadOr0(img.data, 4 * (Clamp(yi, 0, img.height - 1) * img.width + Clamp(xi, 0, img.width - 1)) + c)
  }

  /** `cubic(gx - xi) * cubic(gy - yi)`: the weight of source pixel (xi, yi)
      for the sample at (gx, gy). */
  function Weight(gx: real, gy: real, xi: int, yi: int): real
  {
    Cubic(gx - xi as real) * Cubic(gy - yi as real)
  }

  /** The weight of tap t. */
  function TapWeight(gx: real, gy: real, t: int): real
  {
    Weight(gx, gy, TapX(gx, t), TapY(gy, t))
  }

  /** `pixelValue * weight`. */
  function Scaled(v: byte, w: real): real
  {
    v as real * w
  }

  /** `sum` after the first n taps. */
  function TapSum(img: ImageData, gx: real, gy: real, c: int, n: nat): real
  {
    if n == 0 then 0.0
    else TapSum(img, gx, gy, c, n - 1) + Scaled(TapValue(img, TapX(gx, n - 1), TapY(gy, n - 1), c), TapWeight(gx, gy, n - 1))
  }

  /** `weightSum` after the first n taps: the sum of the absolute weights. */
  function TapAbsSum(gx: real, gy: real, n: nat): real
  {
    if n == 0 then 0.0 else TapAbsSum(gx, gy, n - 1) + AbsReal(TapWeight(gx, gy, n - 1))
  }

  /** The sums grow by one tap at a time. */
  lemma TapSumUnfold(img: ImageData, gx: real, gy: real, c: int, t: nat)
    ensures TapSum(img, gx, gy, c, t + 1)
      == TapSum(img, gx, gy, c, t) + Scaled(TapValue(img, TapX(gx, t), TapY(gy, t), c), TapWeight(gx, gy, t))
  {
  }

  lemma TapAbsSumUnfold(gx: real, gy: real, t: nat)
    ensures TapAbsSum(gx, gy, t + 1) == TapAbsSum(gx, gy, t) + AbsReal(TapWeight(gx, gy, t))
  {
  }

  /** `weightSum > 0 ? sum / weightSum : 0`. */
  function Normalize(sum: real, weightSum: real): real
  {
    if weightSum > 0.0 then sum / weightSum else 0.0
  }

  /** Channel c of bicubic output pixel (x, y): `sum / weightSum`, or 0 when
      weightSum is not positive, clamped and rounded. */
  function BicubicChannel(img: ImageData, newWidth: nat, newHeight: nat, x: int, y: int, c: int): byte
    requires newWidth > 0 && newHeight > 0
  {
    var gx, gy := SourceCoord(x, img.width, newWidth), SourceCoord(y, img.height, newHeight);
    var sum, weightSum := TapSum(img, gx, gy, c, 16), TapAbsSum(gx, gy, 16);
    ClampToByte(Normalize(sum, weightSum))
  }

  function BicubicAt(img: ImageData, newWidth: nat, newHeight: nat, k: nat): byte
    requires newWidth > 0 && newHeight > 0
  {
    BicubicChannel(img, newWidth, newHeight, (k / 4) % newWidth, (k / 4) / newWidth, k % 4)
  }

  /** The image `bicubicInterpolation` returns. */
  function Bicubic(img: ImageData, newWidth: nat, newHeight: nat): (r: Option<ImageData>)
    ensures IsResampled(r, newWidth, newHeight)
  {
    if newWidth == 0 || newHeight == 0 then None
    else
      var n := newWidth * newHeight * 4;
      Some(ImageData(newWidth, newHeight, seq(n, k requires 0 <= k < n => BicubicAt(img, newWidth, newHeight, k))))
  }

  /** The body of the innermost loop of `bicubicInterpolation`: the pixel
      value of tap (xi, yi), with the bounds check and the clamped fallback,
      and its weight `cubic(gx - xi) * cubic(gy - yi)`. */
  method ReadTap(img: ImageData, gx: real, gy: real, xi: int, yi: int, channel: int) returns (pixelValue: byte, weight: real)
    ensures pixelValue == TapValue(img, xi, yi, channel)
    ensures weight == Weight(gx, gy, xi, yi)
  {
    var width: int, height: int, data := img.width, img.height, img.data;
    pixelValue := 0;
    if xi >= 0 && xi < width && yi >= 0 && yi < height {
      pixelValue := ReadOr0(data, 4 * (yi * width + xi) + channel);
    } else {
      var clampedX := Max(0, Min(xi, width - 1));
      var clampedY := Max(0, Min(yi, height - 1));
      pixelValue := ReadOr0(data, 4 * (clampedY * width + clampedX) + channel);
    }
    weight := Weight(gx, gy, xi, yi);
  }

  /** Tap t, read at (xi, yi), adds its pixel value times its weight to `sum`
      and the weight's magnitude to `weightSum`. */
  lemma TapStep(img: ImageData, gx: real, gy: real, c: int, t: nat, next: nat, xi: int, yi: int, p: byte, w: real)
    requires next == t + 1 && TapX(gx, t) == xi && TapY(gy, t) == yi
    requires p == TapValue(img, xi, yi, c) && w == Weight(gx, gy, xi, yi)
    ensures TapSum(img, gx, gy, c, next) == TapSum(img, gx, gy, c, t) + Scaled(p, w)
    ensures TapAbsSum(gx, gy, next) == TapAbsSum(gx, gy, t) + AbsReal(w)
  {
    TapSumUnfold(img, gx, gy, c, t);
    TapAbsSumUnfold(gx, gy, t);
  }

  /** The innermost loop of `bicubicInterpolation`: the four taps of column
      offset i, that is taps t to t + 3. */
  method BicubicColumn(img: ImageData, gx: real, gy: real, channel: int, i: int, ghost t: nat, ghost next: nat,
                       sum0: real, weightSum0: real)
    returns (sum: real, weightSum: real)
    requires -1 <= i <= 2 && t == 4 * (i + 1) && next == t + 4
    requires sum0 == TapSum(img, gx, gy, channel, t) && weightSum0 == TapAbsSum(gx, gy, t)
    ensures sum == TapSum(img, gx, gy, channel, next) && weightSum == TapAbsSum(gx, gy, next)
  {
    var gxi, gyi := gx.Floor, gy.Floor;
    sum, weightSum := sum0, weightSum0;
    ghost var k: nat := t;
    var j := -1;
    while j <= 2
      invariant -1 <= j <= 3 && k == t + j + 1
      invariant sum == TapSum(img, gx, gy, channel, k)
      invariant weightSum == TapAbsSum(gx, gy, k)
    {
      var xi := gxi + i;
      var yi := gyi + j;
      var pixelValue, weight := ReadTap(img, gx, gy, xi, yi, channel);
      DivUnique(k, 4, i + 1, j + 1);
      sum := sum + Scaled(pixelValue, weight);
      weightSum := weightSum + AbsReal(weight);
      ghost var previous := k;
      k := k + 1;
      TapStep(img, gx, gy, channel, previous, k, xi, yi, pixelValue, weight);
      j := j + 1;
    }
    assert k == next;
  }

  /** The two innermost loops of `bicubicInterpolation`: `sum` and
      `weightSum` over the 4x4 neighbourhood of (gx, gy) for one channel. */
  method BicubicTaps(img: ImageData, gx: real, gy: real, channel: int) returns (sum: real, weightSum: real)
    ensures sum == TapSum(img, gx, gy, channel, 16)
    ensures weightSum == TapAbsSum(gx, gy, 16)
  {
    sum, weightSum := 0.0, 0.0;
    ghost var t: nat := 0;
    var i := -1;
    while i <= 2
      invariant -1 <= i <= 3 && t == 4 * (i + 1)
      invariant sum == TapSum(img, gx, gy, channel, t)
      invariant weightSum == TapAbsSum(gx, gy, t)
    {
      ghost var previous := t;
      t := t + 4;
      sum, weightSum := BicubicColumn(img, gx, gy, channel, i, previous, t, sum, weightSum);
      i := i + 1;
    }
    assert t == 16;
  }

  /** The body of the column loop of `bicubicInterpolation`: the source
      coordinates of output pixel (x, y), then its four channels. */
  method BicubicPixel(img: ImageData, newWidth: nat, newHeight: nat, x: nat, y: nat, out: array<byte>)
    requires x < newWidth && y < newHeight && out.Length == newWidth * newHeight * 4
    requires ChannelIndex(newWidth, x, y, 0) + 4 <= out.Length
    requires forall j :: 0 <= j < ChannelIndex(newWidth, x, y, 0) ==> out[j] == BicubicAt(img, newWidth, newHeight, j)
    modifies out
    ensures forall j :: 0 <= j < ChannelIndex(newWidth, x, y, 0) + 4 ==> out[j] == BicubicAt(img, newWidth, newHeight, j)
  {
    var gx := SourceCoord(x, img.width, newWidth);
    var gy := SourceCoord(y, img.height, newHeight);
    var channel := 0;
    while channel < 4
      invariant 0 <= channel <= 4
      invariant forall j :: 0 <= j < ChannelIndex(newWidth, x, y, 0) + channel ==> out[j] == BicubicAt(img, newWidth, newHeight, j)
    {
      var previous := channel;
      channel := channel + 1;
      BicubicChannelStep(img, newWidth, newHeight, x, y, gx, gy, previous, channel, out);
    }
  }

  /** The body of the channel loop of `bicubicInterpolation`: the sixteen
      taps of one channel, normalised, clamped and stored. */
  method BicubicChannelStep(img: ImageData, newWidth: nat, newHeight: nat, x: nat, y: nat, gx: real, gy: real,
                            channel: nat, next: nat, out: array<byte>)
    requires x < newWidth && y < newHeight && out.Length == newWidth * newHeight * 4
    requires gx == SourceCoord(x, img.width, newWidth) && gy == SourceCoord(y, img.height, newHeight)
    requires channel < 4 && next == channel + 1 && ChannelIndex(newWidth, x, y, 0) + 4 <= out.Length
    requires forall j :: 0 <= j < ChannelIndex(newWidth, x, y, 0) + channel ==> out[j] == BicubicAt(img, newWidth, newHeight, j)
    modifies out
    ensures forall j :: 0 <= j < ChannelIndex(newWidth, x, y, 0) + next ==> out[j] == BicubicAt(img, newWidth, newHeight, j)
  {
    var value := BicubicChannelValue(img, newWidth, newHeight, x, y, gx, gy, channel);
    var index := ChannelIndex(newWidth, x, y, channel);
    assert index == ChannelIndex(newWidth, x, y, 0) + channel;
    ghost var before := out[..index];
    out[index] := value;
    assert out[..index] == before;
    forall j | 0 <= j < index + 1
      ensures out[j] == BicubicAt(img, newWidth, newHeight, j)
    {
      if j < index {
        assert out[j] == before[j];
      }
    }
  }

  /** The sixteen taps of one channel, normalised and clamped. */
  method BicubicChannelValue(img: ImageData, newWidth: nat, newHeight: nat, x: nat, y: nat, gx: real, gy: real,
                             channel: nat) returns (value: byte)
    requires newWidth > 0 && newHeight > 0
    requires x < newWidth && channel < 4
    requires gx == SourceCoord(x, img.width, newWidth) && gy == SourceCoord(y, img.height, newHeight)
    ensures value == BicubicAt(img, newWidth, newHeight, ChannelIndex(newWidth, x, y, channel))
  {
    var sum, weightSum := BicubicTaps(img, gx, gy, channel);
    var result := Normalize(sum, weightSum);
    value := ClampToByte(result);
    FlatIndex(newWidth, x, y, channel);
    assert BicubicAt(img, newWidth, newHeight, ChannelIndex(newWidth, x, y, channel)) == BicubicChannel(img, newWidth, newHeight, x, y, channel);
  }

  /** `bicubicInterpolation`. */
  method BicubicInterpolation(img: ImageData, newWidth: nat, newHeight: nat) returns (r: Option<ImageData>)
    ensures r == Bicubic(img, newWidth, newHeight)
  {
    if newWidth == 0 || newHeight == 0 {
      return None;
    }
    var out := new byte[newWidth * newHeight * 4];
    var y := 0;
    while y < newHeight
      invariant 0 <= y <= newHeight
      invariant ChannelIndex(newWidth, 0, y, 0) <= out.Length
      invariant forall j :: 0 <= j < ChannelIndex(newWidth, 0, y, 0) ==> out[j] == BicubicAt(img, newWidth, newHeight, j)
    {
      var x := 0;
      while x < newWidth
        invariant 0 <= x <= newWidth
        invariant ChannelIndex(newWidth, x, y, 0) <= out.Length
        invariant forall j :: 0 <= j < ChannelIndex(newWidth, x, y, 0) ==> out[j] == BicubicAt(img, newWidth, newHeight, j)
      {
        ChannelIndexInBounds(newWidth, newHeight, x, y, 3);
        BicubicPixel(img, newWidth, newHeight, x, y, out);
        x := x + 1;
      }
      NextRow(newWidth, y);
      y := y + 1;
    }
    assert ChannelIndex(newWidth, 0, newHeight, 0) == newWidth * newHeight * 4;
    assert out[..] == seq(newWidth * newHeight * 4, k requires 0 <= k < newWidth * newHeight * 4 => BicubicAt(img, newWidth, newHeight, k));
    r := Some(ImageData(newWidth, newHeight, out[..]));
  }

  /** The in-range branch and the clamped branch of the tap read agree: every
      tap reads the source pixel at the position clamped into the image. */
  lemma TapIsClamped(img: ImageData, xi: int, yi: int, c: nat)
    requires img.Valid() && img.width > 0 && img.height > 0 && c < 4
    ensures TapValue(img, xi, yi, c) == img.At(Clamp(xi, 0, img.width - 1), Clamp(yi, 0, img.height - 1), c)
  {
    ChannelIndexInBounds(img.width, img.height, Clamp(xi, 0, img.width - 1), Clamp(yi, 0, img.height - 1), c);
  }

  // ---------------------------------------------------------------- bicubic: properties

  /** The weight of axis offset k - 1 (0 <= k < 4) for sample coordinate g:
      `cubic(g - (floor(g) + k - 1))`. */
  function AxisWeight(g: real, k: int): real
  {
    Cubic(g - (g.Floor + k - 1) as real)
  }

  function AxisSum(g: real): real
  {
    AxisWeight(g, 0) + AxisWeight(g, 1) + AxisWeight(g, 2) + AxisWeight(g, 3)
  }

  function AxisAbsSum(g: real): real
  {
    AbsReal(AxisWeight(g, 0)) + AbsReal(AxisWeight(g, 1)) + AbsReal(AxisWeight(g, 2)) + AbsReal(AxisWeight(g, 3))
  }

  /** The four weights along one axis sum to 1 wherever the sample falls. */
  lemma AxisPartition(g: real)
    ensures AxisSum(g) == 1.0
  {
    var f := g - g.Floor as real;
    assert g - (g.Floor + 0 - 1) as real == f + 1.0;
    assert g - (g.Floor + 1 - 1) as real == f;
    assert g - (g.Floor + 2 - 1) as real == f - 1.0;
    assert g - (g.Floor + 3 - 1) as real == f - 2.0;
    CubicPartition(f);
  }

  /** The magnitudes of the four weights along one axis sum to at least 1. */
  lemma AxisAbsAtLeastOne(g: real)
    ensures AxisAbsSum(g) >= 1.0
  {
    AxisPartition(g);
  }

  /** At a sample on a source pixel only the weight of offset 0 is non-zero, and it is 1. */
  lemma AxisWeightAtInteger(g: real, k: int)
    requires g == g.Floor as real
    ensures AxisWeight(g, k) == if k == 1 then 1.0 else 0.0
  {
    assert g - (g.Floor + k - 1) as real == (1 - k) as real;
    CubicAtInteger(1 - k);
  }

  /** The product of two weights, kept as one term so that lemmas can state
      sums of products without unfolding them. */
  function Mul(a: real, b: real): real
  {
    a * b
  }

  /** The weight of tap t = 4i + j is the product of the column weight i and the row weight j. */
  lemma TapWeightFactors(gx: real, gy: real, t: int, i: int, j: int)
    requires 0 <= j < 4 && t == 4 * i + j
    ensures TapWeight(gx, gy, t) == Mul(AxisWeight(gx, i), AxisWeight(gy, j))
  {
    DivUnique(t, 4, i, j);
    TapWeightAxes(gx, gy, t);
  }

  /** The weight of tap t is the column weight of t / 4 times the row weight of t % 4. */
  lemma TapWeightAxes(gx: real, gy: real, t: int)
    ensures TapWeight(gx, gy, t) == Mul(AxisWeight(gx, t / 4), AxisWeight(gy, t % 4))
  {
  }

  /** `Math.abs` of a product is the product of the magnitudes. */
  lemma AbsMul(w: real, a: real, b: real)
    requires w == Mul(a, b)
    ensures AbsReal(w) == Mul(AbsReal(a), AbsReal(b))
  {
    if a >= 0.0 && b >= 0.0 {
      MulNonNegReal(a, b);
    } else if a >= 0.0 {
      MulNonNegReal(a, -b);
    } else if b >= 0.0 {
      MulNonNegReal(-a, b);
    } else {
      MulNonNegReal(-a, -b);
    }
  }

  /** The signed sum of the first n tap weights: what `weightSum` would hold
      if it accumulated `weight` rather than `Math.abs(weight)`. */
  function TapWeightSum(gx: real, gy: real, n: nat): real
  {
    if n == 0 then 0.0 else TapWeightSum(gx, gy, n - 1) + TapWeight(gx, gy, n - 1)
  }

  /** Tap t = 4i + j adds column weight i times row weight j to the signed sum
      and the product of their magnitudes to the sum of magnitudes. */
  lemma TapWeightStep(gx: real, gy: real, t: nat, next: nat, i: int, j: int)
    requires 0 <= j < 4 && t == 4 * i + j && next == t + 1
    ensures TapWeightSum(gx, gy, next) == TapWeightSum(gx, gy, t) + Mul(AxisWeight(gx, i), AxisWeight(gy, j))
  {
    TapWeightFactors(gx, gy, t, i, j);
  }

  lemma TapAbsStep(gx: real, gy: real, t: nat, next: nat, i: int, j: int)
    requires 0 <= j < 4 && t == 4 * i + j && next == t + 1
    ensures TapAbsSum(gx, gy, next) == TapAbsSum(gx, gy, t) + Mul(AbsReal(AxisWeight(gx, i)), AbsReal(AxisWeight(gy, j)))
  {
    TapWeightFactors(gx, gy, t, i, j);
    AbsMul(TapWeight(gx, gy, t), AxisWeight(gx, i), AxisWeight(gy, j));
  }

  /** Four steps that add a times each of b0..b3 add a times their sum b. */
  lemma DistributeLeft(s0: real, s4: real, a: real, b: real, b0: real, b1: real, b2: real, b3: real, s1: real, s2: real, s3: real)
    requires b == b0 + b1 + b2 + b3
    requires s1 == s0 + Mul(a, b0) && s2 == s1 + Mul(a, b1) && s3 == s2 + Mul(a, b2) && s4 == s3 + Mul(a, b3)
    ensures s4 == s0 + Mul(a, b)
  {
  }

  /** Four steps that add each of a0..a3 times b add their sum a times b. */
  lemma DistributeRight(s0: real, s4: real, a: real, b: real, a0: real, a1: real, a2: real, a3: real, s1: real, s2: real, s3: real)
    requires a == a0 + a1 + a2 + a3
    requires s1 == s0 + Mul(a0, b) && s2 == s1 + Mul(a1, b) && s3 == s2 + Mul(a2, b) && s4 == s3 + Mul(a3, b)
    ensures s4 == s0 + Mul(a, b)
  {
  }

  /** The four taps of column i add column weight i times the whole row sum. */
  lemma ColumnWeightSum(gx: real, gy: real, i: nat, t: nat, next: nat)
    requires i < 4 && t == 4 * i && next == t + 4
    ensures TapWeightSum(gx, gy, next) == TapWeightSum(gx, gy, t) + Mul(AxisWeight(gx, i), AxisSum(gy))
  {
    TapWeightStep(gx, gy, t, t + 1, i, 0);
    TapWeightStep(gx, gy, t + 1, t + 2, i, 1);
    TapWeightStep(gx, gy, t + 2, t + 3, i, 2);
    TapWeightStep(gx, gy, t + 3, next, i, 3);
    DistributeLeft(TapWeightSum(gx, gy, t), TapWeightSum(gx, gy, next), AxisWeight(gx, i), AxisSum(gy),
                   AxisWeight(gy, 0), AxisWeight(gy, 1), AxisWeight(gy, 2), AxisWeight(gy, 3),
                   TapWeightSum(gx, gy, t + 1), TapWeightSum(gx, gy, t + 2), TapWeightSum(gx, gy, t + 3));
  }

  lemma ColumnAbsSum(gx: real, gy: real, i: nat, t: nat, next: nat)
    requires i < 4 && t == 4 * i && next == t + 4
    ensures TapAbsSum(gx, gy, next) == TapAbsSum(gx, gy, t) + Mul(AbsReal(AxisWeight(gx, i)), AxisAbsSum(gy))
  {
    TapAbsStep(gx, gy, t, t + 1, i, 0);
    TapAbsStep(gx, gy, t + 1, t + 2, i, 1);
    TapAbsStep(gx, gy, t + 2, t + 3, i, 2);
    TapAbsStep(gx, gy, t + 3, next, i, 3);
    DistributeLeft(TapAbsSum(gx, gy, t), TapAbsSum(gx, gy, next), AbsReal(AxisWeight(gx, i)), AxisAbsSum(gy),
                   AbsReal(AxisWeight(gy, 0)), AbsReal(AxisWeight(gy, 1)), AbsReal(AxisWeight(gy, 2)), AbsReal(AxisWeight(gy, 3)),
                   TapAbsSum(gx, gy, t + 1), TapAbsSum(gx, gy, t + 2), TapAbsSum(gx, gy, t + 3));
  }

  /** Over the whole 4x4 neighbourhood the signed weights sum to 1. */
  lemma TapWeightsSumToOne(gx: real, gy: real)
    ensures TapWeightSum(gx, gy, 16) == 1.0
  {
    ColumnWeightSum(gx, gy, 0, 0, 4);
    ColumnWeightSum(gx, gy, 1, 4, 8);
    ColumnWeightSum(gx, gy, 2, 8, 12);
    ColumnWeightSum(gx, gy, 3, 12, 16);
    DistributeRight(TapWeightSum(gx, gy, 0), TapWeightSum(gx, gy, 16), AxisSum(gx), AxisSum(gy),
                    AxisWeight(gx, 0), AxisWeight(gx, 1), AxisWeight(gx, 2), AxisWeight(gx, 3),
                    TapWeightSum(gx, gy, 4), TapWeightSum(gx, gy, 8), TapWeightSum(gx, gy, 12));
    AxisPartition(gx);
    AxisPartition(gy);
  }

  /** Over the whole 4x4 neighbourhood the weight magnitudes sum to the
      product of the axis magnitude sums. */
  lemma TapAbsSumFactors(gx: real, gy: real)
    ensures TapAbsSum(gx, gy, 16) == AxisAbsSum(gx) * AxisAbsSum(gy)
  {
    ColumnAbsSum(gx, gy, 0, 0, 4);
    ColumnAbsSum(gx, gy, 1, 4, 8);
    ColumnAbsSum(gx, gy, 2, 8, 12);
    ColumnAbsSum(gx, gy, 3, 12, 16);
    DistributeRight(TapAbsSum(gx, gy, 0), TapAbsSum(gx, gy, 16), AxisAbsSum(gx), AxisAbsSum(gy),
                    AbsReal(AxisWeight(gx, 0)), AbsReal(AxisWeight(gx, 1)), AbsReal(AxisWeight(gx, 2)), AbsReal(AxisWeight(gx, 3)),
                    TapAbsSum(gx, gy, 4), TapAbsSum(gx, gy, 8), TapAbsSum(gx, gy, 12));
  }

  /** Over the whole 4x4 neighbourhood the weights factor into the two axes:
      the signed weights sum to 1 and the magnitudes to the product of the
      axis magnitude sums. */
  lemma NeighbourhoodSums(gx: real, gy: real)
    ensures TapWeightSum(gx, gy, 16) == 1.0
    ensures TapAbsSum(gx, gy, 16) == AxisAbsSum(gx) * AxisAbsSum(gy)
  {
    TapWeightsSumToOne(gx, gy);
    TapAbsSumFactors(gx, gy);
  }

  lemma ScaledAdd(v: byte, a: real, b: real, s: real)
    requires s == a + b
    ensures Scaled(v, s) == Scaled(v, a) + Scaled(v, b)
  {
  }

  /** On a channel with the same value v everywhere, every tap reads v, so
      `sum` is v times the signed sum of the weights. */
  lemma {:induction false} UniformTapSum(img: ImageData, gx: real, gy: real, c: nat, v: byte, n: nat)
    requires Uniform(img, c, v) && img.width > 0 && img.height > 0
    ensures TapSum(img, gx, gy, c, n) == Scaled(v, TapWeightSum(gx, gy, n))
    decreases n
  {
    if n > 0 {
      UniformTapSum(img, gx, gy, c, v, n - 1);
      TapIsClamped(img, TapX(gx, n - 1), TapY(gy, n - 1), c);
      ScaledAdd(v, TapWeightSum(gx, gy, n - 1), TapWeight(gx, gy, n - 1), TapWeightSum(gx, gy, n));
    }
  }

  /** On a uniform channel the weighted sum of the neighbourhood is the value itself. */
  lemma UniformSum(img: ImageData, gx: real, gy: real, c: nat, v: byte)
    requires Uniform(img, c, v) && img.width > 0 && img.height > 0
    ensures TapSum(img, gx, gy, c, 16) == v as real
  {
    UniformTapSum(img, gx, gy, c, v, 16);
    TapWeightsSumToOne(gx, gy);
    assert Scaled(v, 1.0) == v as real;
  }

  /** `weightSum` is at least 1, so the `: 0` branch of the normalisation is never taken. */
  lemma TapAbsSumAtLeastOne(gx: real, gy: real)
    ensures TapAbsSum(gx, gy, 16) >= 1.0
  {
    NeighbourhoodSums(gx, gy);
    AxisAbsAtLeastOne(gx);
    AxisAbsAtLeastOne(gy);
    MulLeReal(1.0, AxisAbsSum(gx), AxisAbsSum(gy));
  }

  lemma NormalizeQuotient(sum: real, weightSum: real, v: real)
    requires sum == v && weightSum > 0.0
    ensures Normalize(sum, weightSum) == v / weightSum
  {
  }

  /** A quotient by a divisor of at least 1 is at most the non-negative dividend. */
  lemma NormalizeAtMost(sum: real, weightSum: real, v: real)
    requires sum == v && v >= 0.0 && weightSum >= 1.0
    ensures 0.0 <= Normalize(sum, weightSum) <= v
  {
    MulLeReal(1.0, weightSum, v / weightSum);
  }

  /** On a uniform channel `bicubicInterpolation` stores the value divided by
      `weightSum`, the sum of the weight magnitudes, which is at least 1. */
  lemma BicubicUniform(img: ImageData, newWidth: nat, newHeight: nat, x: int, y: int, c: nat, v: byte)
    requires Uniform(img, c, v) && img.width > 0 && img.height > 0 && newWidth > 0 && newHeight > 0
    ensures var gx, gy := SourceCoord(x, img.width, newWidth), SourceCoord(y, img.height, newHeight);
      TapAbsSum(gx, gy, 16) >= 1.0 &&
      BicubicChannel(img, newWidth, newHeight, x, y, c) == ClampToByte(v as real / TapAbsSum(gx, gy, 16))
  {
    var gx, gy := SourceCoord(x, img.width, newWidth), SourceCoord(y, img.height, newHeight);
    UniformSum(img, gx, gy, c, v);
    TapAbsSumAtLeastOne(gx, gy);
    NormalizeQuotient(TapSum(img, gx, gy, c, 16), TapAbsSum(gx, gy, 16), v as real);
  }

  /** So a uniform channel never comes out brighter than it went in. */
  lemma BicubicUniformAtMost(img: ImageData, newWidth: nat, newHeight: nat, x: int, y: int, c: nat, v: byte)
    requires Uniform(img, c, v) && img.width > 0 && img.height > 0 && newWidth > 0 && newHeight > 0
    ensures BicubicChannel(img, newWidth, newHeight, x, y, c) <= v
  {
    var gx, gy := SourceCoord(x, img.width, newWidth), SourceCoord(y, img.height, newHeight);
    UniformSum(img, gx, gy, c, v);
    TapAbsSumAtLeastOne(gx, gy);
    NormalizeAtMost(TapSum(img, gx, gy, c, 16), TapAbsSum(gx, gy, 16), v as real);
    ClampToByteBetween(Normalize(TapSum(img, gx, gy, c, 16), TapAbsSum(gx, gy, 16)), 0, v);
  }

  lemma NormalizeByOne(sum: real, weightSum: real, v: real)
    requires sum == v && weightSum == 1.0
    ensures Normalize(sum, weightSum) == v
  {
  }

  /** A byte passes through ClampToByte unchanged. */
  lemma ClampToByteOfByte(v: byte)
    ensures ClampToByte(v as real) == v
  {
  }

  // ---------------------------------------------------------------- bicubic: a 2x2 white square

  /** A 2x2 opaque white image. */
  function WhiteSquare(): (img: ImageData)
    ensures img.Valid() && img.width == 2 && img.height == 2
  {
    ImageData(2, 2, seq(16, _ => 255))
  }

  lemma WhiteSquareUniform(c: nat)
    requires c < 4
    ensures Uniform(WhiteSquare(), c, 255)
  {
    var img := WhiteSquare();
    forall sx, sy | 0 <= sx < 2 && 0 <= sy < 2
      ensures img.At(sx, sy, c) == 255
    {
      ChannelIndexInBounds(2, 2, sx, sy, c);
    }
  }

  /** The kernel at the half-way sample: the magnitudes of the four weights
      of an axis sum to 1.25, because the outer two are -0.0625 each. */
  lemma AxisAbsSumAtHalf()
    ensures AxisAbsSum(0.5) == 1.25
  {
    assert (0.5).Floor == 0;
    assert AxisWeight(0.5, 0) == Cubic(1.5) == -0.0625;
    assert AxisWeight(0.5, 1) == Cubic(0.5) == 0.5625;
    assert AxisWeight(0.5, 2) == Cubic(-0.5) == 0.5625;
    assert AxisWeight(0.5, 3) == Cubic(-1.5) == -0.0625;
  }

  /** Halving the white square with `bicubicInterpolation` gives one pixel of
      value 163 in every channel, alpha included: 255 / 1.5625, rounded. */
  lemma BicubicDarkensWhiteSquare()
    ensures Bicubic(WhiteSquare(), 1, 1) == Some(ImageData(1, 1, [163, 163, 163, 163]))
  {
    var img := WhiteSquare();
    forall c | 0 <= c < 4
      ensures BicubicAt(img, 1, 1, c) == 163
    {
      WhiteSquareChannel((c / 4) % 1, (c / 4) / 1, c % 4);
    }
    assert Bicubic(img, 1, 1).value.data == [163, 163, 163, 163];
  }

  lemma WhiteSquareChannel(x: int, y: int, c: nat)
    requires x == 0 && y == 0 && c < 4
    ensures BicubicChannel(WhiteSquare(), 1, 1, x, y, c) == 163
  {
    var img := WhiteSquare();
    var gx, gy := SourceCoord(x, 2, 1), SourceCoord(y, 2, 1);
    HalfAbsSum(gx, gy);
    assert ClampToByte(255.0 / 1.5625) == 163;
    WhiteSquareUniform(c);
    BicubicUniform(img, 1, 1, x, y, c, 255);
  }

  /** Midway between four pixels the sixteen weight magnitudes sum to 1.25 * 1.25. */
  lemma HalfAbsSum(gx: real, gy: real)
    requires gx == 0.5 && gy == 0.5
    ensures TapAbsSum(gx, gy, 16) == 1.5625
  {
    AxisAbsSumAtHalf();
    NeighbourhoodSums(gx, gy);
  }

  // ---------------------------------------------------------------- bicubic: normalised by the signed weights

  /** Channel c of output pixel (x, y) when `weightSum` accumulates the
      signed weights: `sum / weightSum`, clamped and rounded. */
  function BicubicNormalizedChannel(img: ImageData, newWidth: nat, newHeight: nat, x: int, y: int, c: int): byte
    requires newWidth > 0 && newHeight > 0
  {
    var gx, gy := SourceCoord(x, img.width, newWidth), SourceCoord(y, img.height, newHeight);
    ClampToByte(Normalize(TapSum(img, gx, gy, c, 16), TapWeightSum(gx, gy, 16)))
  }

  function BicubicNormalizedAt(img: ImageData, newWidth: nat, newHeight: nat, k: nat): byte
    requires newWidth > 0 && newHeight > 0
  {
    BicubicNormalizedChannel(img, newWidth, newHeight, (k / 4) % newWidth, (k / 4) / newWidth, k % 4)
  }

  /** Bicubic resampling with the weights normalised by their signed sum. */
  function BicubicNormalized(img: ImageData, newWidth: nat, newHeight: nat): (r: Option<ImageData>)
    ensures IsResampled(r, newWidth, newHeight)
  {
    if newWidth == 0 || newHeight == 0 then None
    else
      var n := newWidth * newHeight * 4;
      Some(ImageData(newWidth, newHeight, seq(n, k requires 0 <= k < n => BicubicNormalizedAt(img, newWidth, newHeight, k))))
  }

  /** Normalised by the signed weights, a uniform channel keeps its value. */
  lemma BicubicNormalizedUniform(img: ImageData, newWidth: nat, newHeight: nat, x: int, y: int, c: nat, v: byte)
    requires Uniform(img, c, v) && img.width > 0 && img.height > 0 && newWidth > 0 && newHeight > 0
    ensures BicubicNormalizedChannel(img, newWidth, newHeight, x, y, c) == v
  {
    var gx, gy := SourceCoord(x, img.width, newWidth), SourceCoord(y, img.height, newHeight);
    UniformSum(img, gx, gy, c, v);
    NeighbourhoodSums(gx, gy);
    NormalizeByOne(TapSum(img, gx, gy, c, 16), TapWeightSum(gx, gy, 16), v as real);
    ClampToByteOfByte(v);
  }

  /** Halving the white square now gives a white pixel. */
  lemma BicubicNormalizedWhiteSquare()
    ensures BicubicNormalized(WhiteSquare(), 1, 1) == Some(ImageData(1, 1, [255, 255, 255, 255]))
  {
    var img := WhiteSquare();
    forall c | 0 <= c < 4
      ensures BicubicNormalizedAt(img, 1, 1, c) == 255
    {
      WhiteSquareUniform(c % 4);
      BicubicNormalizedUniform(img, 1, 1, (c / 4) % 1, (c / 4) / 1, c % 4, 255);
    }
    assert BicubicNormalized(img, 1, 1).value.data == [255, 255, 255, 255];
  }

  // ---------------------------------------------------------------- bicubic: resampling to the same size

  lemma ScaledByOne(v: byte, w: real)
    requires w == 1.0
    ensures Scaled(v, w) == v as real
  {
  }

  lemma ScaledByZero(v: byte, w: real)
    requires w == 0.0
    ensures Scaled(v, w) == 0.0
  {
  }

  /** On a pixel centre only tap 5, the pixel itself, has a weight, and it is 1. */
  lemma TapWeightAtInteger(gx: real, gy: real, t: int)
    requires gx == gx.Floor as real && gy == gy.Floor as real && 0 <= t < 16
    ensures TapWeight(gx, gy, t) == if t == 5 then 1.0 else 0.0
  {
    var i, j := t / 4, t % 4;
    TapWeightFactors(gx, gy, t, i, j);
    AxisWeightAtInteger(gx, i);
    AxisWeightAtInteger(gy, j);
  }

  /** On a pixel centre the first n taps sum to that pixel's value once tap 5
      is included, and so do their weight magnitudes to 1. */
  lemma {:induction false} IntegerTapSums(img: ImageData, gx: real, gy: real, c: int, n: nat)
    requires gx == gx.Floor as real && gy == gy.Floor as real && n <= 16
    ensures TapSum(img, gx, gy, c, n) == if n > 5 then TapValue(img, gx.Floor, gy.Floor, c) as real else 0.0
    ensures TapAbsSum(gx, gy, n) == if n > 5 then 1.0 else 0.0
    decreases n
  {
    if n > 0 {
      IntegerTapSums(img, gx, gy, c, n - 1);
      TapWeightAtInteger(gx, gy, n - 1);
      var p := TapValue(img, TapX(gx, n - 1), TapY(gy, n - 1), c);
      if n - 1 == 5 {
        assert TapX(gx, n - 1) == gx.Floor && TapY(gy, n - 1) == gy.Floor;
        ScaledByOne(p, TapWeight(gx, gy, n - 1));
      } else {
        ScaledByZero(p, TapWeight(gx, gy, n - 1));
      }
    }
  }

  /** Resampled to its own size, each bicubic output byte is the source byte. */
  lemma BicubicSameSizeChannel(img: ImageData, x: nat, y: nat, c: nat)
    requires img.Valid() && x < img.width && y < img.height && c < 4
    ensures BicubicChannel(img, img.width, img.height, x, y, c) == img.At(x, y, c)
    ensures BicubicNormalizedChannel(img, img.width, img.height, x, y, c) == img.At(x, y, c)
  {
    var w, h := img.width, img.height;
    var gx, gy := SourceCoord(x, w, w), SourceCoord(y, h, h);
    SourceCoordSameSize(x, w);
    SourceCoordSameSize(y, h);
    assert gx.Floor == x && gy.Floor == y;
    IntegerTapSums(img, gx, gy, c, 16);
    NeighbourhoodSums(gx, gy);
    ChannelIndexInBounds(w, h, x, y, c);
    var v := TapValue(img, x, y, c);
    assert v == img.At(x, y, c);
    NormalizeByOne(TapSum(img, gx, gy, c, 16), TapAbsSum(gx, gy, 16), v as real);
    NormalizeByOne(TapSum(img, gx, gy, c, 16), TapWeightSum(gx, gy, 16), v as real);
    ClampToByteOfByte(v);
  }

  /** At the same size, the bicubic resampler gives back sample k of the image. */
  lemma BicubicSameSizeAt(img: ImageData, k: nat, x: nat, y: nat, c: nat)
    requires img.Valid() && x < img.width && y < img.height && c < 4
    requires x == (k / 4) % img.width && y == (k / 4) / img.width && c == k % 4
    requires ChannelIndex(img.width, x, y, c) == k
    ensures k < |img.data| && BicubicAt(img, img.width, img.height, k) == img.data[k]
  {
    BicubicSameSizeData(img, x, y, c);
  }

  /** At the same size, the corrected bicubic resampler gives back sample k of the image. */
  lemma BicubicNormalizedSameSizeAt(img: ImageData, k: nat, x: nat, y: nat, c: nat)
    requires img.Valid() && x < img.width && y < img.height && c < 4
    requires x == (k / 4) % img.width && y == (k / 4) / img.width && c == k % 4
    requires ChannelIndex(img.width, x, y, c) == k
    ensures k < |img.data| && BicubicNormalizedAt(img, img.width, img.height, k) == img.data[k]
  {
    BicubicSameSizeData(img, x, y, c);
  }

  /** The same-size channels of both variants, read off the source buffer. */
  lemma BicubicSameSizeData(img: ImageData, x: nat, y: nat, c: nat)
    requires img.Valid() && x < img.width && y < img.height && c < 4
    ensures 0 <= ChannelIndex(img.width, x, y, c) < |img.data|
    ensures BicubicChannel(img, img.width, img.height, x, y, c) == img.data[ChannelIndex(img.width, x, y, c)]
    ensures BicubicNormalizedChannel(img, img.width, img.height, x, y, c) == img.data[ChannelIndex(img.width, x, y, c)]
  {
    ChannelIndexInBounds(img.width, img.height, x, y, c);
    BicubicSameSizeChannel(img, x, y, c);
  }

  /** Resampling to the same size with bicubic interpolation copies the image. */
  lemma BicubicIdentity(img: ImageData)
    requires img.Valid() && img.width > 0 && img.height > 0
    ensures Bicubic(img, img.width, img.height) == Some(img)
  {
    var r := Bicubic(img, img.width, img.height).value;
    forall k | 0 <= k < |img.data|
      ensures r.data[k] == img.data[k]
    {
      FlatIndexInRange(img.width, img.height, k);
      BicubicSameSizeAt(img, k, (k / 4) % img.width, (k / 4) / img.width, k % 4);
    }
    assert r.data == img.data;
  }

  /** The corrected bicubic resampler copies the image at the same size too. */
  lemma BicubicNormalizedIdentity(img: ImageData)
    requires img.Valid() && img.width > 0 && img.height > 0
    ensures BicubicNormalized(img, img.width, img.height) == Some(img)
  {
    var q := BicubicNormalized(img, img.width, img.height).value;
    forall k | 0 <= k < |img.data|
      ensures q.data[k] == img.data[k]
    {
      FlatIndexInRange(img.width, img.height, k);
      BicubicNormalizedSameSizeAt(img, k, (k / 4) % img.width, (k / 4) / img.width, k % 4);
    }
    assert q.data == img.data;
  }
}
