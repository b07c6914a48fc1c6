/** The GrayBit-7 raster format (src/utils/ImageFormats/GrayBit7.js).

    A file is a 12-byte header followed by one byte per pixel:
      offset 0  4 bytes  signature 47 42 37 1D
      offset 4  1 byte   version, 1
      offset 5  1 byte   flags, bit 0 = the payload carries a mask bit
      offset 6  2 bytes  width, big-endian
      offset 8  2 bytes  height, big-endian
      offset 10 2 bytes  reserved, written as 0
      offset 12 w*h      bits 0-6 = 7-bit gray, bit 7 = mask bit
    On a byte b, `b & 0x7F` is b % 128 and `(b & 0x80) !== 0` is b >= 128. */
module GrayBit7 {
  import opened Common

  const SIGNATURE: seq<byte> := [0x47, 0x42, 0x37, 0x1D]
  const VERSION: byte := 0x01
  const HEADER_SIZE: nat := 12

  /** At least a header's worth of bytes, starting with the signature. */
  predicate HasSignature(buffer: seq<byte>)
  {
    |buffer| >= HEADER_SIZE && buffer[..|SIGNATURE|] == SIGNATURE
  }

  /** `isGrayBit7`: too short for a header is not GrayBit-7; otherwise the
      first four bytes are compared with the signature one by one. */
  method IsGrayBit7(buffer: seq<byte>) returns (r: bool)
    ensures r <==> |buffer| >= HEADER_SIZE && buffer[..4] == [0x47, 0x42, 0x37, 0x1D]
  {
    if |buffer| < HEADER_SIZE {
      return false;
    }
    var i := 0;
    while i < |SIGNATURE|
      invariant 0 <= i <= |SIGNATURE|
      invariant buffer[..i] == SIGNATURE[..i]
    {
      if buffer[i] != SIGNATURE[i] {
        assert buffer[..4][i] != SIGNATURE[i];
        return false;
      }
      i := i + 1;
    }
    return true;
  }

  /** `DataView.getUint16(offset, false)`. */
  function GetUint16BE(b: seq<byte>, offset: nat): (v: nat)
    requires offset + 2 <= |b|
    ensures v < 65536
  {
    b[offset] as int * 256 + b[offset + 1] as int
  }

  /** The two bytes `DataView.setUint16(offset, v, false)` writes; the number
      is first reduced modulo 2^16, so reading them back gives v mod 65536. */
  function SetUint16BE(v: int): (r: seq<byte>)
    ensures |r| == 2 && GetUint16BE(r, 0) == v % 65536
  {
    var u := v % 65536;
    DivUnique(u, 256, u / 256, u % 256);
    [u / 256, u % 256]
  }

  // ---------------------------------------------------------------- quantisation

  /** `Math.round((r + g + b) / 3)`: the rounded mean of the three colour channels. */
  function Gray8(r: byte, g: byte, b: byte): (v: byte)
    ensures 3 * v - 1 <= r + g + b <= 3 * v + 1
  {
    RoundDiv(r + g + b, 3)
  }

  /** `Math.round((gray / 255) * 127)`: the 7-bit level nearest to an 8-bit gray. */
  function Gray7(gray: byte): (q: int)
    ensures 0 <= q <= 127
    ensures 510 * q - 255 <= 254 * gray < 510 * q + 255
  {
    RoundDiv(gray * 127, 255)
  }

  /** `Math.round((grayValue / 127) * 255)`: the 8-bit gray nearest to a 7-bit level. */
  function Expand(q: int): (v: byte)
    requires 0 <= q <= 127
    ensures 254 * v - 127 <= 510 * q < 254 * v + 127
  {
    RoundDiv(q * 255, 127)
  }

  /** Expanding a 7-bit level and quantising it again gives the level back. */
  lemma QuantizeExpand(q: int)
    requires 0 <= q <= 127
    ensures Gray7(Expand(q)) == q
  {
    var v := Expand(q);
    var q2 := Gray7(v);
    // 510 q2 - 255 <= 254 v < 510 q2 + 255 and 254 v - 127 <= 510 q < 254 v + 127
    assert 510 * q2 - 255 - 127 < 510 * q && 510 * q < 510 * q2 + 255 + 127;
    if q2 < q { MulLe(q2 + 1, q, 510); }
    if q2 > q { MulLe(q + 1, q2, 510); }
  }

  /** Quantising an 8-bit gray to 7 bits and expanding it loses at most one level. */
  lemma ExpandQuantize(gray: byte)
    ensures -1 <= Expand(Gray7(gray)) - gray <= 1
  {
    var q := Gray7(gray);
    var v := Expand(q);
    assert 254 * v - 127 <= 510 * q && 510 * q - 255 <= 254 * gray;
    assert 510 * q < 254 * v + 127 && 254 * gray < 510 * q + 255;
    if v > gray + 1 { MulLe(gray + 2, v, 254); }
    if v < gray - 1 { MulLe(v + 2, gray, 254); }
  }

  // ---------------------------------------------------------------- encoding

  /** One payload byte of `encode`: `gray7Bit & 0x7F`, with `maskBit << 7`
      or-ed in when the mask is requested. */
  function PayloadByte(r: byte, g: byte, b: byte, a: byte, includeMask: bool): (p: byte)
    ensures p % 128 == Gray7(Gray8(r, g, b))
    ensures p >= 128 <==> includeMask && a > 127
  {
    var q := Gray7(Gray8(r, g, b));
    var low := q % 128;
    DivUnique(q, 128, 0, q);
    DivUnique(q + 128, 128, 1, q);
    if includeMask && a > 127 then low + 128 else low
  }

  /** The 12 header bytes `encode` writes. */
  function Header(width: int, height: int, includeMask: bool): (h: seq<byte>)
    ensures |h| == HEADER_SIZE
  {
    SIGNATURE + [VERSION, if includeMask then 0x01 else 0x00]
      + SetUint16BE(width) + SetUint16BE(height) + SetUint16BE(0x0000)
  }

  /** Channel c (0 = R, 1 = G, 2 = B, 3 = A) of pixel i of an image. */
  function Channel(img: ImageData, i: nat, c: nat): byte
    requires img.Valid() && i < img.width * img.height && c < 4
  {
    img.data[4 * i + c]
  }

  /** The payload byte of pixel i of a buffer. */
  function Payload(buffer: seq<byte>, i: nat): byte
    requires HEADER_SIZE + i < |buffer|
  {
    buffer[HEADER_SIZE + i]
  }

  /** The payload byte `encode` writes for pixel i of an image. */
  function PayloadAt(img: ImageData, includeMask: bool, i: nat): byte
    requires img.Valid() && i < img.width * img.height
  {
    PayloadByte(Channel(img, i, 0), Channel(img, i, 1), Channel(img, i, 2), Channel(img, i, 3), includeMask)
  }

  /** The whole buffer `encode(imageData, includeMask)` returns. */
  function Encoding(img: ImageData, includeMask: bool): (e: seq<byte>)
    requires img.Valid()
    ensures |e| == HEADER_SIZE + img.width * img.height
  {
    Header(img.width, img.height, includeMask)
      + seq(img.width * img.height, i requires 0 <= i < img.width * img.height => PayloadAt(img, includeMask, i))
  }

  /** `encode`: allocates HEADER_SIZE + width * height bytes, writes the
      header, then one payload byte per pixel. */
  method Encode(img: ImageData, includeMask: bool) returns (bytes: seq<byte>)
    requires img.Valid()
    ensures bytes == Encoding(img, includeMask)
  {
    var n := img.width * img.height;
    var buffer := new byte[HEADER_SIZE + n];
    var header := Header(img.width, img.height, includeMask);
    var j := 0;
    while j < HEADER_SIZE
      invariant 0 <= j <= HEADER_SIZE
      invariant forall k :: 0 <= k < j ==> buffer[k] == header[k]
    {
      buffer[j] := header[j];
      j := j + 1;
    }
    assert buffer[..HEADER_SIZE] == header;
    WritePayload(buffer, img, includeMask);
    var e := Encoding(img, includeMask);
    forall k | 0 <= k < |e|
      ensures buffer[k] == e[k]
    {
      if k < HEADER_SIZE {
        assert buffer[k] == buffer[..HEADER_SIZE][k] == header[k] == e[k];
      } else {
        assert buffer[HEADER_SIZE + (k - HEADER_SIZE)] == PayloadAt(img, includeMask, k - HEADER_SIZE);
      }
    }
    bytes := buffer[..];
  }

  /** The pixel loop of `encode`: byte HEADER_SIZE + i receives the payload
      byte of pixel i, and the header bytes are left alone. */
  method WritePayload(buffer: array<byte>, img: ImageData, includeMask: bool)
    requires img.Valid() && buffer.Length == HEADER_SIZE + img.width * img.height
    modifies buffer
    ensures buffer[..HEADER_SIZE] == old(buffer[..HEADER_SIZE])
    ensures forall k :: 0 <= k < img.width * img.height ==> buffer[HEADER_SIZE + k] == PayloadAt(img, includeMask, k)
  {
    var n := img.width * img.height;
    var i := 0;
    while i < n
      invariant 0 <= i <= n
      invariant buffer[..HEADER_SIZE] == old(buffer[..HEADER_SIZE])
      invariant forall k :: 0 <= k < i ==> buffer[HEADER_SIZE + k] == PayloadAt(img, includeMask, k)
    {
      var pixelByte := EncodePixel(img, includeMask, i);
      buffer[HEADER_SIZE + i] := pixelByte;
      i := i + 1;
    }
  }

  /** The body of the pixel loop of `encode`: the rounded mean gray, reduced
      to 7 bits, with the mask bit set for an alpha above 127 when a mask is
      requested. */
  method EncodePixel(img: ImageData, includeMask: bool, i: nat) returns (pixelByte: byte)
    requires img.Valid() && i < img.width * img.height
    ensures pixelByte == PayloadAt(img, includeMask, i)
  {
    var r, g, b, a := Channel(img, i, 0), Channel(img, i, 1), Channel(img, i, 2), Channel(img, i, 3);
    var gray := Gray8(r, g, b);
    var gray7Bit := Gray7(gray);
    pixelByte := gray7Bit % 128;
    if includeMask {
      var maskBit := if a > 127 then 1 else 0;
      pixelByte := pixelByte + maskBit * 128;
    }
  }

  /** The header of every encoded buffer: signature, version 1, the mask
      flag, width and height (through setUint16, so modulo 65536) and a zero
      reserved field. */
  lemma EncodingHeader(img: ImageData, includeMask: bool)
    requires img.Valid()
    ensures var e := Encoding(img, includeMask);
      && e[..4] == [0x47, 0x42, 0x37, 0x1D] && e[4] == 0x01
      && e[5] == (if includeMask then 0x01 else 0x00)
      && GetUint16BE(e, 6) == img.width % 65536
      && GetUint16BE(e, 8) == img.height % 65536
      && e[10] == 0 && e[11] == 0
  {
    var e := Encoding(img, includeMask);
    var h := Header(img.width, img.height, includeMask);
    assert e[..HEADER_SIZE] == h;
    assert e[6..8] == SetUint16BE(img.width);
    assert e[8..10] == SetUint16BE(img.height);
    assert e[10..12] == SetUint16BE(0);
  }

  /** Each payload byte of an encoded buffer: its low 7 bits are the 7-bit
      level of the rounded channel mean, and bit 7 is set exactly when the
      mask is included and alpha exceeds 127. */
  lemma EncodingPayload(img: ImageData, includeMask: bool, i: nat)
    requires img.Valid() && i < img.width * img.height
    ensures var e := Encoding(img, includeMask);
      && Payload(e, i) % 128 == Gray7(Gray8(Channel(img, i, 0), Channel(img, i, 1), Channel(img, i, 2)))
      && (Payload(e, i) >= 128 <==> includeMask && Channel(img, i, 3) > 127)
  {
    assert Payload(Encoding(img, includeMask), i) == PayloadAt(img, includeMask, i);
  }

  /** The 2x2 white, opaque image without a mask encodes to 14 bytes whose payload is 0x7F four times. */
  lemma EncodeWhiteSquare()
    ensures Encoding(ImageData(2, 2, seq(16, _ => 255)), false)
      == [0x47, 0x42, 0x37, 0x1D, 0x01, 0x00, 0x00, 0x02, 0x00, 0x02, 0x00, 0x00, 0x7F, 0x7F, 0x7F, 0x7F]
  {
    var img := ImageData(2, 2, seq(16, _ => 255));
    var e := Encoding(img, false);
    assert Gray7(Gray8(255, 255, 255)) == 127;
    assert Header(2, 2, false) == [0x47, 0x42, 0x37, 0x1D, 0x01, 0x00, 0x00, 0x02, 0x00, 0x02, 0x00, 0x00];
    forall i | 0 <= i < 4 ensures PayloadAt(img, false, i) == 0x7F {
      assert Channel(img, i, 0) == 255 && Channel(img, i, 1) == 255 && Channel(img, i, 2) == 255;
    }
  }

  // ---------------------------------------------------------------- decoding

  datatype DecodeError =
    | BadSignature
    | UnsupportedVersion(version: byte)
    | TruncatedData(expected: nat, actual: int)
    | EmptyImage(width: nat, height: nat)   // `new ImageData` throws for a side of 0

  /** The `metadata` record of `decode` (its `format` field is always 'GrayBit-7'). */
  datatype Metadata = Metadata(version: byte, hasMask: bool, width: nat, height: nat, originalSize: nat)

  datatype Decoding = Decoding(image: ImageData, metadata: Metadata)

  /** The message of the Error `decode` throws. */
  function DecodeErrorMessage(e: DecodeError): string
  {
    match e
    case BadSignature => "Неверная сигнатура файла GrayBit-7"
    case UnsupportedVersion(v) => "Неподдерживаемая версия GrayBit-7: " + NatToString(v)
    case TruncatedData(expected, actual) =>
      "Недостаточно данных изображения. Ожидается: " + NatToString(expected)
        + ", получено: " + (if actual < 0 then "-" + NatToString(-actual) else NatToString(actual))
    case EmptyImage(_, _) => INDEX_SIZE_ERROR
  }

  /** The message of the exception `new ImageData(width, height)` raises for a
      side of 0; its exact text is the browser's, so only its name is kept. */
  const INDEX_SIZE_ERROR: string := "IndexSizeError"

  /** The RGBA channel c that `decode` writes for one payload byte. */
  function DecodedChannel(pixelByte: byte, hasMask: bool, c: nat): byte
    requires c < 4
  {
    if c < 3 then Expand(pixelByte % 128)
    else if hasMask then (if pixelByte >= 128 then 255 else 0)
    else 255
  }

  /** The RGBA bytes decoded from the first n payload bytes of a buffer. */
  function DecodedPixels(buffer: seq<byte>, n: nat, hasMask: bool): (px: seq<byte>)
    requires HEADER_SIZE + n <= |buffer|
    ensures |px| == 4 * n
  {
    seq(4 * n, k requires 0 <= k < 4 * n => DecodedChannel(buffer[HEADER_SIZE + k / 4], hasMask, k % 4))
  }

  /** What `decode(buffer)` returns or throws. */
  function Decoded(buffer: seq<byte>): Result<Decoding, DecodeError>
  {
    if !HasSignature(buffer) then Err(BadSignature)
    else if buffer[4] != VERSION then Err(UnsupportedVersion(buffer[4]))
    else
      var width, height := GetUint16BE(buffer, 6), GetUint16BE(buffer, 8);
      var hasMask := buffer[5] % 2 == 1;
      if |buffer| - HEADER_SIZE < width * height then
        Err(TruncatedData(width * height, |buffer| - HEADER_SIZE))
      else if width * height == 0 then
        Err(EmptyImage(width, height))
      else
        Ok(Decoding(ImageData(width, height, DecodedPixels(buffer, width * height, hasMask)),
                    Metadata(buffer[4], hasMask, width, height, |buffer|)))
  }

  /** `decode`: checks the signature, reads the header, rejects other
      versions and short payloads, fails where `new ImageData` rejects a side
      of 0, then fills the RGBA pixels in a loop. */
  method Decode(buffer: seq<byte>) returns (r: Result<Decoding, DecodeError>)
    ensures r == Decoded(buffer)
  {
    var isGB7 := IsGrayBit7(buffer);
    if !isGB7 {
      return Err(BadSignature);
    }
    var version := buffer[4];
    var flags := buffer[5];
    var hasMask := flags % 2 == 1;
    var width := GetUint16BE(buffer, 6);
    var height := GetUint16BE(buffer, 8);
    if version != VERSION {
      return Err(UnsupportedVersion(version));
    }
    var expectedDataSize := width * height;
    var actualDataSize := |buffer| - HEADER_SIZE;
    if actualDataSize < expectedDataSize {
      return Err(TruncatedData(expectedDataSize, actualDataSize));
    }
    if expectedDataSize == 0 {
      return Err(EmptyImage(width, height));
    }
    var pixels := new byte[4 * expectedDataSize];
    var i := 0;
    while i < expectedDataSize
      invariant 0 <= i <= expectedDataSize
      invariant forall k :: 0 <= k < 4 * i ==> pixels[k] == DecodedChannel(buffer[HEADER_SIZE + k / 4], hasMask, k % 4)
    {
      var previous := i;
      i := i + 1;
      DecodePixel(pixels, buffer, hasMask, previous, i);
    }
    assert pixels[..] == DecodedPixels(buffer, expectedDataSize, hasMask);
    r := Ok(Decoding(ImageData(width, height, pixels[..]), Metadata(version, hasMask, width, height, |buffer|)));
  }

  /** The body of the pixel loop of `decode`: payload byte i becomes an RGBA
      pixel whose gray is expanded from the 7-bit level and whose alpha
      follows bit 7 when the mask flag is set. */
  method DecodePixel(pixels: array<byte>, buffer: seq<byte>, hasMask: bool, i: nat, next: nat)
    requires next == i + 1 && 4 * next <= pixels.Length && HEADER_SIZE + i < |buffer|
    requires forall k :: 0 <= k < 4 * i ==> pixels[k] == DecodedChannel(buffer[HEADER_SIZE + k / 4], hasMask, k % 4)
    modifies pixels
    ensures forall k :: 0 <= k < 4 * next ==> pixels[k] == DecodedChannel(buffer[HEADER_SIZE + k / 4], hasMask, k % 4)
  {
    ghost var before := pixels[..4 * i];
    var pixelByte := buffer[HEADER_SIZE + i];
    var grayValue := pixelByte % 128;
    var maskBit := pixelByte >= 128;
    var grayValue8Bit := Expand(grayValue);
    var pixelIndex := 4 * i;
    pixels[pixelIndex] := grayValue8Bit;
    pixels[pixelIndex + 1] := grayValue8Bit;
    pixels[pixelIndex + 2] := grayValue8Bit;
    if hasMask {
      pixels[pixelIndex + 3] := if maskBit then 255 else 0;
    } else {
      pixels[pixelIndex + 3] := 255;
    }
    assert pixels[..4 * i] == before;
    forall k | 0 <= k < 4 * next
      ensures pixels[k] == DecodedChannel(buffer[HEADER_SIZE + k / 4], hasMask, k % 4)
    {
      if k < 4 * i {
        assert pixels[k] == before[k];
      } else {
        DivUnique(k, 4, i, k - 4 * i);
      }
    }
  }

  /** `decode` fails exactly on a bad signature, a version other than 1,
      fewer payload bytes than width * height, or a width or height of 0,
      checked in that order, and succeeds exactly when none of them applies. */
  lemma DecodeFailures(buffer: seq<byte>)
    ensures Decoded(buffer) == Err(BadSignature) <==> !HasSignature(buffer)
    ensures Decoded(buffer).Err? && Decoded(buffer).error.UnsupportedVersion? <==>
      HasSignature(buffer) && buffer[4] != 0x01
    ensures Decoded(buffer).Err? && Decoded(buffer).error.TruncatedData? <==>
      HasSignature(buffer) && buffer[4] == 0x01
      && |buffer| - 12 < GetUint16BE(buffer, 6) * GetUint16BE(buffer, 8)
    ensures Decoded(buffer).Err? && Decoded(buffer).error.EmptyImage? <==>
      HasSignature(buffer) && buffer[4] == 0x01
      && |buffer| - 12 >= GetUint16BE(buffer, 6) * GetUint16BE(buffer, 8)
      && (GetUint16BE(buffer, 6) == 0 || GetUint16BE(buffer, 8) == 0)
    ensures Decoded(buffer).Ok? <==>
      HasSignature(buffer) && buffer[4] == 0x01
      && |buffer| - 12 >= GetUint16BE(buffer, 6) * GetUint16BE(buffer, 8)
      && GetUint16BE(buffer, 6) >= 1 && GetUint16BE(buffer, 8) >= 1
  {
  }

  /** Any header with version 1 and a side of 0 is rejected by `new ImageData`. */
  lemma DecodedEmptySide(buffer: seq<byte>)
    requires HasSignature(buffer) && buffer[4] == VERSION
    requires GetUint16BE(buffer, 6) == 0 || GetUint16BE(buffer, 8) == 0
    ensures Decoded(buffer) == Err(EmptyImage(GetUint16BE(buffer, 6), GetUint16BE(buffer, 8)))
  {
    var w, h := GetUint16BE(buffer, 6), GetUint16BE(buffer, 8);
    assert w * h == 0;
  }

  /** A header with a side of 0 is rejected even with nothing missing: the
      signature, version 1, width 0, height 5 and no payload. */
  lemma EmptySideRejected(buffer: seq<byte>)
    requires buffer == SIGNATURE + [VERSION, 0x00, 0x00, 0x00, 0x00, 0x05, 0x00, 0x00]
    ensures Decoded(buffer) == Err(EmptyImage(0, 5))
  {
    assert buffer[..4] == SIGNATURE;
  }

  /** A successful decode reads width and height, both at least 1, big-endian
      at offsets 6 and 8, the mask flag from bit 0 of byte 5, and records the
      buffer length. */
  lemma DecodedHeader(buffer: seq<byte>)
    requires Decoded(buffer).Ok?
    ensures var d := Decoded(buffer).value;
      && d.image.Valid()
      && d.image.width == d.metadata.width == buffer[6] as int * 256 + buffer[7] as int
      && d.image.height == d.metadata.height == buffer[8] as int * 256 + buffer[9] as int
      && d.image.width >= 1 && d.image.height >= 1
      && d.metadata.hasMask == (buffer[5] % 2 == 1)
      && d.metadata.version == 1
      && d.metadata.originalSize == |buffer|
      && d.image.width * d.image.height <= |buffer| - HEADER_SIZE
  {
  }

  /** Decoded pixel i is gray, expanded from the 7-bit level of payload byte
      i; its alpha follows bit 7 when the mask flag is set and is 255 otherwise. */
  lemma DecodedPixel(buffer: seq<byte>, i: nat)
    requires Decoded(buffer).Ok?
    requires i < Decoded(buffer).value.image.width * Decoded(buffer).value.image.height
    ensures var d := Decoded(buffer).value;
      var g := Expand(Payload(buffer, i) % 128);
      && d.image.Valid()
      && Channel(d.image, i, 0) == g && Channel(d.image, i, 1) == g && Channel(d.image, i, 2) == g
      && Channel(d.image, i, 3) == (if !d.metadata.hasMask || Payload(buffer, i) >= 128 then 255 else 0)
  {
    var d := Decoded(buffer).value;
    var n := d.image.width * d.image.height;
    DivUnique(4 * i, 4, i, 0);
    DivUnique(4 * i + 1, 4, i, 1);
    DivUnique(4 * i + 2, 4, i, 2);
    DivUnique(4 * i + 3, 4, i, 3);
  }

  /** Bytes after the payload are ignored: appending any suffix to a
      decodable buffer changes only the recorded original size. */
  lemma TrailingBytesIgnored(buffer: seq<byte>, extra: seq<byte>)
    requires Decoded(buffer).Ok?
    ensures Decoded(buffer + extra).Ok?
    ensures Decoded(buffer + extra).value.image == Decoded(buffer).value.image
    ensures Decoded(buffer + extra).value.metadata
      == Decoded(buffer).value.metadata.(originalSize := |buffer| + |extra|)
  {
    var b2 := buffer + extra;
    assert b2[..4] == buffer[..4];
    assert b2[4] == buffer[4] && b2[5] == buffer[5];
    assert GetUint16BE(b2, 6) == GetUint16BE(buffer, 6);
    assert GetUint16BE(b2, 8) == GetUint16BE(buffer, 8);
    var n := GetUint16BE(buffer, 6) * GetUint16BE(buffer, 8);
    var hasMask := buffer[5] % 2 == 1;
    assert DecodedPixels(b2, n, hasMask) == DecodedPixels(buffer, n, hasMask);
  }

  /** Decoding an encoded image whose sides fit in 16 bits and are not 0
      succeeds, keeps the size and records whether the mask was included. */
  lemma RoundTripHeader(img: ImageData, includeMask: bool)
    requires img.Valid() && 1 <= img.width < 65536 && 1 <= img.height < 65536
    ensures Decoded(Encoding(img, includeMask)).Ok?
    ensures var d := Decoded(Encoding(img, includeMask)).value;
      && d.image.width == img.width && d.image.height == img.height
      && d.metadata.hasMask == includeMask
      && |d.image.data| == |img.data|
  {
    EncodingHeader(img, includeMask);
    var e := Encoding(img, includeMask);
    assert e[..4] == SIGNATURE;
    DecodedFromHeader(e, img.width, img.height, includeMask);
  }

  /** A buffer with the signature, version 1, a flag byte, sides w and h of at least 1 and
      exactly w * h payload bytes decodes to a w x h image with that flag. */
  lemma DecodedFromHeader(buffer: seq<byte>, w: nat, h: nat, hasMask: bool)
    requires w >= 1 && h >= 1
    requires |buffer| == HEADER_SIZE + w * h && buffer[..4] == SIGNATURE && buffer[4] == VERSION
    requires buffer[5] == (if hasMask then 0x01 else 0x00)
    requires GetUint16BE(buffer, 6) == w && GetUint16BE(buffer, 8) == h
    ensures Decoded(buffer).Ok?
    ensures var d := Decoded(buffer).value;
      && d.image.width == w && d.image.height == h
      && d.metadata.hasMask == hasMask
      && |d.image.data| == 4 * (w * h)
  {
  }

  /** The pixels of the round trip: each becomes the gray that is at most one
      level from the rounded mean of its colour channels, and alpha becomes
      0 or 255 by the a > 127 threshold (255 everywhere without a mask). */
  lemma RoundTripPixel(img: ImageData, includeMask: bool, i: nat)
    requires img.Valid() && img.width < 65536 && img.height < 65536
    requires i < img.width * img.height
    ensures Decoded(Encoding(img, includeMask)).Ok?
    ensures var d := Decoded(Encoding(img, includeMask)).value;
      var mean := Gray8(Channel(img, i, 0), Channel(img, i, 1), Channel(img, i, 2));
      && d.image.Valid() && i < d.image.width * d.image.height
      && Channel(d.image, i, 0) == Channel(d.image, i, 1) == Channel(d.image, i, 2) == Expand(Gray7(mean))
      && -1 <= Channel(d.image, i, 0) - mean <= 1
      && Channel(d.image, i, 3) == (if !includeMask || Channel(img, i, 3) > 127 then 255 else 0)
  {
    var e := Encoding(img, includeMask);
    SidesOfNonEmpty(img.width, img.height, i);
    RoundTripHeader(img, includeMask);
    EncodingPayload(img, includeMask, i);
    DecodedPixel(e, i);
    ExpandQuantize(Gray8(Channel(img, i, 0), Channel(img, i, 1), Channel(img, i, 2)));
  }

  lemma SidesOfNonEmpty(w: nat, h: nat, i: nat)
    requires i < w * h
    ensures w >= 1 && h >= 1
  {
  }

  /** Encoding the pixel decoded from one payload byte reproduces the byte,
      except that bit 7 is cleared when the mask is not carried. */
  lemma ReencodeByte(p: byte, hasMask: bool)
    ensures var g := Expand(p % 128);
      PayloadByte(g, g, g, DecodedChannel(p, hasMask, 3), hasMask) == (if hasMask then p else p % 128)
  {
    var g := Expand(p % 128);
    QuantizeExpand(p % 128);
    assert Gray8(g, g, g) == g;
    var e := PayloadByte(g, g, g, DecodedChannel(p, hasMask, 3), hasMask);
    assert e % 128 == p % 128;
    if p >= 128 { DivUnique(p, 128, 1, p - 128); } else { DivUnique(p, 128, 0, p); }
    if e >= 128 { DivUnique(e, 128, 1, e - 128); } else { DivUnique(e, 128, 0, e); }
  }

  /** Decoding a GrayBit-7 buffer and encoding the image again, with the mask
      exactly when the file had one, reproduces payload byte i; without a
      mask only the unused bit 7 is cleared. */
  lemma ReencodeDecoded(buffer: seq<byte>, i: nat)
    requires Decoded(buffer).Ok?
    requires i < Decoded(buffer).value.image.width * Decoded(buffer).value.image.height
    ensures var d := Decoded(buffer).value;
      d.image.Valid() &&
      Payload(Encoding(d.image, d.metadata.hasMask), i)
        == (if d.metadata.hasMask then Payload(buffer, i) else Payload(buffer, i) % 128)
  {
    var d := Decoded(buffer).value;
    DecodedHeader(buffer);
    DecodedPixel(buffer, i);
    var p := Payload(buffer, i);
    var img, m := d.image, d.metadata.hasMask;
    assert Channel(img, i, 3) == DecodedChannel(p, m, 3);
    ReencodeByte(p, m);
    PayloadOfEncoding(img, m, i);
  }

  lemma PayloadOfEncoding(img: ImageData, includeMask: bool, i: nat)
    requires img.Valid() && i < img.width * img.height
    ensures Payload(Encoding(img, includeMask), i) == PayloadAt(img, includeMask, i)
  {
    var n := img.width * img.height;
    var h := Header(img.width, img.height, includeMask);
    var body := seq(n, k requires 0 <= k < n => PayloadAt(img, includeMask, k));
    assert Encoding(img, includeMask) == h + body;
    assert (h + body)[HEADER_SIZE + i] == body[i];
  }

  // ---------------------------------------------------------------- file info

  /** The record `getFileInfo` returns (its `format` field is always 'GrayBit-7'). */
  datatype FileInfo = FileInfo(version: byte, hasMask: bool, width: nat, height: nat, fileSize: nat, dataSize: int)

  /** `getFileInfo`: null for anything that is not GrayBit-7, otherwise the
      header fields, read without any version or length check. */
  function GetFileInfo(buffer: seq<byte>): (info: Option<FileInfo>)
    ensures info.None? <==> !HasSignature(buffer)
    ensures info.Some? ==>
      && info.value.version == buffer[4]
      && info.value.hasMask == (buffer[5] % 2 == 1)
      && info.value.width == GetUint16BE(buffer, 6)
      && info.value.height == GetUint16BE(buffer, 8)
      && info.value.fileSize == |buffer|
      && info.value.dataSize == |buffer| - 12 >= 0
  {
    if !HasSignature(buffer) then None
    else Some(FileInfo(buffer[4], buffer[5] % 2 == 1, GetUint16BE(buffer, 6), GetUint16BE(buffer, 8),
                       |buffer|, |buffer| - HEADER_SIZE))
  }

  /** `getFileInfo` and a successful `decode` agree on every header field. */
  lemma FileInfoMatchesDecode(buffer: seq<byte>)
    requires Decoded(buffer).Ok?
    ensures var info := GetFileInfo(buffer).value; var m := Decoded(buffer).value.metadata;
      info.version == m.version && info.hasMask == m.hasMask && info.width == m.width
      && info.height == m.height && info.fileSize == m.originalSize
      && info.dataSize >= info.width * info.height
  {
  }
}
