/** Values and arithmetic shared by every component of the image core:
    optional and error results, bytes, the browser's ImageData record,
    JavaScript's Math.round and Math.max/Math.min clamping, decimal
    number-to-string conversion, and the row-major RGBA index arithmetic. */
module Common {

  datatype Option<+T> = None | Some(value: T)

  datatype Result<+T, +E> = Ok(value: T) | Err(error: E)

  /** One element of a Uint8Array or Uint8ClampedArray. */
  type byte = x: int | 0 <= x < 256

  /** The browser's ImageData: width, height and row-major RGBA bytes. */
  datatype ImageData = ImageData(width: nat, height: nat, data: seq<byte>)
  {
    /** The length invariant every ImageData the platform hands out keeps. */
    predicate Valid() { |data| == width * height * 4 }

    /** Channel c (0 = R, 1 = G, 2 = B, 3 = A) of pixel (x, y). */
    function At(x: nat, y: nat, c: nat): byte
      requires Valid() && x < width && y < height && c < 4
    {
      ChannelIndexInBounds(width, height, x, y, c);
      data[ChannelIndex(width, x, y, c)]
    }
  }

  function Min(a: int, b: int): int { if a <= b then a else b }

  function Max(a: int, b: int): int { if a >= b then a else b }

  /** `Math.max(lo, Math.min(v, hi))`: when hi < lo the result is lo. */
  function Clamp(v: int, lo: int, hi: int): (r: int)
    ensures lo <= hi ==> lo <= r <= hi
    ensures lo <= v <= hi ==> r == v
    ensures r == lo || r == v || r == hi
  {
    Max(lo, Min(v, hi))
  }

  function MinReal(a: real, b: real): real { if a <= b then a else b }

  function MaxReal(a: real, b: real): real { if a >= b then a else b }

  /** `Math.abs` on an exact number. */
  function AbsReal(t: real): real { if t < 0.0 then -t else t }

  /** JavaScript's `Math.round` on an exact number: the nearest integer,
      halves rounded toward positive infinity. */
  function Round(x: real): (r: int)
    ensures r as real - 0.5 <= x < r as real + 0.5
  {
    (x + 0.5).Floor
  }

  /** `Math.round(n / d)` computed without leaving the integers. */
  function RoundDiv(n: int, d: int): (r: int)
    requires d > 0
    ensures 2 * d * r - d <= 2 * n < 2 * d * r + d
  {
    (2 * n + d) / (2 * d)
  }

  /** The quotient and remainder of n by d are unique. */
  lemma DivUnique(n: int, d: int, q: int, r: int)
    requires d > 0 && 0 <= r < d && n == q * d + r
    ensures n / d == q && n % d == r
  {
    var q0, r0 := n / d, n % d;
    assert n == d * q0 + r0;
    if q0 < q { MulLe(q0 + 1, q, d); }
    if q0 > q { MulLe(q + 1, q0, d); }
  }

  lemma MulLe(a: int, b: int, d: int)
    requires a <= b && d >= 0
    ensures a * d <= b * d
  {
  }

  lemma MulNonNegReal(a: real, b: real)
    requires a >= 0.0 && b >= 0.0
    ensures a * b >= 0.0
  {
  }

  lemma MulLeReal(t: real, u: real, b: real)
    requires t <= u && b >= 0.0
    ensures t * b <= u * b
  {
    MulNonNegReal(u - t, b);
    assert (u - t) * b == u * b - t * b;
  }

  /** A quotient below m follows from a dividend below m * d. */
  lemma DivBelow(n: int, d: int, m: int)
    requires d > 0 && n < m * d
    ensures n / d < m
  {
    if n / d >= m {
      MulLe(m, n / d, d);
    }
  }

  /** A proper fraction of non-negative integers lies in [0, 1). */
  lemma FracBelowOne(r: int, d: int)
    requires 0 <= r < d
    ensures 0.0 <= r as real / d as real < 1.0
  {
  }

  /** The floor of an exact quotient of integers is their floor division. */
  lemma RealDivFloor(n: int, d: int)
    requires d > 0
    ensures (n as real / d as real).Floor == n / d
  {
    var q, r := n / d, n % d;
    assert n as real == q as real * d as real + r as real;
    assert n as real / d as real == q as real + r as real / d as real;
    FracBelowOne(r, d);
  }

  /** Index of channel c of pixel (x, y) in a row-major RGBA buffer of the given width. */
  function ChannelIndex(width: int, x: int, y: int, c: int): int
  {
    4 * (y * width + x) + c
  }

  /** A flat RGBA index splits back into its pixel column, row and channel. */
  lemma FlatIndex(width: nat, x: nat, y: nat, c: nat)
    requires x < width && c < 4
    ensures var k := ChannelIndex(width, x, y, c);
      k / 4 == y * width + x && k % 4 == c &&
      (k / 4) % width == x && (k / 4) / width == y
  {
    var k := ChannelIndex(width, x, y, c);
    DivUnique(k, 4, y * width + x, c);
    DivUnique(y * width + x, width, y, x);
  }

  /** The index of a channel of a pixel inside the image lies inside its buffer. */
  lemma ChannelIndexInBounds(width: nat, height: nat, x: nat, y: nat, c: nat)
    requires x < width && y < height && c < 4
    ensures 0 <= ChannelIndex(width, x, y, c) < width * height * 4
  {
    MulLe(y + 1, height, width);
  }

  /** A flat index below width * height * 4 names a pixel inside the buffer. */
  lemma FlatIndexInRange(width: nat, height: nat, k: nat)
    requires k < width * height * 4
    ensures width > 0 && 0 <= (k / 4) / width < height && 0 <= (k / 4) % width < width
    ensures ChannelIndex(width, (k / 4) % width, (k / 4) / width, k % 4) == k
  {
    var p := k / 4;
    assert p < width * height;
    var y, x := p / width, p % width;
    assert p == y * width + x;
    if y >= height { MulLe(height, y, width); }
  }

  /** Sample k of a valid image is channel k % 4 of the pixel its quotient names. */
  lemma AtFlat(img: ImageData, k: nat)
    requires img.Valid() && k < |img.data|
    ensures img.width > 0 && img.height > 0
    ensures (k / 4) / img.width < img.height && (k / 4) % img.width < img.width
    ensures img.At((k / 4) % img.width, (k / 4) / img.width, k % 4) == img.data[k]
  {
    FlatIndexInRange(img.width, img.height, k);
  }

  /** The next channel index of a row-major scan: after the last channel of
      the last column of row y comes the first channel of row y + 1. */
  lemma NextRow(width: nat, y: nat)
    ensures ChannelIndex(width, width, y, 0) == ChannelIndex(width, 0, y + 1, 0)
  {
  }

  /** `data[i] || 0`: an index outside the buffer reads as undefined, which `|| 0` turns into 0. */
  function ReadOr0(data: seq<byte>, i: int): byte
  {
    if 0 <= i < |data| then data[i] else 0
  }

  /** Some byte at an index 3, 7, 11, ... (an alpha channel) is below 255:
      what a scan `for (let i = 3; i < data.length; i += 4)` looks for. */
  predicate SomeAlphaBelow255(data: seq<byte>)
  {
    exists i :: 0 <= i < |data| && i % 4 == 3 && data[i] < 255
  }

  function DigitChar(d: int): char
    requires 0 <= d < 10
  {
    "0123456789"[d]
  }

  function DigitValue(ch: char): int
  {
    if '0' <= ch <= '9' then ch as int - '0' as int else 0
  }

  predicate IsDigit(ch: char) { '0' <= ch <= '9' }

  predicate AllDigits(s: string) { forall i :: 0 <= i < |s| ==> IsDigit(s[i]) }

  /** A non-negative integer in decimal, as JavaScript's template literals print it. */
  function NatToString(n: nat): (s: string)
    ensures |s| >= 1 && AllDigits(s)
    ensures |s| > 1 ==> s[0] != '0'
    decreases n
  {
    if n < 10 then [DigitChar(n)] else NatToString(n / 10) + [DigitChar(n % 10)]
  }

  /** `parseInt(s, 10)` on a non-empty string of decimal digits. */
  function ParseDigits(s: string): (n: nat)
    decreases |s|
  {
    if s == [] then 0 else ParseDigits(s[..|s| - 1]) * 10 + DigitValue(s[|s| - 1])
  }

  /** Printing a number in decimal and reading it back gives the number. */
  lemma {:induction false} ParseNatToString(n: nat)
    ensures ParseDigits(NatToString(n)) == n
    decreases n
  {
    var s := NatToString(n);
    if n < 10 {
      assert s[..|s| - 1] == [];
    } else {
      ParseNatToString(n / 10);
      assert s[..|s| - 1] == NatToString(n / 10);
    }
  }
}
