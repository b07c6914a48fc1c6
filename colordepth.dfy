/** The colour-depth heuristic of colorDepth.js: the distinct values of each
    channel over a sample of RGBA pixels, a bit estimate per channel from a
    threshold table, transparency flags, and the labels built from them. */
module ColorDepth {
  import opened Common

  datatype ChannelStats = ChannelStats(uniqueValues: nat, estimatedBits: nat)

  /** The object `calculateColorDepth` returns. */
  datatype ColorDepthInfo = ColorDepthInfo(
    bitsPerChannel: nat,
    totalBits: nat,
    hasAlpha: bool,
    hasPartialTransparency: bool,
    description: string,
    detailedDescription: string,
    red: ChannelStats,
    green: ChannelStats,
    blue: ChannelStats,
    alpha: ChannelStats)

  function Pow2(b: nat): (p: nat)
    ensures p >= 1 && p > b
    ensures b >= 1 ==> p % 2 == 0
  {
    if b == 0 then 1 else 2 * Pow2(b - 1)
  }

  // ---------------------------------------------------------------- bits per channel

  /** `estimateBitsForChannel`: the fewest bits, from 1 up to 8, that can
      tell uniqueCount levels apart. */
  function EstimateBits(uniqueCount: int): (bits: nat)
    ensures 1 <= bits <= 8
    ensures bits == 8 || uniqueCount <= Pow2(bits)
    ensures bits == 1 || uniqueCount > Pow2(bits - 1)
  {
    if uniqueCount <= 2 then 1
    else if uniqueCount <= 4 then 2
    else if uniqueCount <= 8 then 3
    else if uniqueCount <= 16 then 4
    else if uniqueCount <= 32 then 5
    else if uniqueCount <= 64 then 6
    else if uniqueCount <= 128 then 7
    else 8
  }

  lemma Pow2Monotone(a: nat, b: nat)
    requires a <= b
    ensures Pow2(a) <= Pow2(b)
    decreases b
  {
    if a < b { Pow2Monotone(a, b - 1); }
  }

  /** More distinct values never need fewer bits. */
  lemma EstimateBitsMonotone(a: int, b: int)
    requires a <= b
    ensures EstimateBits(a) <= EstimateBits(b)
  {
    var x, y := EstimateBits(a), EstimateBits(b);
    if x > y {
      // a > 2^(x-1) >= 2^y >= b
      Pow2Monotone(y, x - 1);
    }
  }

  /** Any bit width from 1 to 8 whose levels cover uniqueCount is at least the estimate. */
  lemma EstimateBitsLeast(uniqueCount: int, b: nat)
    requires 1 <= b <= 8 && uniqueCount <= Pow2(b)
    ensures EstimateBits(uniqueCount) <= b
  {
    var e := EstimateBits(uniqueCount);
    if e > b {
      Pow2Monotone(b, e - 1);
    }
  }

  // ---------------------------------------------------------------- the sample

  /** The distinct values channel c takes over the first n pixels. */
  function Values(data: seq<byte>, c: nat, n: nat): set<byte>
    requires c < 4 && 4 * n <= |data|
  {
    if n == 0 then {} else Values(data, c, n - 1) + {data[4 * (n - 1) + c]}
  }

  /** A value is among the distinct values iff some pixel has it in that channel. */
  lemma {:induction false} ValuesMembers(data: seq<byte>, c: nat, n: nat, v: byte)
    requires c < 4 && 4 * n <= |data|
    ensures v in Values(data, c, n) <==> exists p :: 0 <= p < n && data[4 * p + c] == v
  {
    if n > 0 {
      ValuesMembers(data, c, n - 1, v);
      if v in Values(data, c, n) && v !in Values(data, c, n - 1) {
        assert data[4 * (n - 1) + c] == v;
      }
    }
  }

  /** The bytes 0 .. k - 1. */
  function ByteRange(k: nat): (r: set<byte>)
    requires k <= 256
    ensures |r| == k
    ensures forall v: byte :: v in r <==> v < k
  {
    if k == 0 then {} else ByteRange(k - 1) + {k - 1}
  }

  lemma SubsetCard<T>(a: set<T>, b: set<T>)
    requires a <= b
    ensures |a| <= |b|
  {
    assert b == a + (b - a);
  }

  /** There are no more distinct values than pixels, and no more than 256. */
  lemma {:induction false} ValuesBounds(data: seq<byte>, c: nat, n: nat)
    requires c < 4 && 4 * n <= |data|
    ensures |Values(data, c, n)| <= n
    ensures |Values(data, c, n)| <= 256
  {
    if n > 0 {
        ValuesBounds(data, c, n - 1);
    }
    AtMostAllBytes(Values(data, c, n), 256);
  }

  lemma AtMostAllBytes(s: set<byte>, k: nat)
    requires k == 256
    ensures |s| <= k
  {
    SubsetCard(s, ByteRange(k));
  }

  /** Some of the first n pixels has alpha below 255. */
  predicate SomeTransparent(data: seq<byte>, n: nat)
    requires 4 * n <= |data|
  {
    exists p :: 0 <= p < n && data[4 * p + 3] < 255
  }

  /** Some of the first n pixels has alpha strictly between 0 and 255. */
  predicate SomePartial(data: seq<byte>, n: nat)
    requires 4 * n <= |data|
  {
    exists p :: 0 <= p < n && 0 < data[4 * p + 3] < 255
  }

  // ---------------------------------------------------------------- labels

  /** The text after the bit count in a short description for a channel width. */
  function KindLabel(bitsPerChannel: int): (k: string)
    ensures |k| > 0 && k[|k| - 1] != 'A'
  {
    if bitsPerChannel <= 1 then "-bit Монохром"
    else if bitsPerChannel <= 4 then "-bit Индексированный"
    else "-bit RGB"
  }

  function AlphaLabel(hasAlpha: bool): string
  {
    if hasAlpha then "A" else ""
  }

  /** `getColorDepthDescription`. */
  function Description(bitsPerChannel: nat, hasAlpha: bool, hasPartialTransparency: bool): string
  {
    var totalBits := if hasAlpha then bitsPerChannel * 4 else bitsPerChannel * 3;
    var alphaInfo := if hasAlpha then (if hasPartialTransparency then "A" else "A") else "";
    if bitsPerChannel <= 1 then NatToString(totalBits) + "-bit Монохром" + alphaInfo
    else if bitsPerChannel <= 4 then NatToString(totalBits) + "-bit Индексированный" + alphaInfo
    else if bitsPerChannel == 5 then (if hasAlpha then "20-bit RGBA" else "15-bit RGB")
    else if bitsPerChannel == 6 then (if hasAlpha then "24-bit RGBA" else "18-bit RGB")
    else if bitsPerChannel == 8 then (if hasAlpha then "32-bit RGBA" else "24-bit RGB")
    else NatToString(totalBits) + "-bit RGB" + alphaInfo
  }

  /** Every label reads "<channels times bits>-bit <kind>", with "A" appended
      exactly when there is alpha: the special cases for 5, 6 and 8 bits
      agree with that rule, and partial transparency never changes the label. */
  lemma DescriptionRule(bitsPerChannel: nat, hasAlpha: bool, hasPartialTransparency: bool)
    ensures var d := Description(bitsPerChannel, hasAlpha, hasPartialTransparency);
      d == NatToString(bitsPerChannel * (if hasAlpha then 4 else 3)) + KindLabel(bitsPerChannel) + AlphaLabel(hasAlpha)
      && (d[|d| - 1] == 'A' <==> hasAlpha)
  {
    var b := bitsPerChannel;
    if b == 5 || b == 6 || b == 8 {
      FixedLabel(b, hasAlpha, hasPartialTransparency);
    } else {
      GeneralLabel(b, hasAlpha, hasPartialTransparency);
    }
    var d := NatToString(b * (if hasAlpha then 4 else 3)) + KindLabel(b) + AlphaLabel(hasAlpha);
    var k := KindLabel(b);
    if !hasAlpha {
      assert d[|d| - 1] == k[|k| - 1];
    }
  }

  lemma GeneralLabel(b: nat, hasAlpha: bool, hasPartialTransparency: bool)
    requires b != 5 && b != 6 && b != 8
    ensures Description(b, hasAlpha, hasPartialTransparency)
      == NatToString(b * (if hasAlpha then 4 else 3)) + KindLabel(b) + AlphaLabel(hasAlpha)
  {
  }

  /** The fixed labels for 5, 6 and 8 bits spell out the total bit count. */
  lemma FixedLabel(b: nat, hasAlpha: bool, hasPartialTransparency: bool)
    requires b == 5 || b == 6 || b == 8
    ensures Description(b, hasAlpha, hasPartialTransparency)
      == NatToString(b * (if hasAlpha then 4 else 3)) + KindLabel(b) + AlphaLabel(hasAlpha)
  {
    assert Description(b, hasAlpha, hasPartialTransparency) == Description(b, hasAlpha, false);
    if b == 5 { FixedLabel5Alpha(); FixedLabel5Opaque(); }
    else if b == 6 { FixedLabel6Alpha(); FixedLabel6Opaque(); }
    else { FixedLabel8Alpha(); FixedLabel8Opaque(); }
  }

  lemma FixedLabel5Alpha()
    ensures Description(5, true, false) == NatToString(20) + KindLabel(5) + AlphaLabel(true)
  {
  }

  lemma FixedLabel5Opaque()
    ensures Description(5, false, false) == NatToString(15) + KindLabel(5) + AlphaLabel(false)
  {
  }

  lemma FixedLabel6Alpha()
    ensures Description(6, true, false) == NatToString(24) + KindLabel(6) + AlphaLabel(true)
  {
  }

  lemma FixedLabel6Opaque()
    ensures Description(6, false, false) == NatToString(18) + KindLabel(6) + AlphaLabel(false)
  {
  }

  lemma FixedLabel8Alpha()
    ensures Description(8, true, false) == NatToString(32) + KindLabel(8) + AlphaLabel(true)
  {
  }

  lemma FixedLabel8Opaque()
    ensures Description(8, false, false) == NatToString(24) + KindLabel(8) + AlphaLabel(false)
  {
  }

  /** The first part of every detailed description. */
  function DetailBase(bitsPerChannel: nat): string
  {
    NatToString(bitsPerChannel) + " бит на канал (RGB)"
  }

  /** `getDetailedDescription`: the per-channel width, then the alpha width
      appended exactly when there is alpha. */
  function DetailedDescription(bitsPerChannel: nat, hasAlpha: bool, alphaBits: nat): (d: string)
    ensures |DetailBase(bitsPerChannel)| <= |d| && d[..|DetailBase(bitsPerChannel)|] == DetailBase(bitsPerChannel)
    ensures |d| > |DetailBase(bitsPerChannel)| <==> hasAlpha
  {
    var description := DetailBase(bitsPerChannel);
    if hasAlpha then description + " + " + NatToString(alphaBits) + " бит альфа" else description
  }

  /** The detailed description starts with the bits per channel in decimal. */
  lemma DetailedDescriptionNumber(bitsPerChannel: nat, hasAlpha: bool, alphaBits: nat)
    ensures var d := DetailedDescription(bitsPerChannel, hasAlpha, alphaBits);
      var digits := NatToString(bitsPerChannel);
      |digits| <= |d| && ParseDigits(d[..|digits|]) == bitsPerChannel
  {
    var d := DetailedDescription(bitsPerChannel, hasAlpha, alphaBits);
    var digits := NatToString(bitsPerChannel);
    assert d[..|digits|] == DetailBase(bitsPerChannel)[..|digits|] == digits;
    ParseNatToString(bitsPerChannel);
  }

  // ---------------------------------------------------------------- the analysis

  /** The object built after the scan (lines 92-113 of colorDepth.js) from the
      distinct-value counts and the two transparency flags. */
  function Summarize(redCount: nat, greenCount: nat, blueCount: nat, alphaCount: nat,
                     hasTransparency: bool, hasPartialTransparency: bool): (info: ColorDepthInfo)
    ensures 1 <= info.bitsPerChannel <= 8
    ensures info.bitsPerChannel >= info.red.estimatedBits && info.bitsPerChannel >= info.green.estimatedBits
      && info.bitsPerChannel >= info.blue.estimatedBits
    ensures info.bitsPerChannel in {info.red.estimatedBits, info.green.estimatedBits, info.blue.estimatedBits}
    ensures info.red == ChannelStats(redCount, EstimateBits(redCount))
      && info.green == ChannelStats(greenCount, EstimateBits(greenCount))
      && info.blue == ChannelStats(blueCount, EstimateBits(blueCount))
    ensures info.alpha == ChannelStats(alphaCount, if hasTransparency then EstimateBits(alphaCount) else 0)
    ensures info.totalBits == 3 * info.bitsPerChannel + info.alpha.estimatedBits
    ensures 3 <= info.totalBits <= 32
    ensures info.hasAlpha == hasTransparency && info.hasPartialTransparency == hasPartialTransparency
    ensures info.description == Description(info.bitsPerChannel, hasTransparency, hasPartialTransparency)
    ensures info.detailedDescription == DetailedDescription(info.bitsPerChannel, hasTransparency, info.alpha.estimatedBits)
  {
    var redBits, greenBits, blueBits := EstimateBits(redCount), EstimateBits(greenCount), EstimateBits(blueCount);
    var alphaBits := if hasTransparency then EstimateBits(alphaCount) else 0;
    var maxChannelBits := Max(Max(redBits, greenBits), blueBits);
    var totalBits := if hasTransparency then maxChannelBits * 3 + alphaBits else maxChannelBits * 3;
    ColorDepthInfo(
      maxChannelBits, totalBits, hasTransparency, hasPartialTransparency,
      Description(maxChannelBits, hasTransparency, hasPartialTransparency),
      DetailedDescription(maxChannelBits, hasTransparency, alphaBits),
      ChannelStats(redCount, redBits), ChannelStats(greenCount, greenBits),
      ChannelStats(blueCount, blueBits), ChannelStats(alphaCount, alphaBits))
  }

  /** `calculateColorDepth` over the RGBA bytes of a sample. */
  method CalculateColorDepth(data: seq<byte>) returns (info: ColorDepthInfo)
    requires |data| % 4 == 0
    ensures var n := |data| / 4;
      info == Summarize(|Values(data, 0, n)|, |Values(data, 1, n)|, |Values(data, 2, n)|, |Values(data, 3, n)|,
                        SomeTransparent(data, n), SomePartial(data, n))
    ensures info.hasAlpha <==> exists p :: 0 <= p < |data| / 4 && data[4 * p + 3] < 255
    ensures info.hasPartialTransparency <==> exists p :: 0 <= p < |data| / 4 && 0 < data[4 * p + 3] < 255
    ensures info.hasPartialTransparency ==> info.hasAlpha
    ensures var n := |data| / 4;
      info.red.uniqueValues <= Min(n, 256) && info.green.uniqueValues <= Min(n, 256)
      && info.blue.uniqueValues <= Min(n, 256) && info.alpha.uniqueValues <= Min(n, 256)
  {
    var red, green, blue, alpha, hasTransparency, hasPartialTransparency := ScanSample(data);
    var n := |data| / 4;
    ValuesBounds(data, 0, n);
    ValuesBounds(data, 1, n);
    ValuesBounds(data, 2, n);
    ValuesBounds(data, 3, n);
    info := Summarize(|red|, |green|, |blue|, |alpha|, hasTransparency, hasPartialTransparency);
  }

  /** The loop of `calculateColorDepth`: the distinct values of each channel
      and the two transparency flags over all pixels of the sample. */
  method ScanSample(data: seq<byte>)
    returns (red: set<byte>, green: set<byte>, blue: set<byte>, alpha: set<byte>,
             hasTransparency: bool, hasPartialTransparency: bool)
    requires |data| % 4 == 0
    ensures var n := |data| / 4;
      red == Values(data, 0, n) && green == Values(data, 1, n) && blue == Values(data, 2, n) && alpha == Values(data, 3, n)
    ensures hasTransparency == SomeTransparent(data, |data| / 4)
    ensures hasPartialTransparency == SomePartial(data, |data| / 4)
  {
    red, green, blue, alpha := {}, {}, {}, {};
    hasTransparency, hasPartialTransparency := false, false;
    var p := 0;
    while p < |data| / 4
      invariant 0 <= p <= |data| / 4
      invariant red == Values(data, 0, p) && green == Values(data, 1, p)
      invariant blue == Values(data, 2, p) && alpha == Values(data, 3, p)
      invariant hasTransparency == SomeTransparent(data, p)
      invariant hasPartialTransparency == SomePartial(data, p)
    {
      var i := 4 * p;
      var r, g, b, a := data[i], data[i + 1], data[i + 2], data[i + 3];
      red, green, blue, alpha := red + {r}, green + {g}, blue + {b}, alpha + {a};
      if a < 255 { hasTransparency := true; }
      if a > 0 && a < 255 { hasPartialTransparency := true; }
      ghost var previous := p;
      p := p + 1;
      ScanStep(data, previous, p);
    }
  }

  /** One more pixel adds its value to each channel's set and may raise a flag. */
  lemma ScanStep(data: seq<byte>, n: nat, next: nat)
    requires next == n + 1 && 4 * next <= |data|
    ensures forall c :: 0 <= c < 4 ==> Values(data, c, next) == Values(data, c, n) + {data[4 * n + c]}
    ensures SomeTransparent(data, next) <==> SomeTransparent(data, n) || data[4 * n + 3] < 255
    ensures SomePartial(data, next) <==> SomePartial(data, n) || 0 < data[4 * n + 3] < 255
  {
    if data[4 * n + 3] < 255 { assert SomeTransparent(data, next); }
    if 0 < data[4 * n + 3] < 255 { assert SomePartial(data, next); }
  }
}
