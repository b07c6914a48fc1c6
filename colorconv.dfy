/** The colour helpers of colorConversions.js: reading an `rgb(r, g, b)`
    string, the WCAG 2.1 contrast ratio and its rating, and the status-bar
    text that shows a GrayBit-7 pixel's stored 7-bit level. */
module ColorConversions {
  import opened Common
  import GrayBit7

  datatype RGB = RGB(r: nat, g: nat, b: nat)

  // ---------------------------------------------------------------- extractRGB

  /** A character JavaScript's `\s` matches. */
  predicate IsSpace(ch: char)
  {
    ch == ' ' || ch == '\t' || ch == '\n' || ch == '\r' || ch == '\U{000B}' || ch == '\U{000C}'
    || ch == '\U{00A0}' || ch == '\U{1680}' || ('\U{2000}' <= ch <= '\U{200A}')
    || ch == '\U{2028}' || ch == '\U{2029}' || ch == '\U{202F}' || ch == '\U{205F}'
    || ch == '\U{3000}' || ch == '\U{FEFF}'
  }

  /** The longest run of decimal digits at the start of t, and the rest of t. */
  function DigitRun(t: string): (r: (string, string))
    ensures r.0 + r.1 == t && AllDigits(r.0)
    ensures r.1 == [] || !IsDigit(r.1[0])
    decreases |t|
  {
    if t != [] && IsDigit(t[0]) then
      var (digits, rest) := DigitRun(t[1..]);
      assert [t[0]] + digits + rest == [t[0]] + t[1..] == t;
      ([t[0]] + digits, rest)
    else ([], t)
  }

  /** t without its leading white space. */
  function SkipSpaces(t: string): (rest: string)
    ensures |rest| <= |t| && rest == t[|t| - |rest|..]
    ensures rest == [] || !IsSpace(rest[0])
    decreases |t|
  {
    if t != [] && IsSpace(t[0]) then SkipSpaces(t[1..]) else t
  }

  /** The pattern `rgb\((\d+),\s*(\d+),\s*(\d+)\)` matched at the start of t.
      A digit run followed by ',' or ')' and a space run followed by a digit
      cannot give back characters, so the greedy reading is the only one. */
  function MatchAt(t: string): Option<RGB>
  {
    if |t| < 4 || t[..4] != "rgb(" then None
    else
      var (d1, t1) := DigitRun(t[4..]);
      if d1 == [] || t1 == [] || t1[0] != ',' then None
      else
        var (d2, t2) := DigitRun(SkipSpaces(t1[1..]));
        if d2 == [] || t2 == [] || t2[0] != ',' then None
        else
          var (d3, t3) := DigitRun(SkipSpaces(t2[1..]));
          if d3 == [] || t3 == [] || t3[0] != ')' then None
          else Some(RGB(ParseDigits(d1), ParseDigits(d2), ParseDigits(d3)))
  }

  /** `String.prototype.match` without the global flag: the match that starts first. */
  function Search(t: string): Option<RGB>
    decreases |t|
  {
    if t == [] then None
    else if MatchAt(t).Some? then MatchAt(t)
    else Search(t[1..])
  }

  /** `extractRGB`: the three numbers of the first `rgb(...)` in the string,
      or black when there is none. */
  function ExtractRGB(s: string): RGB
  {
    if s == [] then RGB(0, 0, 0)
    else match Search(s)
      case None => RGB(0, 0, 0)
      case Some(c) => c
  }

  /** The string the pipette builds from a picked pixel. */
  function RgbString(c: RGB): string
  {
    "rgb(" + NatToString(c.r) + ", " + NatToString(c.g) + ", " + NatToString(c.b) + ")"
  }

  lemma {:induction false} DigitRunOf(digits: string, rest: string)
    requires AllDigits(digits) && (rest == [] || !IsDigit(rest[0]))
    ensures DigitRun(digits + rest) == (digits, rest)
    decreases |digits|
  {
    if digits == [] {
      assert digits + rest == rest;
    } else {
      assert (digits + rest)[1..] == digits[1..] + rest;
      DigitRunOf(digits[1..], rest);
      assert [digits[0]] + digits[1..] == digits;
    }
  }

  /** After a digit run come ", " and the next number: the second and third
      groups of the pattern. */
  lemma NextGroup(digits: string, tail: string)
    requires digits != [] && AllDigits(digits) && tail != [] && !IsDigit(tail[0])
    ensures DigitRun(SkipSpaces((", " + (digits + tail))[1..])) == (digits, tail)
  {
    var t := digits + tail;
    assert (", " + t)[1..] == [' '] + t;
    assert ([' '] + t)[1..] == t;
    assert !IsSpace(t[0]);
    DigitRunOf(digits, tail);
  }

  /** Three digit runs in the shape the pipette writes match the pattern. */
  lemma MatchGroups(dr: string, dg: string, db: string)
    requires dr != [] && AllDigits(dr) && dg != [] && AllDigits(dg) && db != [] && AllDigits(db)
    ensures MatchAt("rgb(" + (dr + (", " + (dg + (", " + (db + ")")))))) == Some(RGB(ParseDigits(dr), ParseDigits(dg), ParseDigits(db)))
  {
    var b := db + ")";
    var g := dg + (", " + b);
    var f := dr + (", " + g);
    var s := "rgb(" + f;
    assert s[..4] == "rgb(" && s[4..] == f;
    DigitRunOf(dr, ", " + g);
    NextGroup(dg, ", " + b);
    NextGroup(db, ")");
  }

  /** Reading back the pipette's string gives the picked colour. */
  lemma ExtractRgbString(c: RGB)
    ensures ExtractRGB(RgbString(c)) == c
  {
    var dr, dg, db := NatToString(c.r), NatToString(c.g), NatToString(c.b);
    assert RgbString(c) == "rgb(" + (dr + (", " + (dg + (", " + (db + ")")))));
    MatchGroups(dr, dg, db);
    ParseNatToString(c.r);
    ParseNatToString(c.g);
    ParseNatToString(c.b);
  }

  /** The colour read is the match that starts first. */
  lemma {:induction false} ExtractFirstMatch(s: string, i: nat)
    requires i < |s| && MatchAt(s[i..]).Some?
    requires forall j :: 0 <= j < i ==> MatchAt(s[j..]).None?
    ensures Search(s) == MatchAt(s[i..])
    decreases i
  {
    if i > 0 {
      assert MatchAt(s[0..]).None? && s[0..] == s;
      forall j | 0 <= j < i - 1
        ensures MatchAt(s[1..][j..]).None?
      {
        assert s[1..][j..] == s[j + 1..];
      }
      assert s[1..][i - 1..] == s[i..];
      ExtractFirstMatch(s[1..], i - 1);
    }
  }

  /** Without a match anywhere in the string the colour is black. */
  lemma {:induction false} ExtractNoMatch(s: string)
    requires forall j :: 0 <= j < |s| ==> MatchAt(s[j..]).None?
    ensures ExtractRGB(s) == RGB(0, 0, 0)
    ensures Search(s) == None
    decreases |s|
  {
    if s != [] {
      assert s[0..] == s;
      forall j | 0 <= j < |s| - 1
        ensures MatchAt(s[1..][j..]).None?
      {
        assert s[1..][j..] == s[j + 1..];
      }
      ExtractNoMatch(s[1..]);
    }
  }

  // ---------------------------------------------------------------- calculateContrast

  /** `getLuminance`: the WCAG 2.1 relative luminance, with the linearised
      channel curve (the sRGB transfer function) passed in. */
  function Luminance(linear: nat -> real, c: RGB): real
  {
    0.2126 * linear(c.r) + 0.7152 * linear(c.g) + 0.0722 * linear(c.b)
  }

  /** The weights sum to 1, so luminance stays in [0, 1] with the curve. */
  lemma LuminanceRange(linear: nat -> real, c: RGB)
    requires 0.0 <= linear(c.r) <= 1.0 && 0.0 <= linear(c.g) <= 1.0 && 0.0 <= linear(c.b) <= 1.0
    ensures 0.0 <= Luminance(linear, c) <= 1.0
  {
  }

  /** `(lighter + 0.05) / (darker + 0.05)`. */
  function ContrastRatio(lum1: real, lum2: real): (ratio: real)
    requires lum1 >= 0.0 && lum2 >= 0.0
    ensures ratio >= 1.0
  {
    var lighter, darker := MaxReal(lum1, lum2), MinReal(lum1, lum2);
    (lighter + 0.05) / (darker + 0.05)
  }

  /** The WCAG 2.1 levels the assessment text names. */
  datatype Rating = AAA | AA | AALargeText | Insufficient

  /** The assessment: at least 7 is AAA, at least 4.5 AA, at least 3 AA for large text. */
  function Rate(ratio: real): Rating
  {
    if ratio >= 7.0 then AAA
    else if ratio >= 4.5 then AA
    else if ratio >= 3.0 then AALargeText
    else Insufficient
  }

  function RatingText(r: Rating): string
  {
    match r
    case AAA => " (AAA - отличный)"
    case AA => " (AA - хороший)"
    case AALargeText => " (AA для крупного текста)"
    case Insufficient => " (⚠️ недостаточный)"
  }

  function Rank(r: Rating): nat
  {
    match r
    case Insufficient => 0
    case AALargeText => 1
    case AA => 2
    case AAA => 3
  }

  /** A higher ratio never gets a lower rating. */
  lemma RateMonotone(ratio1: real, ratio2: real)
    requires ratio1 <= ratio2
    ensures Rank(Rate(ratio1)) <= Rank(Rate(ratio2))
  {
  }

  /** The ratio and its rating (the two-decimal text is not modelled). */
  datatype Contrast = Contrast(ratio: real, rating: Rating)

  /** `calculateContrast`: nothing when either colour is missing. */
  function CalculateContrast(linear: nat -> real, c1: Option<RGB>, c2: Option<RGB>): (r: Option<Contrast>)
    requires forall v: nat :: linear(v) >= 0.0
    ensures r.Some? <==> c1.Some? && c2.Some?
    ensures r.Some? ==> r.value.ratio >= 1.0 && r.value.rating == Rate(r.value.ratio)
  {
    if c1.None? || c2.None? then None
    else
      var lum1, lum2 := Luminance(linear, c1.value), Luminance(linear, c2.value);
      var ratio := ContrastRatio(lum1, lum2);
      Some(Contrast(ratio, Rate(ratio)))
  }

  /** The order of the two colours does not matter. */
  lemma ContrastSymmetric(linear: nat -> real, c1: Option<RGB>, c2: Option<RGB>)
    requires forall v: nat :: linear(v) >= 0.0
    ensures CalculateContrast(linear, c1, c2) == CalculateContrast(linear, c2, c1)
  {
  }

  /** A colour against itself has ratio 1, which is insufficient. */
  lemma SelfContrast(linear: nat -> real, c: RGB)
    requires forall v: nat :: linear(v) >= 0.0
    ensures CalculateContrast(linear, Some(c), Some(c)) == Some(Contrast(1.0, Insufficient))
  {
    var l := Luminance(linear, c);
    assert ContrastRatio(l, l) == (l + 0.05) / (l + 0.05) == 1.0;
  }

  /** Black on white reaches the largest ratio, 21, and rates AAA. */
  lemma BlackOnWhite(linear: nat -> real)
    requires forall v: nat :: linear(v) >= 0.0
    requires linear(0) == 0.0 && linear(255) == 1.0
    ensures CalculateContrast(linear, Some(RGB(0, 0, 0)), Some(RGB(255, 255, 255))) == Some(Contrast(21.0, AAA))
  {
    assert Luminance(linear, RGB(0, 0, 0)) == 0.0;
    assert Luminance(linear, RGB(255, 255, 255)) == 1.0;
    assert ContrastRatio(0.0, 1.0) == 1.05 / 0.05 == 21.0;
  }

  /** No two luminances in [0, 1] are further apart than black and white. */
  lemma ContrastAtMost21(lum1: real, lum2: real)
    requires 0.0 <= lum1 <= 1.0 && 0.0 <= lum2 <= 1.0
    ensures ContrastRatio(lum1, lum2) <= 21.0
  {
    var lighter, darker := MaxReal(lum1, lum2), MinReal(lum1, lum2);
    QuotientAtMost(lighter + 0.05, darker + 0.05, 21.0);
  }

  lemma QuotientAtMost(a: real, b: real, k: real)
    requires b > 0.0 && a <= k * b
    ensures a / b <= k
  {
    var q := a / b;
    assert q * b == a;
    if q > k {
      assert (q - k) * b > 0.0;
    }
  }

  // ---------------------------------------------------------------- formatColorForDisplay

  /** `Math.round((r / 255) * 127)`: the 7-bit level of the red channel. */
  function Gray7Level(r: nat): nat
  {
    RoundDiv(r * 127, 255)
  }

  /** `formatColorForDisplay`: the string unchanged, with the stored 7-bit
      level appended for GrayBit-7 images. `format` is the `format` field of
      the stored original-format object, None when there is no such object. */
  function FormatColorForDisplay(rgbString: string, format: Option<string>): (d: string)
    ensures rgbString == [] ==> d == []
    ensures |rgbString| <= |d| && d[..|rgbString|] == rgbString
    ensures format != Some("GrayBit-7") ==> d == rgbString
  {
    if rgbString == [] then []
    else if format.Some? && format.value == "GrayBit-7" then
      var rgb := ExtractRGB(rgbString);
      rgbString + " → Gray: " + NatToString(Gray7Level(rgb.r)) + "/127"
    else rgbString
  }

  /** Picking a pixel that the GrayBit-7 decoder expanded from level q shows q. */
  lemma DisplayShowsStoredLevel(q: int)
    requires 0 <= q <= 127
    ensures var v := GrayBit7.Expand(q); var s := RgbString(RGB(v, v, v));
      FormatColorForDisplay(s, Some("GrayBit-7")) == s + " → Gray: " + NatToString(q) + "/127"
  {
    var v := GrayBit7.Expand(q);
    var s := RgbString(RGB(v, v, v));
    ExtractRgbString(RGB(v, v, v));
    GrayBit7.QuantizeExpand(q);
    assert Gray7Level(v) == GrayBit7.Gray7(v);
    assert s != [];
  }
}
