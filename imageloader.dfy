/** The file-name and data-URL helpers of ImageLoader.js: the extension of a
    file name, the supported-format check, the choice between the GrayBit-7
    decoder and the browser's own loader, the format named by a data URL,
    and the size estimate of its base64 payload. */
module ImageLoader {
  import opened Common
  import GrayBit7

  // ---------------------------------------------------------------- getFileExtension

  /** `s.lastIndexOf(ch)`: the last index holding ch, or -1. */
  function LastIndexOf(s: string, ch: char): (i: int)
    ensures -1 <= i < |s|
    ensures i >= 0 ==> s[i] == ch
    ensures forall j :: i < j < |s| ==> s[j] != ch
    decreases |s|
  {
    if s == [] then -1
    else if s[|s| - 1] == ch then |s| - 1
    else LastIndexOf(s[..|s| - 1], ch)
  }

  /** `x >>> 0`: the integer taken modulo 2^32. */
  function ToUint32(x: int): (u: int)
    ensures 0 <= u < 0x1_0000_0000
  {
    x % 0x1_0000_0000
  }

  /** `s.slice(start)` for a start that is not negative. */
  function Slice(s: string, start: nat): string
  {
    if start >= |s| then [] else s[start..]
  }

  /** `getFileExtension`: `filename.slice((filename.lastIndexOf('.') - 1 >>> 0) + 2)`.
      Without a dot, or with the only dot first, the shift turns the start
      into 2^32 or 2^32 + 1, past the end of any name. */
  function GetFileExtension(filename: string): string
  {
    ExtensionFrom(filename, LastIndexOf(filename, '.'))
  }

  /** The slice `getFileExtension` takes when the last dot is at index i. */
  function ExtensionFrom(filename: string, i: int): string
  {
    Slice(filename, ToUint32(i - 1) + 2)
  }

  /** The extension is the text after the last dot when a dot follows the
      first character, and empty otherwise (for names of at most 2^32
      characters). */
  lemma ExtensionAfterLastDot(filename: string)
    requires |filename| <= 0x1_0000_0000
    ensures var i := LastIndexOf(filename, '.');
      GetFileExtension(filename) == if i >= 1 then filename[i + 1..] else []
  {
    ExtensionAt(filename, LastIndexOf(filename, '.'));
  }

  lemma ExtensionAt(filename: string, i: int)
    requires -1 <= i < |filename| <= 0x1_0000_0000
    ensures ExtensionFrom(filename, i) == if i >= 1 then filename[i + 1..] else []
  {
    ShiftedStart(i);
    SliceFrom(filename, i, ToUint32(i - 1) + 2);
  }

  lemma SliceFrom(filename: string, i: int, start: nat)
    requires -1 <= i < |filename| <= 0x1_0000_0000
    requires start == if i >= 1 then i + 1 else if i == 0 then 0x1_0000_0001 else 0x1_0000_0000
    ensures Slice(filename, start) == if i >= 1 then filename[i + 1..] else []
  {
  }

  /** Where the slice of `getFileExtension` starts, by the position of the last dot. */
  lemma ShiftedStart(i: int)
    requires -1 <= i <= 0x1_0000_0000
    ensures ToUint32(i - 1) + 2 == if i >= 1 then i + 1 else if i == 0 then 0x1_0000_0001 else 0x1_0000_0000
  {
    if i >= 1 {
      DivUnique(i - 1, 0x1_0000_0000, 0, i - 1);
    } else {
      DivUnique(i - 1, 0x1_0000_0000, -1, 0x1_0000_0000 + i - 1);
    }
  }

  /** The extension never holds a dot. */
  lemma ExtensionHasNoDot(filename: string)
    requires |filename| <= 0x1_0000_0000
    ensures '.' !in GetFileExtension(filename)
  {
    ExtensionAfterLastDot(filename);
    var i := LastIndexOf(filename, '.');
    if i >= 1 {
      var e := filename[i + 1..];
      forall k | 0 <= k < |e| ensures e[k] != '.' {
        assert e[k] == filename[i + 1 + k];
      }
    }
  }

  /** A non-empty name, a dot and a dot-free suffix: the suffix is the extension. */
  lemma ExtensionOfJoin(name: string, ext: string)
    requires |name| >= 1 && '.' !in ext && |name| + 1 + |ext| <= 0x1_0000_0000
    ensures GetFileExtension(name + "." + ext) == ext
  {
    var s := name + "." + ext;
    assert s[|name|] == '.';
    forall j | |name| < j < |s| ensures s[j] != '.' {
      assert s[j] == ext[j - |name| - 1];
    }
    LastDotAt(s, |name|);
    ExtensionAfterLastDot(s);
    assert s[|name| + 1..] == ext;
  }

  lemma LastDotAt(s: string, i: nat)
    requires i < |s| && s[i] == '.' && forall j :: i < j < |s| ==> s[j] != '.'
    ensures LastIndexOf(s, '.') == i
  {
  }

  // ---------------------------------------------------------------- isSupportedFormat and dispatch

  /** `toLowerCase` on the ASCII letters, which are the only letters the
      extension table uses. */
  function ToLower(s: string): (r: string)
    ensures |r| == |s|
    ensures forall i :: 0 <= i < |s| ==> r[i] == (if 'A' <= s[i] <= 'Z' then (s[i] as int + 32) as char else s[i])
  {
    seq(|s|, i requires 0 <= i < |s| => if 'A' <= s[i] <= 'Z' then (s[i] as int + 32) as char else s[i])
  }

  const SUPPORTED_EXTENSIONS: seq<string> := ["jpg", "jpeg", "png", "gif", "bmp", "webp", "svg", "gb7"]

  /** `isSupportedFormat`. */
  function IsSupportedFormat(filename: string): bool
  {
    ToLower(GetFileExtension(filename)) in SUPPORTED_EXTENSIONS
  }

  /** A supported file name has a dot after its first character and a
      non-empty extension. */
  lemma SupportedHasExtension(filename: string)
    requires |filename| <= 0x1_0000_0000 && IsSupportedFormat(filename)
    ensures LastIndexOf(filename, '.') >= 1 && GetFileExtension(filename) != []
  {
    ExtensionAfterLastDot(filename);
    EmptyNotSupported();
    assert |ToLower(GetFileExtension(filename))| > 0;
  }

  lemma EmptyNotSupported()
    ensures ToLower([]) !in SUPPORTED_EXTENSIONS
  {
    assert ToLower([]) == [];
  }

  /** A name joined to an extension without a dot is supported exactly when
      the lower-cased extension is one of the listed ones. */
  lemma SupportedByExtension(name: string, ext: string)
    requires |name| >= 1 && '.' !in ext && |name| + 1 + |ext| <= 0x1_0000_0000
    ensures IsSupportedFormat(name + "." + ext) <==> ToLower(ext) in SUPPORTED_EXTENSIONS
  {
    ExtensionOfJoin(name, ext);
  }

  /** Case does not matter: "photo.PNG" is supported like "photo.png". */
  lemma SupportedIgnoresCase(name: string)
    requires |name| >= 1 && |name| + 4 <= 0x1_0000_0000
    ensures IsSupportedFormat(name + "." + "PNG") && IsSupportedFormat(name + "." + "gb7")
  {
    SupportedByExtension(name, "PNG");
    SupportedByExtension(name, "gb7");
    assert ToLower("PNG") == "png";
    assert ToLower("gb7") == "gb7";
  }

  /** How `loadFromFile` reads the file and which loader `processFileData` calls. */
  datatype LoadPath = GrayBit7Path | StandardPath

  function LoadPathFor(filename: string): (p: LoadPath)
    ensures p == GrayBit7Path <==> ToLower(GetFileExtension(filename)) == "gb7"
  {
    if ToLower(GetFileExtension(filename)) == "gb7" then GrayBit7Path else StandardPath
  }

  /** Exactly the names ending in ".gb7", in any case, go to the GrayBit-7 decoder. */
  lemma GrayBit7Routing(name: string, ext: string)
    requires |name| >= 1 && '.' !in ext && |name| + 1 + |ext| <= 0x1_0000_0000
    ensures LoadPathFor(name + "." + ext) == GrayBit7Path <==> ToLower(ext) == "gb7"
  {
    ExtensionOfJoin(name, ext);
  }

  // ---------------------------------------------------------------- loadGrayBit7

  /** The object `loadGrayBit7` resolves with (the PNG data URL is not modelled). */
  datatype LoadedImage = LoadedImage(
    format: string,
    originalFormat: string,
    metadata: GrayBit7.Metadata,
    width: nat,
    height: nat,
    size: nat,
    colorDepth: string)

  const GRAYBIT7_ERROR_PREFIX: string := "Ошибка загрузки GrayBit-7: "

  /** `loadGrayBit7`: the decoded image with its label, or the decoder's
      message behind a prefix. */
  function LoadGrayBit7(buffer: seq<byte>): (r: Result<LoadedImage, string>)
    ensures r.Ok? <==> GrayBit7.Decoded(buffer).Ok?
    ensures r.Ok? ==> r.value.colorDepth == (if GrayBit7.Decoded(buffer).value.metadata.hasMask then "8-bit Grayscale+A" else "7-bit Grayscale")
    ensures r.Ok? ==> (r.value.size == |buffer| && r.value.width == GrayBit7.Decoded(buffer).value.image.width
      && r.value.height == GrayBit7.Decoded(buffer).value.image.height)
    ensures r.Err? ==> r.error == GRAYBIT7_ERROR_PREFIX + GrayBit7.DecodeErrorMessage(GrayBit7.Decoded(buffer).error)
  {
    match GrayBit7.Decoded(buffer)
    case Err(e) => Err("Ошибка загрузки GrayBit-7: " + GrayBit7.DecodeErrorMessage(e))
    case Ok(decoded) =>
      Ok(LoadedImage("GrayBit-7", "GrayBit-7", decoded.metadata, decoded.image.width, decoded.image.height,
                     |buffer|, if decoded.metadata.hasMask then "8-bit Grayscale+A" else "7-bit Grayscale"))
  }

  /** The label says "+A" exactly when the file's flag byte has bit 0 set. */
  lemma LoadLabelFollowsFlag(buffer: seq<byte>)
    requires LoadGrayBit7(buffer).Ok?
    ensures LoadGrayBit7(buffer).value.colorDepth == "8-bit Grayscale+A" <==> buffer[5] % 2 == 1
  {
    GrayBit7.DecodedHeader(buffer);
  }

  /** A GrayBit-7 file whose header gives a side of 0 is rejected with the
      prefix and the message of `new ImageData`, however many bytes follow. */
  lemma LoadRejectsEmptySide(buffer: seq<byte>)
    requires GrayBit7.HasSignature(buffer) && buffer[4] == GrayBit7.VERSION
    requires GrayBit7.GetUint16BE(buffer, 6) == 0 || GrayBit7.GetUint16BE(buffer, 8) == 0
    ensures LoadGrayBit7(buffer) == Err(GRAYBIT7_ERROR_PREFIX + GrayBit7.INDEX_SIZE_ERROR)
  {
    GrayBit7.DecodedEmptySide(buffer);
  }

  // ---------------------------------------------------------------- getFormatFromDataURL

  predicate StartsWith(s: string, prefix: string)
  {
    |prefix| <= |s| && s[..|prefix|] == prefix
  }

  /** `getFormatFromDataURL`. */
  function FormatFromDataURL(dataURL: string): string
  {
    if StartsWith(dataURL, "data:image/jpeg") then "JPEG"
    else if StartsWith(dataURL, "data:image/jpg") then "JPEG"
    else if StartsWith(dataURL, "data:image/png") then "PNG"
    else if StartsWith(dataURL, "data:image/gif") then "GIF"
    else if StartsWith(dataURL, "data:image/webp") then "WebP"
    else if StartsWith(dataURL, "data:image/bmp") then "BMP"
    else if StartsWith(dataURL, "data:image/svg") then "SVG"
    else "Unknown"
  }

  /** The prefixes and the names they map to, in the order they are tried. */
  const FORMAT_PREFIXES: seq<(string, string)> := [
    ("data:image/jpeg", "JPEG"), ("data:image/jpg", "JPEG"), ("data:image/png", "PNG"),
    ("data:image/gif", "GIF"), ("data:image/webp", "WebP"), ("data:image/bmp", "BMP"),
    ("data:image/svg", "SVG")]

  /** The name of the first table entry whose prefix the URL has. */
  function FirstPrefixMatch(dataURL: string, table: seq<(string, string)>): string
    decreases |table|
  {
    if table == [] then "Unknown"
    else if StartsWith(dataURL, table[0].0) then table[0].1
    else FirstPrefixMatch(dataURL, table[1..])
  }

  /** The if-chain is the table lookup: first match wins, "Unknown" otherwise. */
  lemma FormatIsTableLookup(dataURL: string)
    ensures FormatFromDataURL(dataURL) == FirstPrefixMatch(dataURL, FORMAT_PREFIXES)
    ensures FormatFromDataURL(dataURL) == "Unknown" <==>
      forall i :: 0 <= i < |FORMAT_PREFIXES| ==> !StartsWith(dataURL, FORMAT_PREFIXES[i].0)
  {
    var t := FORMAT_PREFIXES;
    assert t[1..][1..][1..][1..][1..][1..][1..] == [];
    if FormatFromDataURL(dataURL) != "Unknown" {
      if StartsWith(dataURL, t[0].0) {} else if StartsWith(dataURL, t[1].0) {}
      else if StartsWith(dataURL, t[2].0) {} else if StartsWith(dataURL, t[3].0) {}
      else if StartsWith(dataURL, t[4].0) {} else if StartsWith(dataURL, t[5].0) {}
      else { assert StartsWith(dataURL, t[6].0); }
    }
  }

  /** No URL has two of the prefixes, so the order of the checks never matters. */
  lemma PrefixesExclusive(dataURL: string, i: nat, j: nat)
    requires i < j < |FORMAT_PREFIXES|
    ensures !(StartsWith(dataURL, FORMAT_PREFIXES[i].0) && StartsWith(dataURL, FORMAT_PREFIXES[j].0))
  {
    var p, q := FORMAT_PREFIXES[i].0, FORMAT_PREFIXES[j].0;
    // the letter after "data:image/" tells the prefixes apart, except for
    // "jpeg" and "jpg", which differ two letters later
    var k := if i == 0 && j == 1 then 13 else 11;
    assert k < |p| && k < |q| && p[k] != q[k];
    assert StartsWith(dataURL, p) ==> dataURL[k] == dataURL[..|p|][k] == p[k];
    assert StartsWith(dataURL, q) ==> dataURL[k] == dataURL[..|q|][k] == q[k];
  }

  // ---------------------------------------------------------------- estimateDataURLSize

  /** `s.indexOf(ch)`: the first index holding ch, or -1. */
  function IndexOf(s: string, ch: char): (i: int)
    ensures -1 <= i < |s|
    ensures i >= 0 ==> s[i] == ch
    ensures forall j :: 0 <= j < |s| && (i < 0 || j < i) ==> s[j] != ch
    decreases |s|
  {
    if s == [] then -1
    else if s[0] == ch then 0
    else var k := IndexOf(s[1..], ch); if k < 0 then -1 else k + 1
  }

  /** `s.split(',')[1]`: the text between the first and the second comma
      (or the end), absent when there is no comma. */
  function SecondField(s: string): Option<string>
  {
    var i := IndexOf(s, ',');
    if i < 0 then None
    else
      var rest := s[i + 1..];
      var j := IndexOf(rest, ',');
      Some(if j < 0 then rest else rest[..j])
  }

  /** `estimateDataURLSize`: `Math.round(length * 0.75)` of the base64 part,
      0 when it is missing or empty; 0.75 * n rounds to (6n + 4) div 8. */
  function EstimateDataURLSize(dataURL: string): (n: nat)
  {
    match SecondField(dataURL)
    case None => 0
    case Some(b) => if b == [] then 0 else RoundDiv(3 * |b|, 4)
  }

  /** For a URL "<header>,<payload>" with no other comma, the estimate is
      three quarters of the payload length, rounded, and 0 only for an empty
      payload. */
  lemma EstimateOfDataURL(header: string, payload: string)
    requires ',' !in header && ',' !in payload
    ensures var n := EstimateDataURLSize(header + "," + payload);
      4 * n - 2 <= 3 * |payload| < 4 * n + 2
      && (n == 0 <==> payload == [])
  {
    var s := header + "," + payload;
    forall j | 0 <= j < |header| ensures s[j] != ',' { assert s[j] == header[j]; }
    assert s[|header|] == ',';
    FirstCommaAt(s, |header|);
    assert s[|header| + 1..] == payload;
    NoComma(payload);
  }

  lemma FirstCommaAt(s: string, i: nat)
    requires i < |s| && s[i] == ',' && forall j :: 0 <= j < i ==> s[j] != ','
    ensures IndexOf(s, ',') == i
  {
  }

  lemma NoComma(s: string)
    requires ',' !in s
    ensures IndexOf(s, ',') == -1
  {
  }
}
