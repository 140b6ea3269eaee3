/**
  metadata_extractors.py: how one file's metadata record is assembled.
  The libraries (exifread, PIL, mutagen, python-magic, PyPDF2) and the
  file system are not modelled; what they return for the file is an input
  (`FileEnv`), with `Err` standing for the exception they raise. How
  floats are printed is an input too (`Formats`).
*/
module MetadataExtractors {
  import opened Wrappers
  import opened PyStrings
  import opened PyValues
  import opened Runs
  import opened Collections
  import FileUtils

  // ---------------------------------------------------------------------
  // What the libraries report about the file
  // ---------------------------------------------------------------------

  /** An exifread `Ratio`. */
  datatype Rational = Rational(num: int, den: int)

  /** The `.values` of an exifread tag: rationals, or the characters of an ASCII tag. */
  datatype TagValues = Ratios(ratios: seq<Rational>) | Chars(text: string)

  /** An exifread tag: its `str()` and its `.values`. */
  datatype ExifTag = ExifTag(printable: string, values: TagValues)

  type ExifTags = map<string, ExifTag>

  /** A value of PIL's `img.info`: a plain scalar, or anything else (tuples, bytes). */
  datatype InfoValue = Plain(v: Value) | Structured

  datatype ImageFile = ImageFile(format: Value, mode: Value, width: int, height: int, info: map<string, InfoValue>)

  /** The attributes of mutagen's `audio.info` that exist for this file. */
  datatype AudioInfo = AudioInfo(length: Option<real>, bitrate: Option<int>, sampleRate: Option<int>, channels: Option<int>)

  /** A mutagen tag value: a list of texts, or a single text. */
  datatype TagValue = TagList(items: seq<string>) | TagText(text: string)

  /**
    A file mutagen recognised: its stream information, and its tags, or the
    exception reading them raised once the stream fields were written.
  */
  datatype AudioFile = AudioFile(info: AudioInfo, tags: Result<map<string, TagValue>>)

  /**
    PyPDF2's reader, call by call: `getNumPages()`, `getDocumentInfo()` (its
    entries in their own order) and `pdf_header`, each with the value it
    returns or the exception it raises.
  */
  datatype PdfFile = PdfFile(pages: Result<int>, info: Result<seq<(string, string)>>, header: Result<string>)

  datatype FileEnv = FileEnv(
    present: bool,                 // os.path.exists
    info: Record,                  // file_utils.get_file_info
    content: Option<seq<byte>>,    // the bytes, or None when the file cannot be opened
    exif: Result<ExifTags>,        // exifread.process_file
    image: Result<ImageFile>,      // PIL.Image.open
    audio: Result<Option<AudioFile>>, // mutagen.File
    mime: Result<string>,          // magic.Magic(mime=True).from_file
    description: Result<string>,   // magic.Magic().from_file
    pdf: Result<PdfFile>,          // PyPDF2.PdfFileReader
    text: Result<string>)          // open(..., 'r').read()

  /** Which optional libraries imported successfully. */
  datatype Libraries = Libraries(hasMagic: bool, hasMutagen: bool, hasPyPDF2: bool)

  /** How floats and lists print: `str(float)`, `:.0f`, `:.6f`, `str(list)`, `round(x, 2)`. */
  datatype Formats = Formats(
    floatText: real -> string,
    fixed0: real -> string,
    fixed6: real -> string,
    listText: seq<string> -> string,
    round2: real -> real,
    digest: (FileUtils.Algorithm, seq<byte>) -> string)

  const NotAvailable := "Not Available"

  // ---------------------------------------------------------------------
  // GPS (Exif GPS attribute tags, CIPA DC-008 section 4.6.6)
  // ---------------------------------------------------------------------

  /** `float(r.num) / float(r.den)`. */
  function RatioValue(r: Rational): Result<real> {
    if r.den == 0 then Err("float division by zero") else Ok(r.num as real / r.den as real)
  }

  /** `convert_to_degrees`: degrees + minutes / 60 + seconds / 3600, failing as Python does. */
  function ToDegrees(values: TagValues): Result<real> {
    match values
    case Chars(s) => if s == [] then Err("string index out of range") else Err("'str' object has no attribute 'num'")
    case Ratios(rs) =>
      if |rs| < 1 then Err("list index out of range")
      else if RatioValue(rs[0]).Err? then RatioValue(rs[0])
      else if |rs| < 2 then Err("list index out of range")
      else if RatioValue(rs[1]).Err? then RatioValue(rs[1])
      else if |rs| < 3 then Err("list index out of range")
      else if RatioValue(rs[2]).Err? then RatioValue(rs[2])
      else Ok(RatioValue(rs[0]).value + RatioValue(rs[1]).value / 60.0 + RatioValue(rs[2]).value / 3600.0)
  }

  /**
    Whether the reference tag `key` turns the sign: only when it is present
    and its first value is not `expected`.
  */
  function RefFlips(tags: ExifTags, key: string, expected: char): Result<bool> {
    if key !in tags then Ok(false)
    else
      match tags[key].values
      case Chars(s) => if s == [] then Err("string index out of range") else Ok(s[0] != expected)
      case Ratios(rs) => if rs == [] then Err("list index out of range") else Ok(true)
  }

  datatype Gps = GpsNotAvailable | GpsError(reason: string) | Located(lat: real, lon: real)

  function GpsCoordinates(tags: ExifTags): Gps {
    if "GPS GPSLatitude" in tags && "GPS GPSLongitude" in tags then
      var lat := ToDegrees(tags["GPS GPSLatitude"].values);
      var lon := ToDegrees(tags["GPS GPSLongitude"].values);
      var flipLat := RefFlips(tags, "GPS GPSLatitudeRef", 'N');
      var flipLon := RefFlips(tags, "GPS GPSLongitudeRef", 'E');
      if lat.Err? then GpsError(lat.message)
      else if lon.Err? then GpsError(lon.message)
      else if flipLat.Err? then GpsError(flipLat.message)
      else if flipLon.Err? then GpsError(flipLon.message)
      else Located(if flipLat.value then -lat.value else lat.value,
                   if flipLon.value then -lon.value else lon.value)
    else GpsNotAvailable
  }

  /** `get_gps_coordinates`, as the text it returns. */
  function GpsText(tags: ExifTags, fixed6: real -> string): string {
    match GpsCoordinates(tags)
    case GpsNotAvailable => NotAvailable
    case GpsError(e) => "Error parsing GPS data: " + e
    case Located(lat, lon) => fixed6(lat) + ", " + fixed6(lon)
  }

  /** A position is reported exactly when both coordinate tags are present. */
  lemma {:induction false} GpsNeedsBothCoordinates(tags: ExifTags, fixed6: real -> string)
    ensures GpsCoordinates(tags).GpsNotAvailable? <==> !("GPS GPSLatitude" in tags && "GPS GPSLongitude" in tags)
    ensures GpsText(tags, fixed6) == NotAvailable <==> GpsCoordinates(tags).GpsNotAvailable?
    ensures GpsCoordinates(tags).GpsError? ==> StartsWith(GpsText(tags, fixed6), "Error parsing GPS data")
  {
    var g := GpsCoordinates(tags);
    var t := GpsText(tags, fixed6);
    if g.GpsError? {
      assert t == "Error parsing GPS data: " + g.reason;
      assert t[..22] == "Error parsing GPS data";
    }
    if g.Located? {
      assert t == fixed6(g.lat) + ", " + fixed6(g.lon);
      assert |t| >= 2 && t[|t| - |fixed6(g.lon)| - 2] == ',';
      assert ',' !in NotAvailable;
    }
  }

  /**
    Whole degrees and minutes with seconds below 60 give a value within the
    whole degree: the minutes and seconds add less than one degree.
  */
  lemma {:induction false} DegreesWithinWholeDegree(d: nat, m: nat, s: Rational)
    requires m < 60 && s.den > 0 && 0 <= s.num < 60 * s.den
    ensures var r := ToDegrees(Ratios([Rational(d, 1), Rational(m, 1), s]));
      r.Ok? && d as real <= r.value < d as real + 1.0
  {
    QuotientBelow(s.num, s.den, 60);
    var sv := s.num as real / s.den as real;
    assert m as real / 60.0 <= 59.0 / 60.0;
    assert sv / 3600.0 < 60.0 / 3600.0;
  }

  lemma {:induction false} QuotientBelow(num: int, den: int, bound: int)
    requires den > 0 && 0 <= num < bound * den
    ensures 0.0 <= num as real / den as real < bound as real
  {
    var q := num as real / den as real;
    assert q * den as real == num as real;
    assert num as real < bound as real * den as real;
  }

  lemma {:induction false} ZeroDenominatorIsAnError(rs: seq<Rational>, k: nat)
    requires |rs| >= 3 && k < 3 && rs[k].den == 0
    ensures ToDegrees(Ratios(rs)).Err?
  {
  }

  /**
    With a non-zero magnitude, a coordinate is negative exactly when its
    reference tag is present and its first value is not 'N' (latitude) or
    not 'E' (longitude).
  */
  lemma {:induction false} GpsSignFollowsReference(tags: ExifTags)
    requires GpsCoordinates(tags).Located?
    ensures var g := GpsCoordinates(tags);
      var mag := ToDegrees(tags["GPS GPSLatitude"].values).value;
      mag > 0.0 ==> (g.lat < 0.0 <==> "GPS GPSLatitudeRef" in tags && match tags["GPS GPSLatitudeRef"].values
        case Chars(s) => s[0] != 'N'
        case Ratios(_) => true)
    ensures var g := GpsCoordinates(tags);
      var mag := ToDegrees(tags["GPS GPSLongitude"].values).value;
      mag > 0.0 ==> (g.lon < 0.0 <==> "GPS GPSLongitudeRef" in tags && match tags["GPS GPSLongitudeRef"].values
        case Chars(s) => s[0] != 'E'
        case Ratios(_) => true)
  {
  }

  // ---------------------------------------------------------------------
  // Namespaced keys ("EXIF: <tag>", "Image Info: <key>", "Tag: <key>")
  // ---------------------------------------------------------------------

  function PrefixedSet(prefix: string, s: set<string>): (r: set<string>)
    ensures forall t :: t in s ==> prefix + t in r
    ensures forall k :: k in r ==> StartsWith(k, prefix) && k[|prefix|..] in s
  {
    var r := set t | t in s :: prefix + t;
    assert forall k :: k in r ==> StartsWith(k, prefix) && k[|prefix|..] in s by {
      forall k | k in r ensures StartsWith(k, prefix) && k[|prefix|..] in s {
        var t :| t in s && k == prefix + t;
        assert k[|prefix|..] == t;
      }
    }
    r
  }

  /** The entries of `m` with `prefix` put in front of every key. */
  function PrefixKeys<V>(prefix: string, m: map<string, V>): map<string, V> {
    map k | k in PrefixedSet(prefix, m.Keys) :: m[k[|prefix|..]]
  }

  /** "<prefix><t>" is a key exactly when `t` was, with the same value; no other keys appear. */
  lemma {:induction false} PrefixKeysFacts<V>(prefix: string, m: map<string, V>)
    ensures forall t :: prefix + t in PrefixKeys(prefix, m) <==> t in m
    ensures forall t :: t in m ==> PrefixKeys(prefix, m)[prefix + t] == m[t]
    ensures forall k :: k in PrefixKeys(prefix, m) ==> StartsWith(k, prefix)
  {
    var r := PrefixKeys(prefix, m);
    forall t ensures prefix + t in r <==> t in m {
      assert (prefix + t)[|prefix|..] == t;
    }
    forall t | t in m ensures r[prefix + t] == m[t] {
      assert (prefix + t)[|prefix|..] == t;
    }
  }

  /** Writing "<prefix><t>" is writing `t` before the prefix is added. */
  lemma {:induction false} PrefixKeysUpdate<V>(prefix: string, m: map<string, V>, t: string, v: V)
    ensures PrefixKeys(prefix, m[t := v]) == PrefixKeys(prefix, m)[prefix + t := v]
  {
    var a, b := PrefixKeys(prefix, m[t := v]), PrefixKeys(prefix, m)[prefix + t := v];
    PrefixKeysFacts(prefix, m[t := v]);
    PrefixKeysFacts(prefix, m);
    forall k | k in a || k in b ensures k in a && k in b && a[k] == b[k] {
      var u := k[|prefix|..];
      assert k == prefix + u;
    }
  }

  // ---------------------------------------------------------------------
  // Images
  // ---------------------------------------------------------------------

  predicate CopiedExifTag(tag: string) {
    !StartsWith(tag, "JPEGThumbnail")
  }

  /** `str(tags.get(key, default))`. */
  function TagOr(tags: ExifTags, key: string, default: string): string {
    if key in tags then tags[key].printable else default
  }

  function DateAndTime(tags: ExifTags): string {
    TagOr(tags, "EXIF DateTimeOriginal", TagOr(tags, "Image DateTime", NotAvailable))
  }

  /** Every copied tag under "EXIF: <tag>". */
  function ExifCopy(tags: ExifTags): Record {
    PrefixKeys("EXIF: ", CopiedTags(tags, tags.Keys))
  }

  function CopiedTags(tags: ExifTags, done: set<string>): Record {
    map t | t in tags && t in done && CopiedExifTag(t) :: VStr(tags[t].printable)
  }

  lemma {:induction false} CopiedTagsStep(tags: ExifTags, done: set<string>, tag: string)
    requires tag in tags
    ensures CopiedTags(tags, done + {tag}) ==
      if CopiedExifTag(tag) then CopiedTags(tags, done)[tag := VStr(tags[tag].printable)] else CopiedTags(tags, done)
  {
  }

  function NamedFields(tags: ExifTags, fixed6: real -> string): Record {
    map["Date and Time" := VStr(DateAndTime(tags)),
        "Camera Model" := VStr(TagOr(tags, "Image Model", NotAvailable)),
        "Camera Make" := VStr(TagOr(tags, "Image Make", NotAvailable)),
        "Software" := VStr(TagOr(tags, "Image Software", NotAvailable)),
        "GPS Coordinates" := VStr(GpsText(tags, fixed6)),
        "Exposure Time" := VStr(TagOr(tags, "EXIF ExposureTime", NotAvailable)),
        "F-Stop" := VStr(TagOr(tags, "EXIF FNumber", NotAvailable)),
        "ISO Speed" := VStr(TagOr(tags, "EXIF ISOSpeedRatings", NotAvailable)),
        "Focal Length" := VStr(TagOr(tags, "EXIF FocalLength", NotAvailable))]
  }

  function ExifPart(exif: Result<ExifTags>, fixed6: real -> string): Record {
    match exif
    case Ok(tags) => ExifCopy(tags) + NamedFields(tags, fixed6)
    case Err(e) => map["EXIF Data" := VStr("Error extracting EXIF data: " + e)]
  }

  predicate CopiedInfo(v: InfoValue) {
    v.Plain? && !v.v.VNone?
  }

  /** The str/int/float/bool entries of `img.info` under "Image Info: <key>". */
  function InfoCopy(info: map<string, InfoValue>): Record {
    PrefixKeys("Image Info: ", CopiedInfoValues(info, info.Keys))
  }

  function CopiedInfoValues(info: map<string, InfoValue>, done: set<string>): Record {
    map k | k in info && k in done && CopiedInfo(info[k]) :: info[k].v
  }

  lemma {:induction false} CopiedInfoStep(info: map<string, InfoValue>, done: set<string>, key: string)
    requires key in info
    ensures CopiedInfoValues(info, done + {key}) ==
      if CopiedInfo(info[key]) then CopiedInfoValues(info, done)[key := info[key].v] else CopiedInfoValues(info, done)
  {
  }

  function PilFields(img: ImageFile, round2: real -> real): Record {
    map["Image Format" := img.format,
        "Image Mode" := img.mode,
        "Image Width" := VInt(img.width),
        "Image Height" := VInt(img.height),
        "Image Size" := VStr(IntToString(img.width) + "x" + IntToString(img.height)),
        "Megapixels" := VFloat(round2((img.width * img.height) as real / 1000000.0))]
  }

  function PilPart(image: Result<ImageFile>, round2: real -> real): Record {
    match image
    case Ok(img) => PilFields(img, round2) + InfoCopy(img.info)
    case Err(e) => map["Image Data" := VStr("Error extracting image data: " + e)]
  }

  function ImageFields(env: FileEnv, fmt: Formats): Record {
    ExifPart(env.exif, fmt.fixed6) + PilPart(env.image, fmt.round2)
  }

  /** The loop over `tags.items()` that skips the thumbnail tags. */
  method CopyExifTags(tags: ExifTags) returns (metadata: Record)
    ensures metadata == ExifCopy(tags)
  {
    metadata := map[];
    var todo := tags.Keys;
    ghost var done: set<string> := {};
    while todo != {}
      invariant todo <= tags.Keys && done == tags.Keys - todo
      invariant metadata == PrefixKeys("EXIF: ", CopiedTags(tags, done))
      decreases todo
    {
      var tag :| tag in todo;
      CopiedTagsStep(tags, done, tag);
      if CopiedExifTag(tag) {
        PrefixKeysUpdate("EXIF: ", CopiedTags(tags, done), tag, VStr(tags[tag].printable));
        metadata := metadata["EXIF: " + tag := VStr(tags[tag].printable)];
      }
      MoveToDone(tags.Keys, todo, done, tag);
      todo := todo - {tag};
      done := done + {tag};
    }
    assert done == tags.Keys;
  }

  /** The loop over `img.info.items()` that keeps the plain scalar values. */
  method CopyImageInfo(info: map<string, InfoValue>, base: Record) returns (metadata: Record)
    ensures metadata == base + InfoCopy(info)
  {
    metadata := base;
    var todo := info.Keys;
    ghost var done: set<string> := {};
    while todo != {}
      invariant todo <= info.Keys && done == info.Keys - todo
      invariant metadata == base + PrefixKeys("Image Info: ", CopiedInfoValues(info, done))
      decreases todo
    {
      var key :| key in todo;
      CopiedInfoStep(info, done, key);
      if CopiedInfo(info[key]) {
        PrefixKeysUpdate("Image Info: ", CopiedInfoValues(info, done), key, info[key].v);
        UpdateAfterMerge(base, PrefixKeys("Image Info: ", CopiedInfoValues(info, done)), "Image Info: " + key, info[key].v);
        metadata := metadata["Image Info: " + key := info[key].v];
      }
      MoveToDone(info.Keys, todo, done, key);
      todo := todo - {key};
      done := done + {key};
    }
    assert done == info.Keys;
  }

  /** `extract_image_metadata`: the EXIF part, then PIL's. */
  method ExtractImageMetadata(env: FileEnv, fmt: Formats) returns (metadata: Record)
    ensures metadata == ImageFields(env, fmt)
  {
    metadata := ExtractExif(env.exif, fmt.fixed6);
    metadata := AddPilFields(env.image, fmt.round2, metadata);
  }

  /** The EXIF half of `extract_image_metadata`: the tag copy loop and the named fields. */
  method ExtractExif(exif: Result<ExifTags>, fixed6: real -> string) returns (metadata: Record)
    ensures metadata == ExifPart(exif, fixed6)
  {
    match exif {
      case Ok(tags) =>
        metadata := CopyExifTags(tags);
        metadata := metadata + NamedFields(tags, fixed6);
      case Err(e) =>
        metadata := map["EXIF Data" := VStr("Error extracting EXIF data: " + e)];
    }
  }

  /** The PIL half of `extract_image_metadata`, written over the EXIF part. */
  method AddPilFields(image: Result<ImageFile>, round2: real -> real, base: Record) returns (metadata: Record)
    ensures metadata == base + PilPart(image, round2)
  {
    match image {
      case Ok(img) =>
        var pil := PilFields(img, round2);
        metadata := CopyImageInfo(img.info, base + pil);
        MergeAssociates(base, pil, InfoCopy(img.info));
      case Err(e) =>
        var message := VStr("Error extracting image data: " + e);
        UpdateIsMerge(base, "Image Data", message);
        metadata := base["Image Data" := message];
    }
  }

  lemma {:induction false} PrefixedKey(prefix: string, t: string, u: string)
    requires prefix + t == prefix + u
    ensures t == u
  {
    assert t == (prefix + t)[|prefix|..];
  }

  /** Every tag except the thumbnail ones is copied as "EXIF: <tag>" with its text. */
  lemma {:induction false} ExifTagsCopied(tags: ExifTags, fixed6: real -> string, tag: string)
    ensures var r := ExifPart(Ok(tags), fixed6);
      && ("EXIF: " + tag in r <==> tag in tags && CopiedExifTag(tag))
      && (tag in tags && CopiedExifTag(tag) ==> r["EXIF: " + tag] == VStr(tags[tag].printable))
  {
    PrefixKeysFacts("EXIF: ", CopiedTags(tags, tags.Keys));
    NamedFieldsAreNotExif(tags, fixed6);
    assert StartsWith("EXIF: " + tag, "EXIF: ");
  }

  lemma {:induction false} NamedFieldsAreNotExif(tags: ExifTags, fixed6: real -> string)
    ensures forall f :: f in NamedFields(tags, fixed6) ==> !StartsWith(f, "EXIF: ")
  {
    forall f | f in NamedFields(tags, fixed6) ensures !StartsWith(f, "EXIF: ") {
      assert f[0] != 'E' || f[1] != 'X';
    }
  }

  /**
    The date falls back from the original date to the image date to
    "Not Available", and the named fields, written after the copied
    tags, take precedence over them.
  */
  lemma {:induction false} NamedFieldsFallBack(tags: ExifTags, fixed6: real -> string)
    ensures forall k :: k in NamedFields(tags, fixed6) ==> ExifPart(Ok(tags), fixed6)[k] == NamedFields(tags, fixed6)[k]
    ensures ExifPart(Ok(tags), fixed6)["Date and Time"] == VStr(
           if "EXIF DateTimeOriginal" in tags then tags["EXIF DateTimeOriginal"].printable
           else if "Image DateTime" in tags then tags["Image DateTime"].printable
           else NotAvailable)
  {
    assert "Date and Time" in NamedFields(tags, fixed6);
  }

  /** A failed EXIF read leaves only the error entry, and no copied tag. */
  lemma {:induction false} ExifErrorReplacesTags(e: string, fixed6: real -> string)
    ensures ExifPart(Err(e), fixed6) == map["EXIF Data" := VStr("Error extracting EXIF data: " + e)]
    ensures forall t :: "EXIF: " + t !in ExifPart(Err(e), fixed6)
  {
    forall t ensures "EXIF: " + t != "EXIF Data" {
      assert ("EXIF: " + t)[4] == ':';
    }
  }

  // ---------------------------------------------------------------------
  // Audio
  // ---------------------------------------------------------------------

  /** Python's `int(x)` for a float: truncation toward zero. */
  function Trunc(x: real): (n: int)
    ensures x >= 0.0 ==> n as real <= x < n as real + 1.0
    ensures x < 0.0 ==> n as real - 1.0 < x <= n as real
  {
    if x >= 0.0 then x.Floor else -((-x).Floor)
  }

  /** `f"{v:02d}"` for 0 <= v < 100. */
  function Pad2(v: nat): string {
    ZeroPad(v, 2, 10)
  }

  /**
    `format_duration`: `divmod` floors, which for the positive divisor 60
    is Dafny's `/` and `%`.
  */
  function FormatDuration(seconds: real): string {
    var n := Trunc(seconds);
    var m0, s := n / 60, n % 60;
    var h, m := m0 / 60, m0 % 60;
    if h > 0 then IntToString(h) + ":" + Pad2(m) + ":" + Pad2(s)
    else IntToString(m) + ":" + Pad2(s)
  }

  lemma {:induction false} DigitsHaveNoColon(n: nat)
    ensures ':' !in Digits(n, 10)
  {
    assert DigitValue(':') == -1;
  }

  lemma {:induction false} PaddedRoundTrip(v: nat)
    ensures ':' !in Pad2(v) && ParseInt(Pad2(v)) == v
  {
    DigitsHaveNoColon(v);
    ParseZeroPad(v, 2, 10);
    var p := Pad2(v);
    assert p[0] != '-' by {
      assert p[0] == '0' || p[0] == Digits(v, 10)[0];
      assert DigitValue('-') == -1;
    }
  }

  /**
    A non-negative duration reads back: "H:MM:SS" from an hour on, "M:SS"
    below it, with minutes and seconds under 60, and the fields add up to
    the whole seconds of the input.
  */
  lemma {:induction false} FormatDurationRoundTrip(seconds: real)
    requires seconds >= 0.0
    ensures var n, parts := Trunc(seconds), Split(FormatDuration(seconds), ':');
      && n as real <= seconds < n as real + 1.0
      && (n >= 3600 ==>
            |parts| == 3 && 0 <= ParseInt(parts[1]) < 60 && 0 <= ParseInt(parts[2]) < 60
            && ParseInt(parts[0]) * 3600 + ParseInt(parts[1]) * 60 + ParseInt(parts[2]) == n)
      && (n < 3600 ==>
            |parts| == 2 && 0 <= ParseInt(parts[0]) < 60 && 0 <= ParseInt(parts[1]) < 60
            && ParseInt(parts[0]) * 60 + ParseInt(parts[1]) == n)
  {
    var n := Trunc(seconds);
    SexagesimalSplit(n);
    var m0, s := n / 60, n % 60;
    var h, m := m0 / 60, m0 % 60;
    if h > 0 {
      assert FormatDuration(seconds) == IntToString(h) + ":" + Pad2(m) + ":" + Pad2(s);
      ThreeFields(h, m, s);
    } else {
      assert FormatDuration(seconds) == IntToString(m) + ":" + Pad2(s);
      TwoFields(m, s);
    }
  }

  /** `divmod` twice by 60: hours, minutes under 60, seconds under 60. */
  lemma SexagesimalSplit(n: nat)
    ensures var m0, s := n / 60, n % 60;
      var h, m := m0 / 60, m0 % 60;
      && 0 <= m < 60 && 0 <= s < 60
      && h * 3600 + m * 60 + s == n
      && (h > 0 <==> n >= 3600)
      && (h == 0 ==> m * 60 + s == n)
  {
  }

  lemma {:induction false} ThreeFields(h: nat, m: nat, s: nat)
    requires h > 0
    ensures var parts := Split(IntToString(h) + ":" + Pad2(m) + ":" + Pad2(s), ':');
      |parts| == 3 && ParseInt(parts[0]) == h && ParseInt(parts[1]) == m && ParseInt(parts[2]) == s
  {
    var parts := [IntToString(h), Pad2(m), Pad2(s)];
    PaddedRoundTrip(s);
    PaddedRoundTrip(m);
    DigitsHaveNoColon(h);
    ParseIntToString(h);
    assert Join(parts, ':') == IntToString(h) + ":" + Pad2(m) + ":" + Pad2(s) by {
      assert Join(parts[2..], ':') == Pad2(s);
      assert Join(parts[1..], ':') == Pad2(m) + ":" + Pad2(s);
    }
    SplitJoin(parts, ':');
  }

  lemma {:induction false} TwoFields(m: nat, s: nat)
    ensures var parts := Split(IntToString(m) + ":" + Pad2(s), ':');
      |parts| == 2 && ParseInt(parts[0]) == m && ParseInt(parts[1]) == s
  {
    var parts := [IntToString(m), Pad2(s)];
    PaddedRoundTrip(s);
    DigitsHaveNoColon(m);
    ParseIntToString(m);
    assert Join(parts, ':') == IntToString(m) + ":" + Pad2(s) by {
      assert Join(parts[1..], ':') == Pad2(s);
    }
    SplitJoin(parts, ':');
  }

  /** `str(value[0])` for a one-element list, `str(value)` otherwise. */
  function TagValueText(v: TagValue, listText: seq<string> -> string): string {
    match v
    case TagList(items) => if |items| == 1 then items[0] else listText(items)
    case TagText(t) => t
  }

  /** `common_tags`: each friendly name with its aliases, in dictionary order. */
  const CommonTags: seq<(string, seq<string>)> := [
    ("title", ["title", "TIT2"]),
    ("artist", ["artist", "TPE1", "performer"]),
    ("album", ["album", "TALB"]),
    ("date", ["date", "year", "TDRC"]),
    ("genre", ["genre", "TCON"]),
    ("track", ["tracknumber", "track", "TRCK"]),
    ("composer", ["composer", "TCOM"])
  ]

  function UpperChar(c: char): char {
    if 'a' <= c <= 'z' then (c as int - 32) as char else c
  }

  /** `str.title()` for one word of ASCII letters. */
  function TitleWord(w: string): string {
    if w == [] then [] else [UpperChar(w[0])] + Lower(w[1..])
  }

  /** The first alias present in the tags, in list order. */
  function FirstAlias(tags: map<string, TagValue>, aliases: seq<string>): (r: Option<string>)
    ensures r.None? <==> forall j :: 0 <= j < |aliases| ==> aliases[j] !in tags
    ensures r.Some? ==> r.value in tags && exists j :: (0 <= j < |aliases| && aliases[j] == r.value
              && forall i :: 0 <= i < j ==> aliases[i] !in tags)
  {
    if aliases == [] then None
    else if aliases[0] in tags then Some(aliases[0])
    else
      var r := FirstAlias(tags, aliases[1..]);
      if r.Some? then
        assert forall i :: 1 <= i < |aliases| ==> aliases[i] == aliases[1..][i - 1];
        r
      else r
  }

  /** The friendly fields that rows `0 .. |rows| - 1` of the alias table produce. */
  function AliasFields(tags: map<string, TagValue>, rows: seq<(string, seq<string>)>, listText: seq<string> -> string): Record {
    if rows == [] then map[]
    else
      var before := AliasFields(tags, rows[..|rows| - 1], listText);
      var (name, aliases) := rows[|rows| - 1];
      var a := FirstAlias(tags, aliases);
      if a.Some? then before[TitleWord(name) := VStr(TagValueText(tags[a.value], listText))] else before
  }

  predicate LowerWord(w: string) {
    forall i :: 0 <= i < |w| ==> 'a' <= w[i] <= 'z'
  }

  /** Titling a lower-case word loses nothing: distinct words keep distinct titles. */
  lemma {:induction false} TitleWordInjective(w1: string, w2: string)
    requires LowerWord(w1) && LowerWord(w2)
    ensures TitleWord(w1) == TitleWord(w2) ==> w1 == w2
  {
    if TitleWord(w1) == TitleWord(w2) && w1 != [] {
      assert |w1| == |w2|;
      forall i | 0 <= i < |w1| ensures w1[i] == w2[i] {
        if i == 0 {
          assert TitleWord(w1)[0] == TitleWord(w2)[0];
        } else {
          assert TitleWord(w1)[i] == LowerChar(w1[i]) && TitleWord(w2)[i] == LowerChar(w2[i]);
        }
      }
    }
  }

  /** The friendly names of the alias table give seven distinct field names. */
  lemma {:induction false} CommonTagTitlesDistinct()
    ensures forall a, b :: 0 <= a < b < |CommonTags| ==> TitleWord(CommonTags[a].0) != TitleWord(CommonTags[b].0)
  {
    forall a, b | 0 <= a < b < |CommonTags|
      ensures TitleWord(CommonTags[a].0) != TitleWord(CommonTags[b].0)
    {
      var x, y := CommonTags[a].0, CommonTags[b].0;
      assert LowerWord(x) && LowerWord(y);
      assert x != y;
      TitleWordInjective(x, y);
    }
  }

  /** Every field the alias table sets is the titled name of one of its rows. */
  lemma {:induction false} AliasFieldsKeys(tags: map<string, TagValue>, rows: seq<(string, seq<string>)>,
                                           listText: seq<string> -> string)
    ensures forall k :: k in AliasFields(tags, rows, listText) ==>
      exists j :: 0 <= j < |rows| && TitleWord(rows[j].0) == k
    decreases |rows|
  {
    if rows != [] {
      var n := |rows| - 1;
      var init := rows[..n];
      AliasFieldsKeys(tags, init, listText);
      forall k | k in AliasFields(tags, rows, listText)
        ensures exists j :: 0 <= j < |rows| && TitleWord(rows[j].0) == k
      {
        if k != TitleWord(rows[n].0) {
          assert k in AliasFields(tags, init, listText);
          var j :| 0 <= j < |init| && TitleWord(init[j].0) == k;
          assert rows[j] == init[j];
        }
      }
    }
  }

  /**
    For rows with distinct titled names, a name is set exactly when one of
    its aliases is present, to the text of the first one present.
  */
  lemma {:induction false} AliasFieldsFirstWins(tags: map<string, TagValue>, rows: seq<(string, seq<string>)>,
                                               listText: seq<string> -> string, i: nat)
    requires i < |rows|
    requires forall a, b :: 0 <= a < b < |rows| ==> TitleWord(rows[a].0) != TitleWord(rows[b].0)
    ensures var r, name := AliasFields(tags, rows, listText), TitleWord(rows[i].0);
      var first := FirstAlias(tags, rows[i].1);
      && (name in r <==> first.Some?)
      && (first.Some? ==> r[name] == VStr(TagValueText(tags[first.value], listText)))
    decreases |rows|
  {
    var n := |rows| - 1;
    var init := rows[..n];
    var before := AliasFields(tags, init, listText);
    var last := FirstAlias(tags, rows[n].1);
    assert AliasFields(tags, rows, listText) ==
      if last.Some? then before[TitleWord(rows[n].0) := VStr(TagValueText(tags[last.value], listText))] else before;
    if i < n {
      assert init[i] == rows[i];
      assert TitleWord(rows[i].0) != TitleWord(rows[n].0);
      AliasFieldsFirstWins(tags, init, listText, i);
    } else {
      AliasFieldsKeys(tags, init, listText);
    }
  }

  function AudioInfoFields(info: AudioInfo, fixed0: real -> string): Record {
    (if info.length.Some? then map["Duration" := VStr(FormatDuration(info.length.value))] else map[])
    + (if info.bitrate.Some? then map["Bitrate" := VStr(fixed0(info.bitrate.value as real / 1000.0) + " kbps")] else map[])
    + (if info.sampleRate.Some? then map["Sample Rate" := VStr(IntToString(info.sampleRate.value) + " Hz")] else map[])
    + (if info.channels.Some? then map["Channels" := VInt(info.channels.value)] else map[])
  }

  /** Every tag under "Tag: <key>". */
  function TagCopy(tags: map<string, TagValue>, listText: seq<string> -> string): Record {
    PrefixKeys("Tag: ", TagTexts(tags, tags.Keys, listText))
  }

  function TagTexts(tags: map<string, TagValue>, done: set<string>, listText: seq<string> -> string): Record {
    map k | k in tags && k in done :: VStr(TagValueText(tags[k], listText))
  }

  lemma {:induction false} TagTextsStep(tags: map<string, TagValue>, done: set<string>, key: string, listText: seq<string> -> string)
    requires key in tags
    ensures TagTexts(tags, done + {key}, listText) == TagTexts(tags, done, listText)[key := VStr(TagValueText(tags[key], listText))]
  {
  }

  lemma {:induction false} TagCopyStep(base: Record, tags: map<string, TagValue>, done: set<string>, key: string,
                                       listText: seq<string> -> string)
    requires key in tags
    ensures var text := VStr(TagValueText(tags[key], listText));
      (base + PrefixKeys("Tag: ", TagTexts(tags, done, listText)))["Tag: " + key := text]
        == base + PrefixKeys("Tag: ", TagTexts(tags, done + {key}, listText))
  {
    var text := VStr(TagValueText(tags[key], listText));
    TagTextsStep(tags, done, key, listText);
    PrefixKeysUpdate("Tag: ", TagTexts(tags, done, listText), key, text);
    UpdateAfterMerge(base, PrefixKeys("Tag: ", TagTexts(tags, done, listText)), "Tag: " + key, text);
  }

  function AudioError(e: string): Value {
    VStr("Error extracting audio metadata: " + e)
  }

  /**
    The fields `extract_audio_metadata` writes: the stream fields, then the
    copied tags, then the friendly names; an exception adds "Audio Data" to
    whatever was written before it.
  */
  function AudioFields(hasMutagen: bool, audio: Result<Option<AudioFile>>, fmt: Formats): Record {
    if !hasMutagen then map["Audio Data" := VStr("Mutagen library not available for audio metadata extraction")]
    else
      match audio
      case Err(e) => map["Audio Data" := AudioError(e)]
      case Ok(None) => map[]
      case Ok(Some(a)) =>
        var described := AudioInfoFields(a.info, fmt.fixed0);
        match a.tags
        case Err(e) => described["Audio Data" := AudioError(e)]
        case Ok(tags) => described + TagCopy(tags, fmt.listText) + AliasFields(tags, CommonTags, fmt.listText)
  }

  /** The friendly names are none of the stream fields and not "Audio Data". */
  lemma {:induction false} AliasTitlesAvoidStreamFields()
    ensures forall j :: 0 <= j < |CommonTags| ==>
      TitleWord(CommonTags[j].0) !in {"Audio Data", "Duration", "Bitrate", "Sample Rate", "Channels"}
  {
    forall j | 0 <= j < |CommonTags|
      ensures TitleWord(CommonTags[j].0) !in {"Audio Data", "Duration", "Bitrate", "Sample Rate", "Channels"}
    {
      // No name starts with 'b' or 's', and none has 'u' or 'h' second,
      // so the first two letters of its title already tell it apart.
      var w := CommonTags[j].0;
      assert |w| >= 2 && 'a' <= w[0] <= 'z' && w[0] != 'b' && w[0] != 's' && w[1] != 'u' && w[1] != 'h';
      var t := TitleWord(w);
      assert t[0] == UpperChar(w[0]) && t[1] == LowerChar(w[1]);
      assert t[0] != 'B' && t[0] != 'S' && t[1] != 'u' && t[1] != 'h';
      assert t != "Audio Data" && t != "Duration" by {
        assert "Audio Data"[1] == 'u' && "Duration"[1] == 'u';
      }
      assert t != "Channels" by {
        assert "Channels"[1] == 'h';
      }
      assert t != "Bitrate" && t != "Sample Rate" by {
        assert "Bitrate"[0] == 'B' && "Sample Rate"[0] == 'S';
      }
    }
  }

  /** The tag and friendly fields never use a stream field's key or "Audio Data". */
  lemma {:induction false} LaterAudioKeysAvoid(tags: map<string, TagValue>, listText: seq<string> -> string, key: string)
    requires key in TagCopy(tags, listText) || key in AliasFields(tags, CommonTags, listText)
    ensures key !in {"Audio Data", "Duration", "Bitrate", "Sample Rate", "Channels"}
  {
    if key in TagCopy(tags, listText) {
      PrefixKeysFacts("Tag: ", TagTexts(tags, tags.Keys, listText));
      assert key[..5] == "Tag: ";
      assert key[0] == 'T';
    } else {
      AliasFieldsKeys(tags, CommonTags, listText);
      AliasTitlesAvoidStreamFields();
      var j :| 0 <= j < |CommonTags| && TitleWord(CommonTags[j].0) == key;
    }
  }

  /** The stream fields use only the four stream names. */
  lemma {:induction false} StreamFieldKeys(info: AudioInfo, fixed0: real -> string, k: string)
    requires k in AudioInfoFields(info, fixed0)
    ensures k in {"Duration", "Bitrate", "Sample Rate", "Channels"}
  {
  }

  /** "Audio Data" is present exactly when mutagen or the tag reading raised. */
  lemma {:induction false} AudioDataMarksFailure(audio: Result<Option<AudioFile>>, fmt: Formats)
    ensures "Audio Data" in AudioFields(true, audio, fmt)
      <==> audio.Err? || (audio.value.Some? && audio.value.value.tags.Err?)
  {
    if audio.Ok? && audio.value.Some? {
      var a := audio.value.value;
      var described := AudioInfoFields(a.info, fmt.fixed0);
      if "Audio Data" in described {
        StreamFieldKeys(a.info, fmt.fixed0, "Audio Data");
      }
      if a.tags.Ok? {
        var tags := a.tags.value;
        var later := TagCopy(tags, fmt.listText) + AliasFields(tags, CommonTags, fmt.listText);
        MergeAssociates(described, TagCopy(tags, fmt.listText), AliasFields(tags, CommonTags, fmt.listText));
        if "Audio Data" in later {
          LaterAudioKeysAvoid(tags, fmt.listText, "Audio Data");
        }
      }
    }
  }

  /** Every stream field keeps its value whatever is written after it. */
  lemma {:induction false} StreamFieldsSurvive(audio: Result<Option<AudioFile>>, fmt: Formats, k: string)
    requires audio.Ok? && audio.value.Some? && k in AudioInfoFields(audio.value.value.info, fmt.fixed0)
    ensures k in AudioFields(true, audio, fmt)
      && AudioFields(true, audio, fmt)[k] == AudioInfoFields(audio.value.value.info, fmt.fixed0)[k]
  {
    var a := audio.value.value;
    var described := AudioInfoFields(a.info, fmt.fixed0);
    StreamFieldKeys(a.info, fmt.fixed0, k);
    assert k != "Audio Data";
    if a.tags.Ok? {
      var tags := a.tags.value;
      var later := TagCopy(tags, fmt.listText) + AliasFields(tags, CommonTags, fmt.listText);
      MergeAssociates(described, TagCopy(tags, fmt.listText), AliasFields(tags, CommonTags, fmt.listText));
      if k in later {
        LaterAudioKeysAvoid(tags, fmt.listText, k);
      }
    }
  }

  /**
    The stream fields survive whatever follows them, and "Audio Data" is
    present exactly when mutagen or the tag reading raised.
  */
  lemma {:induction false} AudioFailureKeepsStreamFields(audio: Result<Option<AudioFile>>, fmt: Formats, k: string)
    ensures "Audio Data" in AudioFields(true, audio, fmt)
      <==> audio.Err? || (audio.value.Some? && audio.value.value.tags.Err?)
    ensures audio.Ok? && audio.value.Some? && k in AudioInfoFields(audio.value.value.info, fmt.fixed0) ==>
      k in AudioFields(true, audio, fmt)
      && AudioFields(true, audio, fmt)[k] == AudioInfoFields(audio.value.value.info, fmt.fixed0)[k]
  {
    AudioDataMarksFailure(audio, fmt);
    if audio.Ok? && audio.value.Some? && k in AudioInfoFields(audio.value.value.info, fmt.fixed0) {
      StreamFieldsSurvive(audio, fmt, k);
    }
  }

  /** The alias loop of `extract_audio_metadata`. */
  method ResolveAliases(tags: map<string, TagValue>, listText: seq<string> -> string, base: Record)
    returns (metadata: Record)
    ensures metadata == base + AliasFields(tags, CommonTags, listText)
  {
    metadata := base;
    for i := 0 to |CommonTags|
      invariant metadata == base + AliasFields(tags, CommonTags[..i], listText)
    {
      var (name, aliases) := CommonTags[i];
      metadata := ResolveAlias(tags, name, aliases, listText, metadata);
      AliasFieldsStep(tags, CommonTags, i, listText);
      var a := FirstAlias(tags, aliases);
      if a.Some? {
        UpdateAfterMerge(base, AliasFields(tags, CommonTags[..i], listText),
                         TitleWord(name), VStr(TagValueText(tags[a.value], listText)));
      }
    }
    assert CommonTags[..|CommonTags|] == CommonTags;
  }

  lemma {:induction false} AliasFieldsStep(tags: map<string, TagValue>, rows: seq<(string, seq<string>)>, i: nat,
                        listText: seq<string> -> string)
    requires i < |rows|
    ensures var a := FirstAlias(tags, rows[i].1);
      var before := AliasFields(tags, rows[..i], listText);
      AliasFields(tags, rows[..i + 1], listText) ==
        if a.Some? then before[TitleWord(rows[i].0) := VStr(TagValueText(tags[a.value], listText))] else before
  {
    assert rows[..i + 1][..i] == rows[..i];
  }

  /** One friendly name: the first alias present sets it, and the search stops there. */
  method ResolveAlias(tags: map<string, TagValue>, name: string, aliases: seq<string>,
                      listText: seq<string> -> string, base: Record)
    returns (metadata: Record)
    ensures var a := FirstAlias(tags, aliases);
      metadata == if a.Some? then base[TitleWord(name) := VStr(TagValueText(tags[a.value], listText))] else base
  {
    metadata := base;
    var j := 0;
    while j < |aliases|
      invariant 0 <= j <= |aliases|
      invariant forall k :: 0 <= k < j ==> aliases[k] !in tags
    {
      if aliases[j] in tags {
        FirstAliasIs(tags, aliases, j);
        metadata := metadata[TitleWord(name) := VStr(TagValueText(tags[aliases[j]], listText))];
        return;
      }
      j := j + 1;
    }
  }

  lemma {:induction false} FirstAliasIs(tags: map<string, TagValue>, aliases: seq<string>, j: nat)
    requires j < |aliases| && aliases[j] in tags
    requires forall k :: 0 <= k < j ==> aliases[k] !in tags
    ensures FirstAlias(tags, aliases) == Some(aliases[j])
  {
    var r := FirstAlias(tags, aliases);
    var j' :| 0 <= j' < |aliases| && aliases[j'] == r.value && forall i :: 0 <= i < j' ==> aliases[i] !in tags;
  }

  /** The loop over `audio.items()`. */
  method CopyAudioTags(tags: map<string, TagValue>, listText: seq<string> -> string, base: Record)
    returns (metadata: Record)
    ensures metadata == base + TagCopy(tags, listText)
  {
    metadata := base;
    var todo := tags.Keys;
    ghost var done: set<string> := {};
    assert TagTexts(tags, done, listText) == map[];
    assert PrefixKeys("Tag: ", TagTexts(tags, done, listText)) == map[];
    while todo != {}
      invariant todo <= tags.Keys && done == tags.Keys - todo
      invariant metadata == base + PrefixKeys("Tag: ", TagTexts(tags, done, listText))
      decreases todo
    {
      var key :| key in todo;
      var text := VStr(TagValueText(tags[key], listText));
      TagCopyStep(base, tags, done, key, listText);
      metadata := metadata["Tag: " + key := text];
      MoveToDone(tags.Keys, todo, done, key);
      todo := todo - {key};
      done := done + {key};
    }
    assert done == tags.Keys;
  }

  /** `extract_audio_metadata`. */
  method ExtractAudioMetadata(hasMutagen: bool, audio: Result<Option<AudioFile>>, fmt: Formats)
    returns (metadata: Record)
    ensures metadata == AudioFields(hasMutagen, audio, fmt)
  {
    if !hasMutagen {
      return map["Audio Data" := VStr("Mutagen library not available for audio metadata extraction")];
    }
    match audio {
      case Err(e) =>
        metadata := map["Audio Data" := AudioError(e)];
      case Ok(None) =>
        metadata := map[];
      case Ok(Some(a)) =>
        metadata := AudioInfoFields(a.info, fmt.fixed0);
        match a.tags {
          case Err(e) =>
            metadata := metadata["Audio Data" := AudioError(e)];
          case Ok(tags) =>
            metadata := CopyAudioTags(tags, fmt.listText, metadata);
            metadata := ResolveAliases(tags, fmt.listText, metadata);
        }
    }
  }

  // ---------------------------------------------------------------------
  // Video
  // ---------------------------------------------------------------------

  /**
    `desc.split('resolution')[1].split(',')[0]`: the text after the first
    "resolution", up to the next "resolution" or ',' (whichever is first).
  */
  function ResolutionText(desc: string): (r: string)
    requires Contains(desc, "resolution")
    ensures ',' !in r
  {
    var i := IndexOf(desc, "resolution", 0);
    var after := desc[i + 10..];
    var j := IndexOf(after, "resolution", 0);
    var piece := if j == -1 then after else after[..j];
    var c := IndexOf(piece, ",", 0);
    if c == -1 then
      assert forall k :: 0 <= k < |piece| ==> piece[k] != ',' by {
        forall k | 0 <= k < |piece| ensures piece[k] != ',' {
          assert !OccursAt(piece, ",", k);
          assert piece[k..k + 1] == [piece[k]];
        }
      }
      piece
    else
      assert forall k :: 0 <= k < c ==> piece[k] != ',' by {
        forall k | 0 <= k < c ensures piece[k] != ',' {
          assert !OccursAt(piece, ",", k);
          assert piece[k..k + 1] == [piece[k]];
        }
      }
      piece[..c]
  }

  /**
    In "<pre>resolution<mid>,<rest>", with the first "resolution" right
    after `pre` and `mid` free of commas and of "resolution", the
    resolution text is exactly `mid`.
  */
  lemma {:induction false} ResolutionBetween(pre: string, mid: string, rest: string)
    requires IndexOf(pre + "resolution" + mid + "," + rest, "resolution", 0) == |pre|
    requires ',' !in mid && !Contains(mid, "resolution")
    ensures ResolutionText(pre + "resolution" + mid + "," + rest) == mid
  {
    var desc := pre + "resolution" + mid + "," + rest;
    var after := desc[|pre| + 10..];
    assert after == mid + "," + rest;
    var j := IndexOf(after, "resolution", 0);
    NoResolutionBeforeComma(mid, rest);
    var piece := if j == -1 then after else after[..j];
    assert mid + "," <= piece;
    FirstCommaEndsMid(piece, mid);
  }

  /** A "resolution" in `mid + "," + rest` starts after the comma. */
  lemma {:induction false} NoResolutionBeforeComma(mid: string, rest: string)
    requires ',' !in mid && !Contains(mid, "resolution")
    ensures var j := IndexOf(mid + "," + rest, "resolution", 0); j == -1 || j > |mid|
  {
    var after := mid + "," + rest;
    ContainsIff(mid, "resolution");
    forall i: nat | i <= |mid| ensures !OccursAt(after, "resolution", i) {
      if i + 10 <= |mid| {
        assert !OccursAt(mid, "resolution", i);
        assert after[i..i + 10] == mid[i..i + 10];
      } else if i + 10 <= |after| {
        assert after[|mid|] == ',';
        assert after[i..i + 10][|mid| - i] == ',';
        assert "resolution"[|mid| - i] != ',';
      }
    }
  }

  /** In a piece starting with `mid + ","`, the first comma is the one after `mid`. */
  lemma {:induction false} FirstCommaEndsMid(piece: string, mid: string)
    requires mid + "," <= piece && ',' !in mid
    ensures IndexOf(piece, ",", 0) == |mid|
  {
    assert piece[|mid|..|mid| + 1] == ",";
    assert OccursAt(piece, ",", |mid|);
    forall c: nat | c < |mid| ensures !OccursAt(piece, ",", c) {
      assert piece[c] == mid[c];
      assert piece[c..c + 1] == [piece[c]];
    }
  }

  function VideoFields(hasMagic: bool, mime: Result<string>, description: Result<string>): Record {
    var base := map["Media Type" := VStr("Video")];
    if !hasMagic then base
    else
      match mime
      case Err(e) => base["Magic Error" := VStr(e)]
      case Ok(mt) =>
        var withMime := base["MIME Type" := VStr(mt)];
        match description
        case Err(e) => withMime["Magic Error" := VStr(e)]
        case Ok(desc) =>
          var withDesc := withMime["File Description" := VStr(desc)];
          if Contains(desc, "x") && Contains(desc, "resolution")
          then withDesc["Resolution" := VStr(Strip(ResolutionText(desc)))]
          else withDesc
  }

  /** A resolution is reported only from a description holding both "x" and "resolution". */
  lemma {:induction false} ResolutionOnlyWhenDescribed(hasMagic: bool, mime: Result<string>, description: Result<string>)
    ensures var r := VideoFields(hasMagic, mime, description);
      && r["Media Type"] == VStr("Video")
      && ("Resolution" in r <==> (hasMagic && mime.Ok? && description.Ok?
            && Contains(description.value, "x") && Contains(description.value, "resolution")))
      && ("Resolution" in r ==> ',' !in r["Resolution"].s)
  {
    if hasMagic && mime.Ok? && description.Ok? {
      var desc := description.value;
      var withDesc := map["Media Type" := VStr("Video"), "MIME Type" := VStr(mime.value), "File Description" := VStr(desc)];
      assert "Resolution" !in withDesc;
      if Contains(desc, "x") && Contains(desc, "resolution") {
        var t := Strip(ResolutionText(desc));
        assert VideoFields(hasMagic, mime, description) == withDesc["Resolution" := VStr(t)];
        StripKeepsOnlyCharsOf(ResolutionText(desc));
      } else {
        assert VideoFields(hasMagic, mime, description) == withDesc;
      }
    }
  }

  // ---------------------------------------------------------------------
  // Documents
  // ---------------------------------------------------------------------

  /** "PDF: " and the info key without one leading '/'. */
  function PdfKey(key: string): string {
    "PDF: " + (if StartsWith(key, "/") then key[1..] else key)
  }

  /** The info entries in order; a later entry with the same key wins. */
  function PdfInfoFields(info: seq<(string, string)>): Record {
    if info == [] then map[]
    else
      var (key, value) := info[|info| - 1];
      PdfInfoFields(info[..|info| - 1])[PdfKey(key) := VStr(value)]
  }

  /** A "PDF: " key holds the value of the last info entry that maps to it. */
  lemma {:induction false} PdfInfoLastWins(info: seq<(string, string)>, k: string)
    ensures k in PdfInfoFields(info) <==> exists i :: 0 <= i < |info| && PdfKey(info[i].0) == k
    ensures forall i :: 0 <= i < |info| && PdfKey(info[i].0) == k
              && (forall j :: i < j < |info| ==> PdfKey(info[j].0) != k)
              ==> PdfInfoFields(info)[k] == VStr(info[i].1)
  {
    PdfInfoKeysFromEntries(info, k);
    forall i | 0 <= i < |info| && PdfKey(info[i].0) == k
        && (forall j :: i < j < |info| ==> PdfKey(info[j].0) != k)
      ensures PdfInfoFields(info)[k] == VStr(info[i].1)
    {
      PdfInfoLastValue(info, k, i);
    }
  }

  lemma {:induction false} PdfInfoKeysFromEntries(info: seq<(string, string)>, k: string)
    ensures k in PdfInfoFields(info) <==> exists i :: 0 <= i < |info| && PdfKey(info[i].0) == k
  {
    if info != [] {
      var n := |info| - 1;
      var init := info[..n];
      PdfInfoKeysFromEntries(init, k);
      if k in PdfInfoFields(init) {
        var i :| 0 <= i < n && PdfKey(init[i].0) == k;
        assert info[i] == init[i];
      }
      if i :| 0 <= i < n && PdfKey(info[i].0) == k {
        assert init[i] == info[i];
      }
    }
  }

  lemma {:induction false} PdfInfoLastValue(info: seq<(string, string)>, k: string, i: nat)
    requires i < |info| && PdfKey(info[i].0) == k
    requires forall j :: i < j < |info| ==> PdfKey(info[j].0) != k
    ensures k in PdfInfoFields(info) && PdfInfoFields(info)[k] == VStr(info[i].1)
  {
    var n := |info| - 1;
    if i < n {
      var init := info[..n];
      assert init[i] == info[i];
      assert PdfKey(info[n].0) != k;
      forall j | i < j < n ensures PdfKey(init[j].0) != k {
        assert init[j] == info[j];
      }
      PdfInfoLastValue(init, k, i);
    }
  }

  const TextExtensions: seq<string> := [".txt", ".csv", ".log"]

  /** `content.split()`: the non-empty runs of non-whitespace. */
  function Words(content: string): seq<string> {
    LongRuns(Segments(content, c => !IsSpace(c)), 1)
  }

  /** Every word is non-empty and holds no whitespace. */
  lemma {:induction false} WordsAreNonEmptyAndSpaceFree(content: string)
    ensures forall k :: 0 <= k < |Words(content)| ==> |Words(content)[k]| >= 1
    ensures forall k, j :: 0 <= k < |Words(content)| && 0 <= j < |Words(content)[k]| ==> !IsSpace(Words(content)[k][j])
  {
    var keep := c => !IsSpace(c);
    SegmentsAreMaximalRuns(content, keep);
    LongRunsKeepsElements(Segments(content, keep), 1, keep);
  }

  function TextStats(content: string): Record {
    map["Line Count" := VInt(|Split(content, '\n')|),
        "Word Count" := VInt(|Words(content)|),
        "Character Count" := VInt(|content|)]
  }

  /** One more line than newlines; one character count per code point. */
  lemma {:induction false} TextStatsCount(content: string)
    ensures TextStats(content)["Line Count"] == VInt(CountChar(content, '\n') + 1)
    ensures TextStats(content)["Character Count"] == VInt(|content|)
  {
    var lines := Split(content, '\n');
    assert |lines| == CountChar(content, '\n') + 1;
    assert TextStats(content)["Line Count"] == VInt(|lines|);
  }

  function PdfError(e: string): Value {
    VStr("Error extracting PDF metadata: " + e)
  }

  /**
    The fields the PDF branch writes: "Page Count", the info entries, then
    "PDF Version"; a call that raises ends the writes there and adds
    "PDF Data" to what was written before it.
  */
  function PdfFields(pdf: PdfFile): Record {
    match pdf.pages
    case Err(e) => map["PDF Data" := PdfError(e)]
    case Ok(n) =>
      var counted := map["Page Count" := VInt(n)];
      match pdf.info
      case Err(e) => counted["PDF Data" := PdfError(e)]
      case Ok(info) =>
        var described := counted + PdfInfoFields(info);
        match pdf.header
        case Err(e) => described["PDF Data" := PdfError(e)]
        case Ok(h) => described["PDF Version" := VStr(h)]
  }

  /** Every info field is a "PDF: " key. */
  lemma {:induction false} PdfInfoKeysArePrefixed(info: seq<(string, string)>, k: string)
    requires k in PdfInfoFields(info)
    ensures |k| >= 5 && k[..5] == "PDF: "
  {
    PdfInfoLastWins(info, k);
    var i :| 0 <= i < |info| && PdfKey(info[i].0) == k;
  }

  /**
    What a failing PyPDF2 call leaves: the page count once it was read, the
    info fields once they were read, "PDF Data" exactly when some call
    raised, and "PDF Version" exactly when none did.
  */
  lemma {:induction false} PdfFailureKeepsEarlierFields(pdf: PdfFile, k: string)
    ensures "PDF Data" in PdfFields(pdf) <==> pdf.pages.Err? || pdf.info.Err? || pdf.header.Err?
    ensures "PDF Version" in PdfFields(pdf) <==> pdf.pages.Ok? && pdf.info.Ok? && pdf.header.Ok?
    ensures "Page Count" in PdfFields(pdf) <==> pdf.pages.Ok?
    ensures pdf.pages.Ok? ==> PdfFields(pdf)["Page Count"] == VInt(pdf.pages.value)
    ensures pdf.pages.Ok? && pdf.info.Ok? && k in PdfInfoFields(pdf.info.value) ==>
      k in PdfFields(pdf) && PdfFields(pdf)[k] == PdfInfoFields(pdf.info.value)[k]
  {
    if pdf.pages.Ok? && pdf.info.Ok? {
      var fields := PdfInfoFields(pdf.info.value);
      forall key | key in fields ensures key !in {"PDF Data", "PDF Version", "Page Count"} {
        PdfInfoKeysArePrefixed(pdf.info.value, key);
        assert key[3] == "PDF: "[3] == ':';
      }
    }
  }

  function DocumentFields(path: string, hasPyPDF2: bool, pdf: Result<PdfFile>, text: Result<string>): Record {
    var ext := FileUtils.Extension(path);
    if ext == ".pdf" && hasPyPDF2 then
      match pdf
      case Ok(doc) => PdfFields(doc)
      case Err(e) => map["PDF Data" := PdfError(e)]
    else if ext in TextExtensions then
      match text
      case Ok(content) => TextStats(content)
      case Err(e) => map["Text Analysis" := VStr("Error analyzing text: " + e)]
    else map[]
  }

  /** `extract_document_metadata`. */
  method ExtractDocumentMetadata(path: string, hasPyPDF2: bool, pdf: Result<PdfFile>, text: Result<string>)
    returns (metadata: Record)
    ensures metadata == DocumentFields(path, hasPyPDF2, pdf, text)
  {
    var ext := FileUtils.Extension(path);
    metadata := map[];
    if ext == ".pdf" && hasPyPDF2 {
      match pdf {
        case Ok(doc) =>
          match doc.pages {
            case Err(e) =>
              metadata := map["PDF Data" := PdfError(e)];
            case Ok(n) =>
              metadata := map["Page Count" := VInt(n)];
              match doc.info {
                case Err(e) =>
                  metadata := metadata["PDF Data" := PdfError(e)];
                case Ok(info) =>
                  metadata := CopyPdfInfo(info, metadata);
                  match doc.header {
                    case Err(e) =>
                      metadata := metadata["PDF Data" := PdfError(e)];
                    case Ok(header) =>
                      metadata := metadata["PDF Version" := VStr(header)];
                  }
              }
          }
        case Err(e) =>
          metadata := map["PDF Data" := PdfError(e)];
      }
    } else if ext in TextExtensions {
      match text {
        case Ok(content) =>
          var lines := Split(content, '\n');
          var words := Words(content);
          metadata := metadata["Line Count" := VInt(|lines|)];
          metadata := metadata["Word Count" := VInt(|words|)];
          metadata := metadata["Character Count" := VInt(|content|)];
        case Err(e) =>
          metadata := metadata["Text Analysis" := VStr("Error analyzing text: " + e)];
      }
    }
  }

  /** The loop over the PDF's info dictionary, stripping one leading '/' from each key. */
  method CopyPdfInfo(info: seq<(string, string)>, base: Record) returns (metadata: Record)
    ensures metadata == base + PdfInfoFields(info)
  {
    metadata := base;
    for i := 0 to |info|
      invariant metadata == base + PdfInfoFields(info[..i])
    {
      var (key, value) := info[i];
      if StartsWith(key, "/") {
        key := key[1..];
      }
      PdfInfoFieldsStep(info, i);
      UpdateAfterMerge(base, PdfInfoFields(info[..i]), "PDF: " + key, VStr(value));
      metadata := metadata["PDF: " + key := VStr(value)];
    }
    TakeAll(info);
  }

  lemma {:induction false} PdfInfoFieldsStep(info: seq<(string, string)>, i: nat)
    requires i < |info|
    ensures PdfInfoFields(info[..i + 1]) == PdfInfoFields(info[..i])[PdfKey(info[i].0) := VStr(info[i].1)]
  {
    assert info[..i + 1][..i] == info[..i];
  }

  // ---------------------------------------------------------------------
  // extract_metadata
  // ---------------------------------------------------------------------

  /** The fields of the one sub-extractor the category selects. */
  function CategoryFields(path: string, env: FileEnv, libs: Libraries, fmt: Formats): Record {
    var category := FileUtils.FileTypeCategory(path);
    if category == "Images" then ImageFields(env, fmt)
    else if category == "Audio" && libs.hasMutagen then AudioFields(libs.hasMutagen, env.audio, fmt)
    else if category == "Video" then VideoFields(libs.hasMagic, env.mime, env.description)
    else if category == "Documents" then DocumentFields(path, libs.hasPyPDF2, env.pdf, env.text)
    else map[]
  }

  /** What `calculate_checksum` returns for the file and an algorithm name. */
  function ChecksumText(content: Option<seq<byte>>, name: string, digest: (FileUtils.Algorithm, seq<byte>) -> string): string {
    var alg := FileUtils.AlgorithmNamed(name);
    if alg.None? || content.None? then FileUtils.ChecksumFailed else digest(alg.value, content.value)
  }

  /** The three checksum entries, when they are asked for. */
  function ChecksumRecord(calcChecksums: bool, content: Option<seq<byte>>,
                          digest: (FileUtils.Algorithm, seq<byte>) -> string): Record {
    if !calcChecksums then map[]
    else map["Checksum (MD5)" := VStr(ChecksumText(content, "md5", digest)),
             "Checksum (SHA1)" := VStr(ChecksumText(content, "sha1", digest)),
             "Checksum (SHA256)" := VStr(ChecksumText(content, "sha256", digest))]
  }

  /**
    The record `extract_metadata` returns: the single error entry for a
    missing file; otherwise the file information, then the checksums, then
    the selected extractor's fields, each later write replacing an earlier
    one with the same key.
  */
  function Metadata(path: string, calcChecksums: bool, env: FileEnv, libs: Libraries, fmt: Formats): Record {
    if !env.present then map["Error" := VStr("File does not exist")]
    else env.info + ChecksumRecord(calcChecksums, env.content, fmt.digest) + CategoryFields(path, env, libs, fmt)
  }

  /** The three `calculate_checksum` calls of `extract_metadata`, written over `base`. */
  method AddChecksums(base: Record, content: Option<seq<byte>>, digest: (FileUtils.Algorithm, seq<byte>) -> string)
    returns (metadata: Record)
    ensures metadata == base + ChecksumRecord(true, content, digest)
  {
    var md5, _ := FileUtils.CalculateChecksum(content, "md5", digest);
    var sha1, _ := FileUtils.CalculateChecksum(content, "sha1", digest);
    var sha256, _ := FileUtils.CalculateChecksum(content, "sha256", digest);
    metadata := base["Checksum (MD5)" := VStr(md5)];
    metadata := metadata["Checksum (SHA1)" := VStr(sha1)];
    metadata := metadata["Checksum (SHA256)" := VStr(sha256)];
  }

  /** The dispatch of `extract_metadata` on the file's category. */
  method ExtractCategoryFields(path: string, env: FileEnv, libs: Libraries, fmt: Formats) returns (fields: Record)
    ensures fields == CategoryFields(path, env, libs, fmt)
  {
    var fileType := FileUtils.FileTypeCategory(path);
    fields := map[];
    if fileType == "Images" {
      fields := ExtractImageMetadata(env, fmt);
    } else if fileType == "Audio" && libs.hasMutagen {
      fields := ExtractAudioMetadata(libs.hasMutagen, env.audio, fmt);
    } else if fileType == "Video" {
      fields := VideoFields(libs.hasMagic, env.mime, env.description);
    } else if fileType == "Documents" {
      fields := ExtractDocumentMetadata(path, libs.hasPyPDF2, env.pdf, env.text);
    }
  }

  /** `extract_metadata`. */
  method ExtractMetadata(path: string, calcChecksums: bool, env: FileEnv, libs: Libraries, fmt: Formats)
    returns (metadata: Record)
    ensures metadata == Metadata(path, calcChecksums, env, libs, fmt)
  {
    if !env.present {
      return map["Error" := VStr("File does not exist")];
    }
    metadata := env.info;
    if calcChecksums {
      metadata := AddChecksums(metadata, env.content, fmt.digest);
    }
    var fields := ExtractCategoryFields(path, env, libs, fmt);
    metadata := metadata + fields;
  }

  /**
    How the record is assembled: its keys are those of the file information,
    the checksums and the extractor; the extractor's fields win, the
    checksums win over the file information, and the file information
    survives where nothing later writes.
  */
  lemma {:induction false} MetadataMerge(path: string, calcChecksums: bool, env: FileEnv, libs: Libraries, fmt: Formats, k: string)
    requires env.present
    ensures var r, category := Metadata(path, calcChecksums, env, libs, fmt), CategoryFields(path, env, libs, fmt);
      var checks := ChecksumRecord(calcChecksums, env.content, fmt.digest);
      && (k in r <==> k in env.info || k in checks || k in category)
      && (k in category ==> r[k] == category[k])
      && (k in checks && k !in category ==> r[k] == checks[k])
      && (k in env.info && k !in checks && k !in category ==> r[k] == env.info[k])
  {
  }

  /** Checksums appear, under their three names, exactly when asked for. */
  lemma {:induction false} ChecksumsWhenAsked(calcChecksums: bool, content: Option<seq<byte>>,
                           digest: (FileUtils.Algorithm, seq<byte>) -> string)
    ensures ChecksumRecord(calcChecksums, content, digest).Keys ==
      if calcChecksums then {"Checksum (MD5)", "Checksum (SHA1)", "Checksum (SHA256)"} else {}
    ensures calcChecksums && content.None? ==>
      forall k :: k in ChecksumRecord(calcChecksums, content, digest) ==>
        ChecksumRecord(calcChecksums, content, digest)[k] == VStr(FileUtils.ChecksumFailed)
  {
  }

  /**
    A missing file gives only the error entry; archives, other files and
    audio without mutagen add nothing to the file information and checksums.
  */
  lemma {:induction false} MetadataWithoutExtractor(path: string, calcChecksums: bool, env: FileEnv, libs: Libraries, fmt: Formats)
    ensures !env.present ==> Metadata(path, calcChecksums, env, libs, fmt) == map["Error" := VStr("File does not exist")]
    ensures env.present && FileUtils.FileTypeCategory(path) !in {"Images", "Video", "Documents"}
            && !(FileUtils.FileTypeCategory(path) == "Audio" && libs.hasMutagen)
            ==> Metadata(path, calcChecksums, env, libs, fmt) == env.info + ChecksumRecord(calcChecksums, env.content, fmt.digest)
  {
  }

  /**
    ".csv" and ".log" are in no category, so `extract_metadata` never
    reaches the text statistics for them: only ".txt" gets line counts.
  */
  lemma {:induction false} CsvAndLogGetNoTextStats(path: string, env: FileEnv, libs: Libraries, fmt: Formats)
    requires FileUtils.Extension(path) == ".csv" || FileUtils.Extension(path) == ".log"
    ensures FileUtils.FileTypeCategory(path) == "Other"
    ensures CategoryFields(path, env, libs, fmt) == map[]
  {
    FileUtils.CsvAndLogAreOther(FileUtils.Extension(path));
  }
}
