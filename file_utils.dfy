/**
  file_utils.py: extension and category of a path, human-readable sizes,
  the streamed checksum, the key-by-key diff of two records, and the
  text, CSV-header and XML layouts of the exporter.
*/
module FileUtils {
  import opened Wrappers
  import opened PyStrings
  import opened PyValues
  import opened Collections

  // ---------------------------------------------------------------------
  // Extension and category
  // ---------------------------------------------------------------------

  function LastIndexOf(s: string, c: char): (r: int)
    ensures -1 <= r < |s|
    ensures r >= 0 ==> s[r] == c
    ensures forall i :: r < i < |s| ==> s[i] != c
  {
    if s == [] then -1
    else if s[|s| - 1] == c then |s| - 1
    else LastIndexOf(s[..|s| - 1], c)
  }

  /**
    The second half of `os.path.splitext(p)` (POSIX): from the last dot of
    the last path component, provided that component has a character other
    than a dot before it; a leading dot alone does not start an extension.
  */
  function SplitExt(p: string): string {
    var sep := LastIndexOf(p, '/');
    var dot := LastIndexOf(p, '.');
    if dot > sep && exists i :: sep < i < dot && p[i] != '.' then p[dot..] else ""
  }

  /** `get_file_extension`: the lowered extension, dot included. */
  function Extension(path: string): string {
    Lower(SplitExt(path))
  }

  /**
    An extension is empty or a dot followed by no further dot and no slash,
    and it is the lowered tail of the path.
  */
  lemma {:induction false} ExtensionShape(path: string)
    ensures var r := Extension(path);
      && |r| <= |path|
      && r == Lower(path[|path| - |r|..])
      && (r == "" || (r[0] == '.' && '.' !in r[1..] && '/' !in r))
  {
    var r := Extension(path);
    var e := SplitExt(path);
    if e != "" {
      var sep := LastIndexOf(path, '/');
      var dot := LastIndexOf(path, '.');
      assert e == path[dot..];
      forall i | 1 <= i < |r| ensures r[i] != '.' && r[i] != '/' {
        assert e[i] == path[dot + i];
      }
      assert '.' !in r[1..];
    }
  }

  /** A path component with a stem before its last dot has that extension. */
  lemma {:induction false} ExtensionOfStemAndSuffix(dir: string, stem: string, ext: string)
    requires '/' !in stem && exists i :: 0 <= i < |stem| && stem[i] != '.'
    requires '/' !in ext && '.' !in ext
    ensures Extension(dir + stem + "." + ext) == Lower("." + ext)
  {
    var p := dir + stem + "." + ext;
    var dot := |dir| + |stem|;
    assert p[dot] == '.';
    assert forall i :: dot < i < |p| ==> p[i] == ext[i - dot - 1];
    assert LastIndexOf(p, '.') == dot;
    var sep := LastIndexOf(p, '/');
    assert sep < |dir|;
    var i :| 0 <= i < |stem| && stem[i] != '.';
    assert p[|dir| + i] == stem[i];
    assert p[dot..] == "." + ext;
  }

  /** A file whose name is a dot followed by a dot-free name (`.bashrc`) has no extension. */
  lemma {:induction false} HiddenFileHasNoExtension(dir: string, name: string)
    requires dir == "" || dir[|dir| - 1] == '/'
    requires '/' !in name && '.' !in name
    ensures Extension(dir + "." + name) == ""
  {
    var p := dir + "." + name;
    assert p[|dir|] == '.';
    forall i | |dir| < i < |p| ensures p[i] != '.' && p[i] != '/' {
      assert p[i] == name[i - |dir| - 1];
    }
    assert LastIndexOf(p, '.') == |dir|;
    if dir != "" {
      assert p[|dir| - 1] == '/';
    }
    assert LastIndexOf(p, '/') == |dir| - 1;
  }

  /** `FILE_TYPES` of constants.py, in its declaration order. */
  const FileTypes: seq<(string, seq<string>)> := [
    ("Images", [".jpg", ".jpeg", ".png", ".gif", ".bmp", ".tiff", ".webp"]),
    ("Documents", [".pdf", ".doc", ".docx", ".txt", ".rtf", ".odt"]),
    ("Audio", [".mp3", ".wav", ".flac", ".aac", ".ogg", ".m4a"]),
    ("Video", [".mp4", ".avi", ".mkv", ".mov", ".wmv", ".flv"]),
    ("Archives", [".zip", ".rar", ".7z", ".tar", ".gz"])
  ]

  /** The index of the first table row listing `ext`, or -1. */
  function FirstRowListing(table: seq<(string, seq<string>)>, ext: string): (k: int)
    ensures -1 <= k < |table|
    ensures k >= 0 ==> ext in table[k].1
    ensures forall j :: 0 <= j < |table| && (k == -1 || j < k) ==> ext !in table[j].1
  {
    if table == [] then -1
    else if ext in table[0].1 then 0
    else
      var k := FirstRowListing(table[1..], ext);
      if k == -1 then -1 else k + 1
  }

  /** `get_file_type_category` for an extension: the first listing category, else "Other". */
  function CategoryOfExtension(ext: string): string {
    var k := FirstRowListing(FileTypes, ext);
    if k == -1 then "Other" else FileTypes[k].0
  }

  function FileTypeCategory(path: string): string {
    CategoryOfExtension(Extension(path))
  }

  /**
    The category is "Other" exactly when no row lists the extension, and
    otherwise it is the category of the row that lists it; the rows do not
    overlap, so that row is the only one.
  */
  lemma {:induction false} CategoryOfExtensionIsListingRow(ext: string)
    ensures CategoryOfExtension(ext) == "Other" <==> forall k :: 0 <= k < |FileTypes| ==> ext !in FileTypes[k].1
    ensures forall k :: 0 <= k < |FileTypes| && ext in FileTypes[k].1 ==> CategoryOfExtension(ext) == FileTypes[k].0
  {
    var k := FirstRowListing(FileTypes, ext);
    forall j | 0 <= j < |FileTypes| && ext in FileTypes[j].1
      ensures CategoryOfExtension(ext) == FileTypes[j].0
    {
      assert k != -1;
      RowsDisjoint(k, j, ext);
    }
  }

  /** ".csv" and ".log" are listed by no row, while ".txt" is a document. */
  lemma {:induction false} CsvAndLogAreOther(ext: string)
    requires ext == ".csv" || ext == ".log"
    ensures CategoryOfExtension(ext) == "Other"
    ensures CategoryOfExtension(".txt") == "Documents"
  {
    forall k | 0 <= k < |FileTypes| ensures ext !in FileTypes[k].1 {
      assert forall e :: e in FileTypes[k].1 ==> e[1] != 'c' && e[1] != 'l';
    }
    CategoryOfExtensionIsListingRow(ext);
    CategoryOfExtensionIsListingRow(".txt");
    assert ".txt" in FileTypes[1].1;
  }

  lemma {:induction false} RowsDisjoint(k: int, j: int, ext: string)
    requires 0 <= k < |FileTypes| && 0 <= j < |FileTypes|
    requires ext in FileTypes[k].1 && ext in FileTypes[j].1
    ensures k == j
  {
  }

  // ---------------------------------------------------------------------
  // Sizes
  // ---------------------------------------------------------------------

  datatype SizeUnit = Bytes | KB | MB | GB

  function UnitFor(n: int): SizeUnit {
    if n < 1024 then Bytes
    else if n < 1024 * 1024 then KB
    else if n < 1024 * 1024 * 1024 then MB
    else GB
  }

  function Divisor(u: SizeUnit): nat {
    match u
    case Bytes => 1
    case KB => 1024
    case MB => 1024 * 1024
    case GB => 1024 * 1024 * 1024
  }

  function UnitName(u: SizeUnit): string {
    match u
    case Bytes => "bytes"
    case KB => "KB"
    case MB => "MB"
    case GB => "GB"
  }

  /**
    `format_file_size`. The two-decimal rendering `:.2f` of the scaled
    amount is not modelled; the caller supplies it as `fixed2`.
  */
  function FormatFileSize(n: int, fixed2: real -> string): string {
    var u := UnitFor(n);
    if u == Bytes then IntToString(n) + " bytes"
    else fixed2(n as real / Divisor(u) as real) + " " + UnitName(u)
  }

  /**
    The unit is chosen so that the scaled amount lies in [1, 1024), except
    that gigabytes are the largest unit; below 1024 the exact count is shown
    and reads back as the same number.
  */
  lemma {:induction false} FileSizeUnitKeepsAmountInRange(n: int, fixed2: real -> string)
    ensures var u := UnitFor(n);
      && (u == Bytes <==> n < 1024)
      && (u != Bytes ==> var a := n as real / Divisor(u) as real;
           1.0 <= a && (u != GB ==> a < 1024.0)
           && FormatFileSize(n, fixed2) == fixed2(a) + " " + UnitName(u))
      && (u == Bytes ==> var r := FormatFileSize(n, fixed2);
           EndsWith(r, " bytes") && ParseInt(r[..|r| - 6]) == n)
  {
    var u := UnitFor(n);
    if u == Bytes {
      var r := FormatFileSize(n, fixed2);
      assert r[..|r| - 6] == IntToString(n);
      ParseIntToString(n);
    }
  }

  // ---------------------------------------------------------------------
  // Checksums
  // ---------------------------------------------------------------------

  datatype Algorithm = MD5 | SHA1 | SHA256

  /** The algorithm names `calculate_checksum` accepts, in any letter case. */
  function AlgorithmNamed(name: string): Option<Algorithm> {
    var n := Lower(name);
    if n == "md5" then Some(MD5)
    else if n == "sha1" then Some(SHA1)
    else if n == "sha256" then Some(SHA256)
    else None
  }

  const ChecksumFailed := "Checksum calculation failed"
  const ChunkSize := 4096

  function Concat(chunks: seq<seq<byte>>): seq<byte> {
    if chunks == [] then [] else Concat(chunks[..|chunks| - 1]) + chunks[|chunks| - 1]
  }

  lemma {:induction false} ConcatSnoc(chunks: seq<seq<byte>>, c: seq<byte>)
    ensures Concat(chunks + [c]) == Concat(chunks) + c
  {
    assert (chunks + [c])[..|chunks|] == chunks;
  }

  /** A file opened for binary reading. */
  class OpenFile {
    const content: seq<byte>
    var pos: nat

    constructor (content: seq<byte>)
      ensures this.content == content && pos == 0
    {
      this.content := content;
      pos := 0;
    }

    /** `f.read(n)`: the next `n` bytes, fewer at the end, none once exhausted. */
    method Read(n: nat) returns (chunk: seq<byte>)
      requires pos <= |content|
      modifies this
      ensures pos == if old(pos) + n <= |content| then old(pos) + n else |content|
      ensures chunk == content[old(pos)..pos]
    {
      var end := if pos + n <= |content| then pos + n else |content|;
      chunk := content[pos..end];
      pos := end;
    }
  }

  /**
    An incremental digest. The digest function itself is not modelled: it
    is a parameter applied to everything fed so far, which is what makes
    feeding in chunks equivalent to feeding the whole file at once.
  */
  class Hasher {
    const algorithm: Algorithm
    var fed: seq<seq<byte>>

    constructor (algorithm: Algorithm)
      ensures this.algorithm == algorithm && fed == []
    {
      this.algorithm := algorithm;
      fed := [];
    }

    method Update(chunk: seq<byte>)
      modifies this
      ensures fed == old(fed) + [chunk]
    {
      fed := fed + [chunk];
    }

    function HexDigest(digest: (Algorithm, seq<byte>) -> string): string
      reads this
    {
      digest(algorithm, Concat(fed))
    }
  }

  /** Non-empty chunks of at most 4096 bytes, all but the last exactly 4096. */
  predicate WellChunked(fed: seq<seq<byte>>) {
    && (forall i :: 0 <= i < |fed| ==> 0 < |fed[i]| <= ChunkSize)
    && (forall i :: 0 <= i < |fed| - 1 ==> |fed[i]| == ChunkSize)
  }

  lemma {:induction false} WellChunkedSnoc(fed: seq<seq<byte>>, c: seq<byte>)
    requires WellChunked(fed) && 0 < |c| <= ChunkSize
    requires fed != [] ==> |fed[|fed| - 1]| == ChunkSize
    ensures WellChunked(fed + [c])
  {
  }

  /**
    `calculate_checksum`. `file` is the file's content, or None when it
    cannot be opened; `fed` returns the chunks given to the hasher. An
    unknown algorithm or an unreadable file gives the fixed failure text;
    otherwise the chunks are non-empty, at most 4096 bytes, all but the
    last exactly 4096, and together they are the whole file.
  */
  method CalculateChecksum(file: Option<seq<byte>>, algorithm: string, digest: (Algorithm, seq<byte>) -> string)
    returns (result: string, fed: seq<seq<byte>>)
    ensures AlgorithmNamed(algorithm).None? || file.None? ==> result == ChecksumFailed && fed == []
    ensures AlgorithmNamed(algorithm).Some? && file.Some? ==>
      && Concat(fed) == file.value
      && WellChunked(fed)
      && result == digest(AlgorithmNamed(algorithm).value, file.value)
  {
    var alg := AlgorithmNamed(algorithm);
    if alg.None? || file.None? {
      return ChecksumFailed, [];
    }
    var hasher := new Hasher(alg.value);
    var f := new OpenFile(file.value);
    FeedChunks(f, hasher);
    result := hasher.HexDigest(digest);
    fed := hasher.fed;
  }

  /** The read loop of `calculate_checksum`: 4096-byte reads fed to the hasher until a read is empty. */
  method FeedChunks(f: OpenFile, hasher: Hasher)
    requires f.pos == 0 && hasher.fed == []
    modifies f, hasher
    ensures Concat(hasher.fed) == f.content && WellChunked(hasher.fed)
  {
    var chunk := f.Read(ChunkSize);
    while chunk != []
      invariant f.pos <= |f.content|
      invariant Concat(hasher.fed) + chunk == f.content[..f.pos]
      invariant |chunk| <= ChunkSize
      invariant |chunk| < ChunkSize ==> f.pos == |f.content|
      invariant WellChunked(hasher.fed)
      invariant hasher.fed != [] && |hasher.fed[|hasher.fed| - 1]| < ChunkSize ==> chunk == []
      decreases |f.content| - f.pos, |chunk|
    {
      var fedBefore, posBefore := hasher.fed, f.pos;
      WellChunkedSnoc(fedBefore, chunk);
      ConcatSnoc(fedBefore, chunk);
      hasher.Update(chunk);
      chunk := f.Read(ChunkSize);
      assert f.content[..f.pos] == f.content[..posBefore] + chunk;
    }
    assert f.content[..f.pos] == f.content;
  }

  // ---------------------------------------------------------------------
  // compare_metadata
  // ---------------------------------------------------------------------

  datatype DiffEntry = DiffEntry(file1: Value, file2: Value, status: string)

  const NotApplicable := VStr("N/A")

  /** The entry `compare_metadata` records for key `k`, when it records one. */
  function DiffEntryFor(m1: Record, m2: Record, k: string): DiffEntry
    requires k in m1 || k in m2
  {
    if k !in m1 then DiffEntry(NotApplicable, m2[k], "Missing in File 1")
    else if k !in m2 then DiffEntry(m1[k], NotApplicable, "Missing in File 2")
    else DiffEntry(m1[k], m2[k], "Different")
  }

  predicate Differs(m1: Record, m2: Record, k: string) {
    (k in m1 || k in m2) && !(k in m1 && k in m2 && PyEq(m1[k], m2[k]))
  }

  function MetadataDiff(m1: Record, m2: Record): map<string, DiffEntry> {
    map k | k in m1.Keys + m2.Keys && Differs(m1, m2, k) :: DiffEntryFor(m1, m2, k)
  }

  /** `compare_metadata`: the loop over the union of the keys. */
  method CompareMetadata(m1: Record, m2: Record) returns (diff: map<string, DiffEntry>)
    ensures diff == MetadataDiff(m1, m2)
  {
    diff := map[];
    var allKeys := m1.Keys + m2.Keys;
    var todo := allKeys;
    while todo != {}
      invariant todo <= allKeys
      invariant diff == map k | k in allKeys - todo && Differs(m1, m2, k) :: DiffEntryFor(m1, m2, k)
      decreases todo
    {
      var key :| key in todo;
      if key !in m1 {
        diff := diff[key := DiffEntry(NotApplicable, m2[key], "Missing in File 1")];
      } else if key !in m2 {
        diff := diff[key := DiffEntry(m1[key], NotApplicable, "Missing in File 2")];
      } else if !PyEq(m1[key], m2[key]) {
        diff := diff[key := DiffEntry(m1[key], m2[key], "Different")];
      }
      todo := todo - {key};
    }
  }

  /**
    A key is reported exactly when it is in one record only, or in both
    with unequal values; the missing side reads "N/A" and the status names
    the record that lacks it.
  */
  lemma {:induction false} MetadataDiffReportsExactly(m1: Record, m2: Record, k: string)
    ensures var d := MetadataDiff(m1, m2);
      && (k in d <==> (k in m1 && k !in m2) || (k !in m1 && k in m2) || (k in m1 && k in m2 && !PyEq(m1[k], m2[k])))
      && (k in d && k !in m1 ==> d[k] == DiffEntry(VStr("N/A"), m2[k], "Missing in File 1"))
      && (k in d && k !in m2 ==> d[k] == DiffEntry(m1[k], VStr("N/A"), "Missing in File 2"))
      && (k in d && k in m1 && k in m2 ==> d[k] == DiffEntry(m1[k], m2[k], "Different"))
  {
  }

  /** Swapping the records swaps the two sides and the two "Missing" statuses. */
  lemma {:induction false} MetadataDiffSwap(m1: Record, m2: Record)
    ensures MetadataDiff(m2, m1).Keys == MetadataDiff(m1, m2).Keys
    ensures forall k :: k in MetadataDiff(m1, m2) ==>
      var e, e' := MetadataDiff(m1, m2)[k], MetadataDiff(m2, m1)[k];
      && e'.file1 == e.file2 && e'.file2 == e.file1
      && (e.status == "Different" <==> e'.status == "Different")
      && (e.status == "Missing in File 1" <==> e'.status == "Missing in File 2")
  {
    forall k ensures Differs(m1, m2, k) <==> Differs(m2, m1, k) {
      if k in m1 && k in m2 {
        PyEqIsEquivalence(m1[k], m2[k], m1[k]);
      }
    }
  }

  // ---------------------------------------------------------------------
  // export_metadata_to_file: text layout, CSV header, XML element names
  // ---------------------------------------------------------------------

  /** What the exporter is given: one record, or a list of them. */
  datatype Exportable = One(record: Record) | Many(records: seq<Record>)

  /** One "key: value" line per field, in sorted key order. */
  function RecordLines(m: Record, floatText: real -> string): (lines: seq<string>)
    ensures |lines| == |m|
  {
    var keys := SortedKeys(m.Keys);
    seq(|keys|, j requires 0 <= j < |keys| => FieldLine(m, keys[j], floatText))
  }

  function FieldLine(m: Record, key: string, floatText: real -> string): string
    requires key in m
  {
    key + ": " + Str(m[key], floatText) + "\n"
  }

  function FileHeader(i: nat): string {
    "===== File " + IntToString(i + 1) + " =====\n"
  }

  /** The writes for records `0 .. |rs| - 1` of a list export. */
  function ListWrites(rs: seq<Record>, floatText: real -> string): seq<string> {
    if rs == [] then []
    else
      var i := |rs| - 1;
      ListWrites(rs[..i], floatText) + [FileHeader(i)] + RecordLines(rs[i], floatText) + ["\n"]
  }

  /** The successive `f.write` arguments of the text export. */
  function TextWrites(data: Exportable, floatText: real -> string): seq<string> {
    match data
    case One(m) => RecordLines(m, floatText)
    case Many(rs) => ListWrites(rs, floatText)
  }

  /** The inner loop of the text export: one write per field, in sorted key order. */
  method WriteRecordLines(m: Record, floatText: real -> string) returns (writes: seq<string>)
    ensures writes == RecordLines(m, floatText)
  {
    writes := [];
    var keys := SortedKeys(m.Keys);
    ghost var lines := RecordLines(m, floatText);
    for j := 0 to |keys|
      invariant writes == lines[..j]
    {
      var line := FieldLine(m, keys[j], floatText);
      RecordLineAt(m, floatText, j);
      TakeSnoc(lines, j);
      writes := writes + [line];
    }
    TakeAll(lines);
  }

  lemma {:induction false} RecordLineAt(m: Record, floatText: real -> string, j: nat)
    requires j < |SortedKeys(m.Keys)|
    ensures j < |RecordLines(m, floatText)|
    ensures RecordLines(m, floatText)[j] == FieldLine(m, SortedKeys(m.Keys)[j], floatText)
  {
  }

  /** The text branch of `export_metadata_to_file`: the writes, in order. */
  method ExportText(data: Exportable, floatText: real -> string) returns (writes: seq<string>)
    ensures writes == TextWrites(data, floatText)
  {
    match data {
      case One(m) =>
        writes := WriteRecordLines(m, floatText);
      case Many(rs) =>
        writes := [];
        for i := 0 to |rs|
          invariant writes == ListWrites(rs[..i], floatText)
        {
          var lines := WriteRecordLines(rs[i], floatText);
          ListWritesStep(rs, i, floatText);
          writes := writes + [FileHeader(i)] + lines + ["\n"];
        }
        assert rs[..|rs|] == rs;
    }
  }

  lemma {:induction false} ListWritesStep(rs: seq<Record>, i: nat, floatText: real -> string)
    requires i < |rs|
    ensures ListWrites(rs[..i + 1], floatText) == ListWrites(rs[..i], floatText) + [FileHeader(i)] + RecordLines(rs[i], floatText) + ["\n"]
  {
    assert rs[..i + 1][..i] == rs[..i];
  }

  /** The writes for a leading part of the list come first in the writes for the whole list. */
  lemma {:induction false} ListWritesPrefix(rs: seq<Record>, n: nat, floatText: real -> string)
    requires n <= |rs|
    ensures ListWrites(rs[..n], floatText) <= ListWrites(rs, floatText)
    decreases |rs|
  {
    if n < |rs| {
      var init := rs[..|rs| - 1];
      ListWritesPrefix(init, n, floatText);
      assert init[..n] == rs[..n];
      ListWritesExtends(rs, floatText);
      PrefixTransitive(ListWrites(rs[..n], floatText), ListWrites(init, floatText), ListWrites(rs, floatText));
    } else {
      assert rs[..n] == rs;
    }
  }

  lemma {:induction false} ListWritesExtends(rs: seq<Record>, floatText: real -> string)
    requires rs != []
    ensures ListWrites(rs[..|rs| - 1], floatText) <= ListWrites(rs, floatText)
  {
    var i := |rs| - 1;
    ListWritesStep(rs, i, floatText);
    assert rs[..i + 1] == rs;
    PrefixOfPrefix(ListWrites(rs[..i], floatText), ListWrites(rs[..i], floatText),
                   [FileHeader(i)] + RecordLines(rs[i], floatText) + ["\n"]);
  }

  /**
    In a list export, record `i` occupies its own block right after the
    blocks of the records before it: the header naming it as file `i + 1`,
    its sorted lines, then an empty line.
  */
  lemma {:induction false} ListWritesBlocks(rs: seq<Record>, floatText: real -> string, i: nat)
    requires i < |rs|
    ensures ListWrites(rs[..i], floatText) + [FileHeader(i)] + RecordLines(rs[i], floatText) + ["\n"]
      <= ListWrites(rs, floatText)
  {
    ListWritesPrefix(rs, i + 1, floatText);
    ListWritesStep(rs, i, floatText);
  }

  /** The union of the keys of `rs[0 .. |rs| - 1]`. */
  function AllKeys(rs: seq<Record>): set<string> {
    if rs == [] then {} else AllKeys(rs[..|rs| - 1]) + rs[|rs| - 1].Keys
  }

  lemma {:induction false} AllKeysIsUnion(rs: seq<Record>)
    ensures forall k :: k in AllKeys(rs) <==> exists i :: 0 <= i < |rs| && k in rs[i]
  {
    if rs != [] {
      var n := |rs| - 1;
      AllKeysIsUnion(rs[..n]);
      forall k | k in AllKeys(rs) ensures exists i :: 0 <= i < |rs| && k in rs[i] {
        if k in AllKeys(rs[..n]) {
          var i :| 0 <= i < n && k in rs[..n][i];
          assert k in rs[i];
        } else {
          assert k in rs[n];
        }
      }
      forall k, i | 0 <= i < |rs| && k in rs[i] ensures k in AllKeys(rs) {
        if i < n {
          assert k in rs[..n][i];
        }
      }
    }
  }

  /**
    The CSV header row: the sorted union of the keys of every record, or
    of the one record; an empty list writes nothing at all.
  */
  method CsvFieldnames(data: Exportable) returns (header: Option<seq<string>>)
    ensures data.One? ==> header == Some(SortedKeys(data.record.Keys))
    ensures data.Many? ==> (header.None? <==> data.records == [])
    ensures data.Many? && header.Some? ==>
      && StrictlySorted(header.value)
      && forall k :: k in header.value <==> exists i :: 0 <= i < |data.records| && k in data.records[i]
  {
    match data {
      case One(m) =>
        header := Some(SortedKeys(m.Keys));
      case Many(rs) =>
        if rs == [] {
          return None;
        }
        var fieldnames: set<string> := {};
        for i := 0 to |rs|
          invariant fieldnames == AllKeys(rs[..i])
        {
          assert rs[..i + 1][..i] == rs[..i];
          fieldnames := fieldnames + rs[i].Keys;
        }
        assert rs[..|rs|] == rs;
        AllKeysIsUnion(rs);
        header := Some(SortedKeys(fieldnames));
    }
  }

  /** The XML element name of a key: spaces become underscores. */
  function ElementName(key: string): (name: string)
    ensures ' ' !in name && |name| == |key|
  {
    ReplaceChar(key, ' ', '_')
  }

  /** A key without underscores is recovered from its element name. */
  lemma {:induction false} ElementNameRecoversKey(key: string)
    requires '_' !in key
    ensures ReplaceChar(ElementName(key), '_', ' ') == key
  {
  }

  /** A record as `dict.items()` yields it: keys in insertion order. */
  type Items = seq<(string, Value)>

  datatype XmlElement = XmlElement(tag: string, id: Option<string>, text: string, children: seq<XmlElement>)

  function FieldElements(items: Items, floatText: real -> string): (es: seq<XmlElement>)
    ensures |es| == |items|
    ensures forall j :: 0 <= j < |items| ==> es[j] == XmlElement(ElementName(items[j].0), None, Str(items[j].1, floatText), [])
  {
    seq(|items|, j requires 0 <= j < |items| =>
      XmlElement(ElementName(items[j].0), None, Str(items[j].1, floatText), []))
  }

  /** The element tree of the XML export (before pretty-printing). */
  function XmlTree(data: seq<Items>, many: bool, floatText: real -> string): (root: XmlElement)
    requires !many ==> |data| == 1
    ensures many ==> root.tag == "Metadata_Collection" && |root.children| == |data|
    ensures many ==> forall i :: 0 <= i < |data| ==>
      root.children[i].tag == "File" && root.children[i].id == Some(IntToString(i + 1))
      && |root.children[i].children| == |data[i]|
    ensures many ==> forall i :: 0 <= i < |data| ==> root.children[i].children == FieldElements(data[i], floatText)
    ensures !many ==> root.tag == "Metadata" && root.children == FieldElements(data[0], floatText)
  {
    if many then
      XmlElement("Metadata_Collection", None, "",
        seq(|data|, i requires 0 <= i < |data| =>
          XmlElement("File", Some(IntToString(i + 1)), "", FieldElements(data[i], floatText))))
    else
      XmlElement("Metadata", None, "", FieldElements(data[0], floatText))
  }

  // The reparse: `minidom.parseString` is namespace-aware, so an element
  // name must be a colon-free XML name (Namespaces in XML 1.0, section 3,
  // built on the Name productions of XML 1.0, fifth edition, section 2.3),
  // and element text must consist of XML characters (XML 1.0, section 2.2).

  predicate NameStartChar(c: char) {
    var n := c as int;
    c == '_' || 'A' <= c <= 'Z' || 'a' <= c <= 'z'
    || 0xC0 <= n <= 0xD6 || 0xD8 <= n <= 0xF6 || 0xF8 <= n <= 0x2FF || 0x370 <= n <= 0x37D
    || 0x37F <= n <= 0x1FFF || 0x200C <= n <= 0x200D || 0x2070 <= n <= 0x218F || 0x2C00 <= n <= 0x2FEF
    || 0x3001 <= n <= 0xD7FF || 0xF900 <= n <= 0xFDCF || 0xFDF0 <= n <= 0xFFFD || 0x10000 <= n <= 0xEFFFF
  }

  predicate NameChar(c: char) {
    var n := c as int;
    NameStartChar(c) || c == '-' || c == '.' || '0' <= c <= '9' || n == 0xB7
    || 0x300 <= n <= 0x36F || 0x203F <= n <= 0x2040
  }

  /** An XML name without a colon. */
  predicate NcName(s: string) {
    |s| >= 1 && NameStartChar(s[0]) && forall i :: 0 <= i < |s| ==> NameChar(s[i])
  }

  predicate XmlChar(c: char) {
    var n := c as int;
    n == 0x9 || n == 0xA || n == 0xD || 0x20 <= n <= 0xD7FF || 0xE000 <= n <= 0xFFFD || 0x10000 <= n <= 0x10FFFF
  }

  predicate XmlText(s: string) {
    forall i :: 0 <= i < |s| ==> XmlChar(s[i])
  }

  /** The serialised tree parses back: every name and every text is well-formed. */
  predicate Reparses(e: XmlElement) {
    NcName(e.tag) && XmlText(e.text) && forall c :: c in e.children ==> Reparses(c)
  }

  /** A field whose element survives the reparse. */
  predicate FieldExportable(item: (string, Value), floatText: real -> string) {
    NcName(ElementName(item.0)) && XmlText(Str(item.1, floatText))
  }

  /**
    The XML branch of `export_metadata_to_file`: the tree it writes, or
    `None` where `minidom.parseString` raises and the export returns False.
  */
  function XmlExport(data: seq<Items>, many: bool, floatText: real -> string): Option<XmlElement>
    requires !many ==> |data| == 1
  {
    var root := XmlTree(data, many, floatText);
    if Reparses(root) then Some(root) else None
  }

  lemma {:induction false} FieldElementsReparse(items: Items, floatText: real -> string)
    ensures (forall c :: c in FieldElements(items, floatText) ==> Reparses(c))
      <==> forall j :: 0 <= j < |items| ==> FieldExportable(items[j], floatText)
  {
    var es := FieldElements(items, floatText);
    if forall c :: c in es ==> Reparses(c) {
      forall j | 0 <= j < |items| ensures FieldExportable(items[j], floatText) {
        assert es[j] in es;
      }
    }
    if forall j :: 0 <= j < |items| ==> FieldExportable(items[j], floatText) {
      forall c | c in es ensures Reparses(c) {
        var j :| 0 <= j < |es| && es[j] == c;
      }
    }
  }

  lemma FixedTagsAreNames()
    ensures NcName("Metadata") && NcName("Metadata_Collection") && NcName("File")
  {
  }

  /** The export is written exactly when every field's name and text survive the reparse. */
  lemma {:induction false} XmlExportNeedsWellFormedFields(data: seq<Items>, many: bool, floatText: real -> string)
    requires !many ==> |data| == 1
    ensures XmlExport(data, many, floatText).Some?
      <==> forall i, j :: 0 <= i < |data| && 0 <= j < |data[i]| ==> FieldExportable(data[i][j], floatText)
  {
    var root := XmlTree(data, many, floatText);
    FixedTagsAreNames();
    if many {
      forall i | 0 <= i < |data|
        ensures Reparses(root.children[i])
          <==> forall j :: 0 <= j < |data[i]| ==> FieldExportable(data[i][j], floatText)
      {
        FieldElementsReparse(data[i], floatText);
      }
      if Reparses(root) {
        forall i, j | 0 <= i < |data| && 0 <= j < |data[i]| ensures FieldExportable(data[i][j], floatText) {
          assert root.children[i] in root.children;
        }
      }
      if forall i, j :: 0 <= i < |data| && 0 <= j < |data[i]| ==> FieldExportable(data[i][j], floatText) {
        forall c | c in root.children ensures Reparses(c) {
          var i :| 0 <= i < |root.children| && root.children[i] == c;
        }
      }
    } else {
      FieldElementsReparse(data[0], floatText);
    }
  }

  /**
    A key holding a character that is neither a space nor allowed in an XML
    name, such as '(' or ':', makes the whole export fail.
  */
  lemma {:induction false} BadKeyFailsXmlExport(data: seq<Items>, many: bool, floatText: real -> string, i: nat, j: nat, p: nat)
    requires !many ==> |data| == 1
    requires i < |data| && j < |data[i]| && p < |data[i][j].0|
    requires data[i][j].0[p] != ' ' && !NameChar(data[i][j].0[p])
    ensures XmlExport(data, many, floatText).None?
  {
    XmlExportNeedsWellFormedFields(data, many, floatText);
    assert ElementName(data[i][j].0)[p] == data[i][j].0[p];
    assert !FieldExportable(data[i][j], floatText);
  }

  /**
    `get_file_info` always writes "File Size (Formatted)", whose element
    name `File_Size_(Formatted)` is not an XML name: no record that holds
    the file information can be exported as XML.
  */
  lemma {:induction false} FileInfoRecordsFailXmlExport(data: seq<Items>, many: bool, floatText: real -> string, i: nat, j: nat)
    requires !many ==> |data| == 1
    requires i < |data| && j < |data[i]| && data[i][j].0 == "File Size (Formatted)"
    ensures XmlExport(data, many, floatText).None?
  {
    assert data[i][j].0[10] == '(';
    BadKeyFailsXmlExport(data, many, floatText, i, j, 10);
  }

  /** Every "EXIF: <tag>" key carries a colon, so an image record fails too. */
  lemma {:induction false} ExifRecordsFailXmlExport(data: seq<Items>, many: bool, floatText: real -> string, i: nat, j: nat)
    requires !many ==> |data| == 1
    requires i < |data| && j < |data[i]| && |data[i][j].0| >= 6 && data[i][j].0[..6] == "EXIF: "
    ensures XmlExport(data, many, floatText).None?
  {
    assert data[i][j].0[4] == "EXIF: "[4] == ':';
    BadKeyFailsXmlExport(data, many, floatText, i, j, 4);
  }
}
