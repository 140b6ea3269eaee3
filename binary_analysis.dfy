/**
  The byte analysis of FileScope.py (`advanced_analysis`): the printable
  strings of a file, its 1 KB chunks, the byte histogram behind the entropy
  value, the entropy bands and the high-entropy flag, and the hex dump of the
  first 4 KB. Also the app's own extension table and the key partition of
  its side-by-side comparison.
*/
module BinaryAnalysis {
  import opened PyStrings
  import opened PyValues
  import opened Runs
  import opened Collections
  import FileUtils
  import FileProcessors

  // ---------------------------------------------------------------------
  // extract_strings
  // ---------------------------------------------------------------------

  /** `chr(b)` for a byte. */
  function Chr(b: byte): char {
    b as int as char
  }

  /** Printable ASCII: codes 32 to 126. */
  predicate IsPrintable(c: char) {
    32 <= c as int <= 126
  }

  /** The bytes as characters, one for one. */
  function Text(data: seq<byte>): (r: string)
    ensures |r| == |data| && forall i :: 0 <= i < |data| ==> r[i] == Chr(data[i])
  {
    seq(|data|, i requires 0 <= i < |data| => Chr(data[i]))
  }

  /** The maximal printable runs of `data` that are at least `minLength` long, in order. */
  function PrintableStrings(data: seq<byte>, minLength: int): seq<string> {
    LongRuns(Segments(Text(data), IsPrintable), minLength)
  }

  /**
    `extract_strings`: grows the current string while bytes are printable,
    and at every other byte keeps it if it is long enough and starts again;
    the string still open at the end is kept the same way.
  */
  method ExtractStrings(data: seq<byte>, minLength: int) returns (strings: seq<string>)
    ensures strings == PrintableStrings(data, minLength)
  {
    var text := Text(data);
    strings := [];
    var current := "";
    for i := 0 to |data|
      invariant StringsSoFar(text[..i], minLength, current, strings)
    {
      ExtractStep(text, i, minLength, current, strings);
      if 32 <= data[i] <= 126 {
        current := current + [Chr(data[i])];
      } else {
        if |current| >= minLength {
          strings := strings + [current];
        }
        current := "";
      }
    }
    TakeAll(text);
    ExtractFinish(text, minLength, current, strings);
    if |current| >= minLength {
      strings := strings + [current];
    }
  }

  /**
    The loop's state after reading `prefix`: `current` is its last run
    (the string still open) and `strings` the long runs before it.
  */
  predicate StringsSoFar(prefix: string, minLength: int, current: string, strings: seq<string>) {
    var segs := Segments(prefix, IsPrintable);
    current == segs[|segs| - 1] && strings == LongRuns(segs[..|segs| - 1], minLength)
  }

  lemma {:induction false} ExtractStep(text: string, i: nat, minLength: int, current: string, strings: seq<string>)
    requires i < |text| && StringsSoFar(text[..i], minLength, current, strings)
    ensures IsPrintable(text[i]) ==> StringsSoFar(text[..i + 1], minLength, current + [text[i]], strings)
    ensures !IsPrintable(text[i]) ==>
      StringsSoFar(text[..i + 1], minLength, "", strings + (if |current| >= minLength then [current] else []))
  {
    var segs := Segments(text[..i], IsPrintable);
    TakeSnoc(text, i);
    SegmentsSnoc(text[..i], text[i], IsPrintable);
    if IsPrintable(text[i]) {
      assert AppendToLast(segs, text[i])[..|segs| - 1] == segs[..|segs| - 1];
    } else {
      assert segs == segs[..|segs| - 1] + [current];
      LongRunsConcat(segs[..|segs| - 1], [current], minLength);
      assert (segs + [[]])[..|segs|] == segs;
    }
  }

  lemma {:induction false} ExtractFinish(text: string, minLength: int, current: string, strings: seq<string>)
    requires StringsSoFar(text, minLength, current, strings)
    ensures strings + (if |current| >= minLength then [current] else []) == LongRuns(Segments(text, IsPrintable), minLength)
  {
    var segs := Segments(text, IsPrintable);
    assert segs == segs[..|segs| - 1] + [current];
    LongRunsConcat(segs[..|segs| - 1], [current], minLength);
  }

  /** Every extracted string is long enough and printable throughout. */
  lemma {:induction false} PrintableStringsShape(data: seq<byte>, minLength: int)
    ensures forall k :: 0 <= k < |PrintableStrings(data, minLength)| ==> |PrintableStrings(data, minLength)[k]| >= minLength
    ensures forall k, j :: 0 <= k < |PrintableStrings(data, minLength)| && 0 <= j < |PrintableStrings(data, minLength)[k]|
              ==> IsPrintable(PrintableStrings(data, minLength)[k][j])
  {
    var segs := Segments(Text(data), IsPrintable);
    SegmentsAreMaximalRuns(Text(data), IsPrintable);
    LongRunsKeepsElements(segs, minLength, IsPrintable);
  }

  /**
    The worked example: the bytes of "ABCDE", a NUL, then "XY" give just
    "ABCDE" with the default minimum of 4; the trailing "XY" is too short.
  */
  lemma {:induction false} ExtractStringsExample()
    ensures PrintableStrings([65, 66, 67, 68, 69, 0, 88, 89], 4) == ["ABCDE"]
  {
    var data: seq<byte> := [65, 66, 67, 68, 69, 0, 88, 89];
    var nul := Chr(0);
    assert !IsPrintable(nul);
    assert Text(data) == "ABCDE" + [nul] + "XY";
    SegmentsAroundRejected("ABCDE", nul, "XY", IsPrintable);
    SegmentsOfKept("ABCDE", IsPrintable);
    SegmentsOfKept("XY", IsPrintable);
    assert Segments(Text(data), IsPrintable) == ["ABCDE"] + ["XY"];
    LongRunsConcat(["ABCDE"], ["XY"], 4);
    assert LongRuns(["XY"], 4) == [];
    assert LongRuns(["ABCDE"], 4) == ["ABCDE"];
  }

  // ---------------------------------------------------------------------
  // 1 KB chunks
  // ---------------------------------------------------------------------

  const ChunkSize: nat := 1024

  /** `len(range(0, n, 1024))`. */
  function ChunkCount(n: nat): nat {
    (n + ChunkSize - 1) / ChunkSize
  }

  function Min(a: int, b: int): int {
    if a < b then a else b
  }

  /** `[data[i:i + 1024] for i in range(0, len(data), 1024)]`. */
  function Chunks(data: seq<byte>): (r: seq<seq<byte>>)
    ensures |r| == ChunkCount(|data|)
  {
    seq(ChunkCount(|data|), k requires 0 <= k < ChunkCount(|data|) =>
      ChunkBounds(|data|, k);
      data[k * ChunkSize .. Min(k * ChunkSize + ChunkSize, |data|)])
  }

  lemma {:induction false} ChunkBounds(n: nat, k: nat)
    ensures k < ChunkCount(n) <==> k * ChunkSize < n
  {
  }

  /**
    The chunks put back together are the data; each is non-empty and all
    but the last are exactly 1024 bytes.
  */
  lemma {:induction false} ChunksCoverData(data: seq<byte>)
    ensures FileUtils.Concat(Chunks(data)) == data
    ensures forall k :: 0 <= k < |Chunks(data)| ==> 0 < |Chunks(data)[k]| <= ChunkSize
    ensures forall k :: 0 <= k < |Chunks(data)| - 1 ==> |Chunks(data)[k]| == ChunkSize
  {
    var chunks := Chunks(data);
    forall k | 0 <= k < |chunks| ensures 0 < |chunks[k]| <= ChunkSize {
      ChunkBounds(|data|, k);
    }
    forall k | 0 <= k < |chunks| - 1 ensures |chunks[k]| == ChunkSize {
      ChunkBounds(|data|, k + 1);
    }
    ChunksPrefix(data, |chunks|);
    TakeAll(chunks);
    if |chunks| > 0 {
      ChunkBounds(|data|, |chunks| - 1);
      ChunkBounds(|data|, |chunks|);
    } else {
      ChunkBounds(|data|, 0);
    }
  }

  lemma {:induction false} ChunkAt(data: seq<byte>, k: nat, lo: nat, hi: nat)
    requires k < |Chunks(data)| && lo == k * ChunkSize && hi == Min(lo + ChunkSize, |data|) && lo <= hi
    ensures Chunks(data)[k] == data[lo..hi]
  {
  }

  /** The first `m` chunks are the data up to `m` KB. */
  lemma {:induction false} ChunksPrefix(data: seq<byte>, m: nat)
    requires m <= |Chunks(data)|
    ensures FileUtils.Concat(Chunks(data)[..m]) == data[..Min(m * ChunkSize, |data|)]
  {
    var chunks := Chunks(data);
    if m > 0 {
      var lo, hi := (m - 1) * ChunkSize, Min(m * ChunkSize, |data|);
      assert m * ChunkSize == lo + ChunkSize;
      ChunkBounds(|data|, m - 1);
      assert Min(lo, |data|) == lo && lo <= hi;
      ChunkAt(data, m - 1, lo, hi);
      ChunksPrefix(data, m - 1);
      TakeSnoc(chunks, m - 1);
      FileUtils.ConcatSnoc(chunks[..m - 1], chunks[m - 1]);
      assert data[..lo] + data[lo..hi] == data[..hi];
    }
  }

  /** `chunk_entropies`: one value per chunk, the entropy of that chunk. */
  function ChunkEntropies(data: seq<byte>, log2: real -> real): (r: seq<real>)
    ensures |r| == ChunkCount(|data|)
    ensures forall k :: 0 <= k < |r| ==> r[k] == Entropy(Chunks(data)[k], log2)
  {
    var chunks := Chunks(data);
    seq(|chunks|, k requires 0 <= k < |chunks| => Entropy(chunks[k], log2))
  }

  // ---------------------------------------------------------------------
  // calculate_entropy
  // ---------------------------------------------------------------------

  /** How many times `b` occurs in `data`. */
  function Occurrences(data: seq<byte>, b: byte): nat {
    if data == [] then 0
    else Occurrences(data[..|data| - 1], b) + (if data[|data| - 1] == b then 1 else 0)
  }

  /** `byte_counts`: each byte of `data` to its number of occurrences. */
  function Histogram(data: seq<byte>): map<byte, nat> {
    map b | b in data :: Occurrences(data, b)
  }

  /** The histogram with one more occurrence of `x`. */
  function Bump(h: map<byte, nat>, x: byte): map<byte, nat> {
    h[x := (if x in h then h[x] else 0) + 1]
  }

  lemma {:induction false} OccursIffPositive(data: seq<byte>, b: byte)
    ensures b in data <==> Occurrences(data, b) > 0
    decreases |data|
  {
    if data != [] {
      var init := data[..|data| - 1];
      OccursIffPositive(init, b);
      assert data == init + [data[|data| - 1]];
    }
  }

  lemma {:induction false} HistogramSnoc(data: seq<byte>, x: byte)
    ensures Histogram(data + [x]) == Bump(Histogram(data), x)
  {
    var d := data + [x];
    assert d[..|d| - 1] == data;
    forall b ensures b in d <==> b in data || b == x {
    }
    forall b | b in data ensures Occurrences(data, b) > 0 {
      OccursIffPositive(data, b);
    }
    if x !in data {
      OccursIffPositive(data, x);
    }
  }

  /**
    The counting loop of `calculate_entropy`: a new byte starts at 0, then
    every byte adds one to its count.
  */
  method ByteCounts(data: seq<byte>) returns (counts: map<byte, nat>)
    ensures counts == Histogram(data)
  {
    counts := map[];
    for i := 0 to |data|
      invariant counts == Histogram(data[..i])
    {
      var b := data[i];
      HistogramSnoc(data[..i], b);
      TakeSnoc(data, i);
      if b !in counts {
        counts := counts[b := 0];
      }
      counts := counts[b := counts[b] + 1];
    }
    TakeAll(data);
  }

  /** The counts of byte values below `n`, added up. */
  function CountSum(h: map<byte, nat>, n: nat): nat
    requires n <= 256
  {
    if n == 0 then 0
    else CountSum(h, n - 1) + (var b := (n - 1) as byte; if b in h then h[b] else 0)
  }

  lemma {:induction false} CountSumBump(h: map<byte, nat>, x: byte, n: nat)
    requires n <= 256
    ensures CountSum(Bump(h, x), n) == CountSum(h, n) + (if (x as int) < n then 1 else 0)
  {
    if n > 0 {
      CountSumBump(h, x, n - 1);
    }
  }

  /** The counts are positive and add up to the length of the data. */
  lemma {:induction false} HistogramCountsEveryByte(data: seq<byte>)
    ensures forall b :: b in Histogram(data) ==> Histogram(data)[b] > 0
    ensures CountSum(Histogram(data), 256) == |data|
    decreases |data|
  {
    forall b | b in Histogram(data) ensures Histogram(data)[b] > 0 {
      OccursIffPositive(data, b);
    }
    if data == [] {
      EmptyCountSum(256);
    } else {
      var init, x := data[..|data| - 1], data[|data| - 1];
      HistogramCountsEveryByte(init);
      assert init + [x] == data;
      HistogramSnoc(init, x);
      CountSumBump(Histogram(init), x, 256);
    }
  }

  lemma {:induction false} EmptyCountSum(n: nat)
    requires n <= 256
    ensures CountSum(map[], n) == 0
  {
    if n > 0 {
      EmptyCountSum(n - 1);
    }
  }

  /**
    `-sum(p * log2(p))` over the byte values of `h`, with `p = count / total`.
    The logarithm is a parameter; the sum runs in byte-value order, which
    over the reals is the same as the source's first-seen order.
  */
  function EntropySum(h: map<byte, nat>, total: nat, n: nat, log2: real -> real): real
    requires n <= 256 && total > 0
  {
    if n == 0 then 0.0
    else
      var b := (n - 1) as byte;
      EntropySum(h, total, n - 1, log2)
        - (if b in h then var p := h[b] as real / total as real; p * log2(p) else 0.0)
  }

  /** `calculate_entropy`: 0 for no data, else the Shannon entropy of the byte counts. */
  function Entropy(data: seq<byte>, log2: real -> real): real {
    if data == [] then 0 as real else EntropySum(Histogram(data), |data|, 256, log2)
  }

  /** Data made of a single repeated byte has entropy 0. */
  lemma {:induction false} UniformDataHasNoEntropy(data: seq<byte>, log2: real -> real)
    requires log2(1.0) == 0.0
    requires data != [] && forall i :: 0 <= i < |data| ==> data[i] == data[0]
    ensures Entropy(data, log2) == 0.0
  {
    var h := Histogram(data);
    var x := data[0];
    forall b | b in h ensures b == x && h[b] == |data| {
      HistogramCountsEveryByte(data);
      SingleByteHistogram(data, x);
    }
    EntropySumOfOneKey(h, |data|, 256, log2, x);
  }

  lemma {:induction false} SingleByteHistogram(data: seq<byte>, x: byte)
    requires forall i :: 0 <= i < |data| ==> data[i] == x
    ensures forall b :: b in data ==> b == x
    ensures Occurrences(data, x) == |data|
    decreases |data|
  {
    if data != [] {
      SingleByteHistogram(data[..|data| - 1], x);
    }
  }

  lemma {:induction false} EntropySumOfOneKey(h: map<byte, nat>, total: nat, n: nat, log2: real -> real, x: byte)
    requires n <= 256 && total > 0 && log2(1.0) == 0.0
    requires forall b :: b in h ==> b == x && h[b] == total
    ensures EntropySum(h, total, n, log2) == 0.0
  {
    if n > 0 {
      EntropySumOfOneKey(h, total, n - 1, log2, x);
      var b := (n - 1) as byte;
      if b in h {
        assert h[b] as real / total as real == 1.0;
      }
    }
  }

  // ---------------------------------------------------------------------
  // Entropy bands and the high-entropy flag
  // ---------------------------------------------------------------------

  datatype Band = VeryLow | Low | Medium | High | VeryHigh

  /** The thresholds are tested in increasing order: < 1, < 3, < 6, < 7.5. */
  function EntropyBand(e: real): Band {
    if e < 1.0 then VeryLow
    else if e < 3.0 then Low
    else if e < 6.0 then Medium
    else if e < 7.5 then High
    else VeryHigh
  }

  function Interpretation(b: Band): string {
    match b
    case VeryLow => "Very low entropy: likely empty, sparse, or highly repetitive data"
    case Low => "Low entropy: probably text, configuration files, or structured data"
    case Medium => "Medium entropy: typical for many document formats and basic binaries"
    case High => "High entropy: possibly compressed or media data"
    case VeryHigh => "Very high entropy: likely encrypted or compressed data"
  }

  function BandRank(b: Band): nat {
    match b
    case VeryLow => 0
    case Low => 1
    case Medium => 2
    case High => 3
    case VeryHigh => 4
  }

  const HighEntropyThreshold: real := 7.5

  /** A chunk is marked only when its entropy is strictly above the threshold. */
  predicate Flagged(e: real) {
    e > HighEntropyThreshold
  }

  /** More entropy never gives a lower band. */
  lemma {:induction false} BandIsMonotone(e1: real, e2: real)
    requires e1 <= e2
    ensures BandRank(EntropyBand(e1)) <= BandRank(EntropyBand(e2))
  {
  }

  /** Every flagged chunk is "very high", but 7.5 itself is "very high" without being flagged. */
  lemma {:induction false} FlagAndBandAgree(e: real)
    ensures Flagged(e) ==> EntropyBand(e) == VeryHigh
    ensures EntropyBand(7.5) == VeryHigh && !Flagged(7.5)
    ensures EntropyBand(e) == VeryHigh && e != 7.5 ==> Flagged(e)
  {
  }

  /** The marking loop: the indices of the chunks above the threshold, in order. */
  method FlaggedChunks(entropies: seq<real>) returns (flagged: seq<nat>)
    ensures forall k :: 0 <= k < |flagged| ==> flagged[k] < |entropies| && Flagged(entropies[flagged[k]])
    ensures forall i :: 0 <= i < |entropies| && Flagged(entropies[i]) ==> i in flagged
    ensures forall k, l :: 0 <= k < l < |flagged| ==> flagged[k] < flagged[l]
  {
    flagged := [];
    for i := 0 to |entropies|
      invariant forall k :: 0 <= k < |flagged| ==> flagged[k] < i && Flagged(entropies[flagged[k]])
      invariant forall j :: 0 <= j < i && Flagged(entropies[j]) ==> j in flagged
      invariant forall k, l :: 0 <= k < l < |flagged| ==> flagged[k] < flagged[l]
    {
      if entropies[i] > HighEntropyThreshold {
        flagged := flagged + [i];
      }
    }
  }

  // ---------------------------------------------------------------------
  // Hex dump
  // ---------------------------------------------------------------------

  const BytesPerRow: nat := 16
  const PreviewLimit: nat := 4096

  const TruncationNote: string := "\n[Preview limited to first 4KB. File is larger.]\n"

  function Pow16(w: nat): nat {
    if w == 0 then 1 else 16 * Pow16(w - 1)
  }

  /** A number below `16^w` has at most `w` hex digits. */
  lemma {:induction false} HexDigitsWithin(n: nat, w: nat)
    requires w >= 1 && n < Pow16(w)
    ensures |Digits(n, 16)| <= w
    decreases n
  {
    if n >= 16 {
      DivModIdentity(n, 16);
      HexDigitsWithin(n / 16, w - 1);
    }
  }

  /** `f"{n:0<w>X}"` for `n < 16^w` is exactly `w` characters. */
  lemma {:induction false} HexFieldWidth(n: nat, w: nat)
    requires w >= 1 && n < Pow16(w)
    ensures |ZeroPad(n, w, 16)| == w
  {
    HexDigitsWithin(n, w);
  }

  /** `f"{b:02X}"`: two uppercase hex digits that read back as `b`. */
  function HexByte(b: byte): (r: string)
    ensures |r| == 2 && ParseDigits(r, 16) == b as int
  {
    HexFieldWidth(b as nat, 2);
    ParseZeroPad(b as nat, 2, 16);
    ZeroPad(b as nat, 2, 16)
  }

  /** Hex slot `j` of the row at `i`: two digits and a space, or three spaces past the end. */
  function HexSlot(data: seq<byte>, i: nat, j: nat): (r: string)
    ensures |r| == 3
  {
    if i + j < |data| then HexByte(data[i + j]) + " " else "   "
  }

  /** ASCII column `j` of the row at `i`: the character if printable, '.' if not, ' ' past the end. */
  function AsciiCell(data: seq<byte>, i: nat, j: nat): char {
    if i + j < |data| then (if 32 <= data[i + j] <= 126 then Chr(data[i + j]) else '.') else ' '
  }

  /** The 16 hex slots of the row at `i`. */
  function HexCells(data: seq<byte>, i: nat): (r: seq<string>)
    ensures |r| == BytesPerRow && forall j :: 0 <= j < BytesPerRow ==> r[j] == HexSlot(data, i, j)
  {
    seq(BytesPerRow, j requires 0 <= j < BytesPerRow => HexSlot(data, i, j))
  }

  /** The 16 ASCII columns of the row at `i`. */
  function AsciiCells(data: seq<byte>, i: nat): (r: string)
    ensures |r| == BytesPerRow && forall j :: 0 <= j < BytesPerRow ==> r[j] == AsciiCell(data, i, j)
  {
    seq(BytesPerRow, j requires 0 <= j < BytesPerRow => AsciiCell(data, i, j))
  }

  /** The cells written one after the other. */
  function Joined(cells: seq<string>): string {
    if cells == [] then "" else Joined(cells[..|cells| - 1]) + cells[|cells| - 1]
  }

  /** One row: 8-digit offset, ": ", 16 hex slots, two spaces, 16 ASCII columns, newline. */
  function HexRow(data: seq<byte>, i: nat): string {
    (ZeroPad(i, 8, 16) + ": ") + Joined(HexCells(data, i)) + ("  " + AsciiCells(data, i) + "\n")
  }

  /** The inner hex loop of a row. */
  method HexLine(data: seq<byte>, i: nat) returns (hexLine: string)
    ensures hexLine == Joined(HexCells(data, i))
  {
    var cells := HexCells(data, i);
    hexLine := "";
    for j := 0 to BytesPerRow
      invariant hexLine == Joined(cells[..j])
    {
      TakeSnoc(cells, j);
      assert cells[..j + 1][..j] == cells[..j];
      if i + j < |data| {
        hexLine := hexLine + HexByte(data[i + j]) + " ";
      } else {
        hexLine := hexLine + "   ";
      }
    }
    TakeAll(cells);
  }

  /** The inner ASCII loop of a row. */
  method AsciiLine(data: seq<byte>, i: nat) returns (asciiLine: string)
    ensures asciiLine == AsciiCells(data, i)
  {
    var cells := AsciiCells(data, i);
    asciiLine := "";
    for j := 0 to BytesPerRow
      invariant asciiLine == cells[..j]
    {
      TakeSnoc(cells, j);
      if i + j < |data| {
        var b := data[i + j];
        if 32 <= b <= 126 {
          asciiLine := asciiLine + [Chr(b)];
        } else {
          asciiLine := asciiLine + ".";
        }
      } else {
        asciiLine := asciiLine + " ";
      }
    }
    TakeAll(cells);
  }

  /** The number of rows: one per started 16 bytes of the first 4 KB. */
  function RowCount(n: nat): nat {
    (Min(n, PreviewLimit) + BytesPerRow - 1) / BytesPerRow
  }

  /** The loop stops at the first multiple of 16 not below the previewed length. */
  lemma {:induction false} RowCountAtExit(n: nat, rows: nat)
    requires Min(n, PreviewLimit) <= BytesPerRow * rows <= Min(n, PreviewLimit) + BytesPerRow - 1
    ensures rows == RowCount(n)
  {
  }

  /**
    The binary preview: a row for every multiple of 16 below
    `min(len(data), 4096)`, then the truncation note when the data is longer.
  */
  method HexDump(data: seq<byte>) returns (rows: seq<string>, note: string)
    ensures |rows| == RowCount(|data|)
    ensures forall r :: 0 <= r < |rows| ==> rows[r] == HexRow(data, BytesPerRow * r)
    ensures note == if |data| > PreviewLimit then TruncationNote else ""
  {
    var limit := Min(|data|, PreviewLimit);
    rows := [];
    var i := 0;
    while i < limit
      invariant i == 16 * |rows| && i <= limit + 15
      invariant forall r :: 0 <= r < |rows| ==> rows[r] == HexRow(data, 16 * r)
      decreases limit - i
    {
      var offset := ZeroPad(i, 8, 16);
      var hexLine := HexLine(data, i);
      var asciiLine := AsciiLine(data, i);
      assert (offset + ": ") + hexLine + ("  " + asciiLine + "\n") == HexRow(data, i);
      rows := rows + [(offset + ": ") + hexLine + ("  " + asciiLine + "\n")];
      i := i + 16;
    }
    RowCountAtExit(|data|, |rows|);
    note := if |data| > PreviewLimit then TruncationNote else "";
  }

  /** Cells of width 3 joined: cell `j` sits at columns `3j` to `3j + 3`. */
  lemma {:induction false} JoinedCellAt(cells: seq<string>, j: nat)
    requires forall k :: 0 <= k < |cells| ==> |cells[k]| == 3
    requires j < |cells|
    ensures |Joined(cells)| == 3 * |cells|
    ensures Joined(cells)[3 * j .. 3 * j + 3] == cells[j]
    decreases |cells|
  {
    var init := cells[..|cells| - 1];
    JoinedLength(init);
    if j < |cells| - 1 {
      JoinedCellAt(init, j);
      assert (Joined(init) + cells[|cells| - 1])[3 * j .. 3 * j + 3] == Joined(init)[3 * j .. 3 * j + 3];
    }
  }

  lemma {:induction false} JoinedLength(cells: seq<string>)
    requires forall k :: 0 <= k < |cells| ==> |cells[k]| == 3
    ensures |Joined(cells)| == 3 * |cells|
    decreases |cells|
  {
    if cells != [] {
      JoinedLength(cells[..|cells| - 1]);
    }
  }

  /**
    Reading the dump back: byte `k` of the preview is the two hex digits at
    column `10 + 3 * (k % 16)` of row `k / 16`, and every row is 77
    characters long.
  */
  lemma {:induction false} HexDumpRecoversBytes(data: seq<byte>, k: nat)
    requires k < Min(|data|, PreviewLimit)
    ensures var row, j := HexRow(data, BytesPerRow * (k / BytesPerRow)), k % BytesPerRow;
      |row| == 77 && ParseDigits(row[10 + 3 * j .. 12 + 3 * j], 16) == data[k] as int
  {
    RowAndColumn(k);
    RowSlotHoldsByte(data, BytesPerRow * (k / BytesPerRow), k % BytesPerRow);
  }

  /** Slot `j` of the row at `i` (an offset within the 4 KB preview) holds byte `i + j` in hex. */
  lemma {:induction false} RowSlotHoldsByte(data: seq<byte>, i: nat, j: nat)
    requires j < BytesPerRow && i + j < |data| && i < PreviewLimit
    ensures |HexRow(data, i)| == 77
    ensures HexRow(data, i)[10 + 3 * j .. 12 + 3 * j] == HexByte(data[i + j])
  {
    HexFieldWidth(i, 8);
    var cells := HexCells(data, i);
    JoinedCellAt(cells, j);
    var head, hex, tail := ZeroPad(i, 8, 16) + ": ", Joined(cells), "  " + AsciiCells(data, i) + "\n";
    assert |head| == 10 && |hex| == 48 && |tail| == 19;
    var hb := HexByte(data[i + j]);
    assert HexSlot(data, i, j) == hb + " ";
    SlotDigits(hex, hb, 3 * j);
    InnerSlice(head, hex, tail, 3 * j, 3 * j + 2);
  }

  lemma RowAndColumn(k: nat)
    ensures BytesPerRow * (k / BytesPerRow) + k % BytesPerRow == k
    ensures k % BytesPerRow < BytesPerRow && BytesPerRow * (k / BytesPerRow) <= k
  {
  }

  lemma SlotDigits(hex: string, hb: string, p: nat)
    requires |hb| == 2 && p + 3 <= |hex| && hex[p .. p + 3] == hb + " "
    ensures hex[p .. p + 2] == hb
  {
    assert hex[p .. p + 2] == hex[p .. p + 3][..2];
  }

  lemma InnerSlice<T>(a: seq<T>, b: seq<T>, c: seq<T>, lo: nat, hi: nat)
    requires lo <= hi <= |b|
    ensures (a + b + c)[|a| + lo .. |a| + hi] == b[lo..hi]
  {
  }

  /**
    The ASCII columns show every printable byte as itself and nothing
    else: no control character reaches the preview.
  */
  lemma {:induction false} AsciiColumnsArePrintable(data: seq<byte>, i: nat, j: nat)
    requires j < BytesPerRow
    ensures IsPrintable(AsciiCells(data, i)[j])
    ensures i + j < |data| ==> (AsciiCells(data, i)[j] == Chr(data[i + j]) <==> 32 <= data[i + j] <= 126)
  {
    if i + j < |data| && !(32 <= data[i + j] <= 126) {
      assert Chr(data[i + j]) != '.' by {
        if data[i + j] == 46 {
          assert false;
        }
      }
    }
  }

  // ---------------------------------------------------------------------
  // get_file_type_category (the app's own table)
  // ---------------------------------------------------------------------

  const ImageExtensions: seq<string> := [".jpg", ".jpeg", ".png", ".gif", ".bmp", ".tiff", ".webp"]
  const AudioExtensions: seq<string> := [".mp3", ".wav", ".flac", ".aac", ".ogg", ".m4a"]
  const VideoExtensions: seq<string> := [".mp4", ".avi", ".mov", ".mkv", ".flv", ".wmv"]
  const DocumentExtensions: seq<string> :=
    [".pdf", ".doc", ".docx", ".txt", ".rtf", ".odt", ".xls", ".xlsx", ".ppt", ".pptx"]

  /** The office formats the app's document list has beyond `FILE_TYPES`. */
  const OfficeExtensions: seq<string> := [".xls", ".xlsx", ".ppt", ".pptx"]

  /** The lists are tried in order: image, audio, video, document, else "Other". */
  function AppCategory(path: string): string {
    var ext := FileUtils.Extension(path);
    if ext in ImageExtensions then "Image"
    else if ext in AudioExtensions then "Audio"
    else if ext in VideoExtensions then "Video"
    else if ext in DocumentExtensions then "Document"
    else "Other"
  }

  /**
    The app's table and `FILE_TYPES` name the same image, audio and video
    extensions; every document of `FILE_TYPES` is a document here too, and
    the app adds the office formats; archives are "Other" here.
  */
  lemma {:induction false} AppCategoryMatchesFileTypes(path: string)
    ensures var ext, app, lib := FileUtils.Extension(path), AppCategory(path), FileUtils.FileTypeCategory(path);
      && (app == "Image" <==> lib == "Images")
      && (app == "Audio" <==> lib == "Audio")
      && (app == "Video" <==> lib == "Video")
      && (lib == "Documents" ==> app == "Document")
      && (app == "Document" && lib != "Documents" ==> ext in OfficeExtensions)
      && (lib == "Archives" ==> app == "Other")
  {
    var ext := FileUtils.Extension(path);
    var rows := FileUtils.FileTypes;
    FileUtils.CategoryOfExtensionIsListingRow(ext);
    SameMembers(ext);
    var k := FileUtils.FirstRowListing(rows, ext);
    if k == -1 {
      assert FileUtils.FileTypeCategory(path) == "Other";
    } else {
      assert FileUtils.FileTypeCategory(path) == rows[k].0;
      OfficeIsUnlisted(ext, k);
    }
  }

  /** List by list, the app's table and `FILE_TYPES` agree on membership. */
  lemma {:induction false} SameMembers(ext: string)
    ensures ext in ImageExtensions <==> ext in FileUtils.FileTypes[0].1
    ensures ext in AudioExtensions <==> ext in FileUtils.FileTypes[2].1
    ensures ext in VideoExtensions <==> ext in FileUtils.FileTypes[3].1
    ensures ext in DocumentExtensions <==> ext in FileUtils.FileTypes[1].1 || ext in OfficeExtensions
  {
    assert ImageExtensions == FileUtils.FileTypes[0].1;
    assert AudioExtensions == FileUtils.FileTypes[2].1;
    assert DocumentExtensions == FileUtils.FileTypes[1].1 + OfficeExtensions;
    var v := FileUtils.FileTypes[3].1;
    assert VideoExtensions == [v[0], v[1], v[3], v[2], v[5], v[4]];
  }

  /** No row of `FILE_TYPES` lists an office format. */
  lemma {:induction false} OfficeIsUnlisted(ext: string, k: nat)
    requires k < |FileUtils.FileTypes| && ext in FileUtils.FileTypes[k].1
    ensures ext !in OfficeExtensions
  {
    if ext in OfficeExtensions {
      assert false;
    }
  }

  // ---------------------------------------------------------------------
  // _compare_files: the summary counts
  // ---------------------------------------------------------------------

  datatype Summary = Summary(
    fields1: nat, fields2: nat, common: nat, similar: nat, different: nat, only1: nat, only2: nat)

  /**
    The key partition of the side-by-side comparison and its counts. The
    split of the common keys is the same loop as `FileComparer.compare`.
  */
  method CompareSummary(m1: Record, m2: Record) returns (s: Summary)
    ensures s.common == s.similar + s.different
    ensures s.fields1 == s.common + s.only1 && s.fields2 == s.common + s.only2
    ensures s.common == |m1.Keys * m2.Keys| && s.only1 == |m1.Keys - m2.Keys| && s.only2 == |m2.Keys - m1.Keys|
    ensures s.different == |FileProcessors.DifferencesAmong(m1, m2, m1.Keys * m2.Keys)|
  {
    var common := m1.Keys * m2.Keys;
    var only1 := m1.Keys - m2.Keys;
    var only2 := m2.Keys - m1.Keys;
    var differences, similarities := FileProcessors.SplitCommonKeys(m1, m2, common);
    SimilarPlusDifferent(m1, m2);
    IntersectionAndDifference(m1.Keys, m2.Keys);
    IntersectionAndDifference(m2.Keys, m1.Keys);
    assert m2.Keys * m1.Keys == common;
    s := Summary(|m1.Keys|, |m2.Keys|, |common|, |similarities|, |differences|, |only1|, |only2|);
  }

  /** Every common key is either similar or different, never both. */
  lemma {:induction false} SimilarPlusDifferent(m1: Record, m2: Record)
    ensures var common := m1.Keys * m2.Keys;
      |FileProcessors.DifferencesAmong(m1, m2, common)| + |FileProcessors.SimilaritiesAmong(m1, m2, common)| == |common|
  {
    var common := m1.Keys * m2.Keys;
    FileProcessors.CommonKeysSplit(m1, m2, "", "");
    var c := FileProcessors.Compared(m1, m2, "", "");
    SplitCardinality(c.differences.Keys, c.similarities.Keys, common);
  }

  lemma IntersectionAndDifference(a: set<string>, b: set<string>)
    ensures |a| == |a * b| + |a - b|
  {
    SplitCardinality(a * b, a - b, a);
  }

  lemma SplitCardinality(a: set<string>, b: set<string>, c: set<string>)
    requires a + b == c && a !! b
    ensures |c| == |a| + |b|
  {
  }
}
