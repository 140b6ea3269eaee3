/**
  file_processors.py: the four-way comparison of two records
  (`FileComparer.compare`), the all-criteria record filter (`FileFilter`)
  and the sequential bookkeeping of `BatchProcessor`.
*/
module FileProcessors {
  import opened Wrappers
  import opened PyStrings
  import opened PyValues
  import opened Collections
  import FileUtils

  // ---------------------------------------------------------------------
  // FileComparer.compare
  // ---------------------------------------------------------------------

  /** The `{"file1": ..., "file2": ...}` entry of a differing key. */
  datatype ValuePair = ValuePair(file1: Value, file2: Value)

  /** The dictionary `compare` returns on success. */
  datatype Comparison = Comparison(
    differences: map<string, ValuePair>,
    similarities: Record,
    onlyInFile1: Record,
    onlyInFile2: Record,
    file1: string,
    file2: string)

  /** `os.path.basename` (POSIX): everything after the last '/'. */
  function BaseName(path: string): (r: string)
    ensures |r| <= |path| && r == path[|path| - |r|..]
    ensures '/' !in r
    ensures |r| < |path| ==> path[|path| - |r| - 1] == '/'
  {
    path[FileUtils.LastIndexOf(path, '/') + 1..]
  }

  /** The keys of `keys` present in both records with unequal values. */
  function DifferencesAmong(m1: Record, m2: Record, keys: set<string>): map<string, ValuePair> {
    map k | k in keys && k in m1 && k in m2 && !PyEq(m1[k], m2[k]) :: ValuePair(m1[k], m2[k])
  }

  /** The keys of `keys` present in both records with equal values, valued from `m1`. */
  function SimilaritiesAmong(m1: Record, m2: Record, keys: set<string>): Record {
    map k | k in keys && k in m1 && k in m2 && PyEq(m1[k], m2[k]) :: m1[k]
  }

  /** The keys of `keys` present in `m1`, valued from `m1`. */
  function EntriesAmong(m1: Record, keys: set<string>): Record {
    map k | k in keys && k in m1 :: m1[k]
  }

  /** The comparison of two records, as a value. */
  function Compared(m1: Record, m2: Record, path1: string, path2: string): Comparison {
    var common := m1.Keys * m2.Keys;
    Comparison(
      DifferencesAmong(m1, m2, common),
      SimilaritiesAmong(m1, m2, common),
      EntriesAmong(m1, m1.Keys - common),
      EntriesAmong(m2, m2.Keys - common),
      BaseName(path1),
      BaseName(path2))
  }

  /**
    `FileComparer.compare` given the two extracted records: one pass over
    the common keys sorts each into differences or similarities, then one
    pass per record collects the keys the other lacks.
  */
  method Compare(path1: string, path2: string, metadata1: Record, metadata2: Record)
    returns (c: Comparison)
    ensures c == Compared(metadata1, metadata2, path1, path2)
  {
    var common := metadata1.Keys * metadata2.Keys;
    var differences, similarities := SplitCommonKeys(metadata1, metadata2, common);
    var onlyInFile1 := CollectEntries(metadata1, metadata1.Keys - common);
    var onlyInFile2 := CollectEntries(metadata2, metadata2.Keys - common);
    c := Comparison(differences, similarities, onlyInFile1, onlyInFile2, BaseName(path1), BaseName(path2));
  }

  /** The loop over the common keys: unequal values to `differences`, equal ones to `similarities`. */
  method SplitCommonKeys(metadata1: Record, metadata2: Record, common: set<string>)
    returns (differences: map<string, ValuePair>, similarities: Record)
    requires common <= metadata1.Keys * metadata2.Keys
    ensures differences == DifferencesAmong(metadata1, metadata2, common)
    ensures similarities == SimilaritiesAmong(metadata1, metadata2, common)
  {
    differences, similarities := map[], map[];
    var todo, done: set<string> := common, {};
    while todo != {}
      invariant todo <= common && done == common - todo
      invariant differences == DifferencesAmong(metadata1, metadata2, done)
      invariant similarities == SimilaritiesAmong(metadata1, metadata2, done)
      decreases todo
    {
      var key :| key in todo;
      MoveToDone(common, todo, done, key);
      if !PyEq(metadata1[key], metadata2[key]) {
        differences := differences[key := ValuePair(metadata1[key], metadata2[key])];
      } else {
        similarities := similarities[key := metadata1[key]];
      }
      todo, done := todo - {key}, done + {key};
    }
  }

  /** `for key in keys: out[key] = m[key]`, for keys all present in `m`. */
  method CollectEntries(m: Record, keys: set<string>) returns (out: Record)
    requires keys <= m.Keys
    ensures out == EntriesAmong(m, keys)
  {
    out := map[];
    var todo, done: set<string> := keys, {};
    while todo != {}
      invariant todo <= keys && done == keys - todo
      invariant out == EntriesAmong(m, done)
      decreases todo
    {
      var key :| key in todo;
      MoveToDone(keys, todo, done, key);
      out := out[key := m[key]];
      todo, done := todo - {key}, done + {key};
    }
  }

  /**
    The four parts split the keys of the two records: together they hold
    every key of either record, and no key is in two of them.
  */
  lemma {:induction false} ComparePartitionsKeys(m1: Record, m2: Record, path1: string, path2: string)
    ensures var c := Compared(m1, m2, path1, path2);
      && c.differences.Keys + c.similarities.Keys + c.onlyInFile1.Keys + c.onlyInFile2.Keys == m1.Keys + m2.Keys
      && c.differences.Keys !! c.similarities.Keys
      && c.differences.Keys !! c.onlyInFile1.Keys
      && c.differences.Keys !! c.onlyInFile2.Keys
      && c.similarities.Keys !! c.onlyInFile1.Keys
      && c.similarities.Keys !! c.onlyInFile2.Keys
      && c.onlyInFile1.Keys !! c.onlyInFile2.Keys
  {
    var c := Compared(m1, m2, path1, path2);
    CommonKeysSplit(m1, m2, path1, path2);
    OnlyKeys(m1, m2, path1, path2);
    FourWaySplit(m1.Keys, m2.Keys, c.differences.Keys, c.similarities.Keys, c.onlyInFile1.Keys, c.onlyInFile2.Keys);
  }

  /** Set algebra: splitting the common part of `a` and `b` in two, plus both differences, partitions `a + b`. */
  lemma FourWaySplit(a: set<string>, b: set<string>, d: set<string>, s: set<string>, o1: set<string>, o2: set<string>)
    requires d + s == a * b && d !! s && o1 == a - b && o2 == b - a
    ensures d + s + o1 + o2 == a + b
    ensures d !! o1 && d !! o2 && s !! o1 && s !! o2 && o1 !! o2
  {
  }

  lemma SameKeys(a: set<string>, b: set<string>)
    requires forall k :: k in a <==> k in b
    ensures a == b
  {
  }

  /** The common keys are split between the differences and the similarities. */
  lemma {:induction false} CommonKeysSplit(m1: Record, m2: Record, path1: string, path2: string)
    ensures var c := Compared(m1, m2, path1, path2);
      c.differences.Keys + c.similarities.Keys == m1.Keys * m2.Keys && c.differences.Keys !! c.similarities.Keys
  {
    var c := Compared(m1, m2, path1, path2);
    var common := c.differences.Keys + c.similarities.Keys;
    forall k ensures (k in common <==> k in m1.Keys * m2.Keys) && !(k in c.differences && k in c.similarities) {
      ComparePlacesKey(m1, m2, path1, path2, k);
    }
    SameKeys(common, m1.Keys * m2.Keys);
  }

  /** The keys found in one record only are that record's keys less the other's. */
  lemma {:induction false} OnlyKeys(m1: Record, m2: Record, path1: string, path2: string)
    ensures var c := Compared(m1, m2, path1, path2);
      c.onlyInFile1.Keys == m1.Keys - m2.Keys && c.onlyInFile2.Keys == m2.Keys - m1.Keys
  {
    var c := Compared(m1, m2, path1, path2);
    forall k ensures (k in c.onlyInFile1 <==> k in m1.Keys - m2.Keys) && (k in c.onlyInFile2 <==> k in m2.Keys - m1.Keys) {
      ComparePlacesKey(m1, m2, path1, path2, k);
    }
    SameKeys(c.onlyInFile1.Keys, m1.Keys - m2.Keys);
    SameKeys(c.onlyInFile2.Keys, m2.Keys - m1.Keys);
  }

  /** Where one key lands: which part holds it depends only on the two records at that key. */
  lemma {:induction false} ComparePlacesKey(m1: Record, m2: Record, path1: string, path2: string, k: string)
    ensures var c := Compared(m1, m2, path1, path2);
      && (k in c.differences <==> k in m1 && k in m2 && !PyEq(m1[k], m2[k]))
      && (k in c.similarities <==> k in m1 && k in m2 && PyEq(m1[k], m2[k]))
      && (k in c.onlyInFile1 <==> k in m1 && k !in m2)
      && (k in c.onlyInFile2 <==> k in m2 && k !in m1)
  {
  }

  /**
    Every part holds the values the source gives it: a difference carries
    both sides and they are unequal, a similarity carries the first record's
    value and the second's equals it, and a key found in one record only
    carries that record's value.
  */
  lemma {:induction false} CompareEntriesAreFromTheRecords(m1: Record, m2: Record, path1: string, path2: string)
    ensures var c := Compared(m1, m2, path1, path2);
      && (forall k :: k in c.differences ==>
            k in m1 && k in m2 && c.differences[k] == ValuePair(m1[k], m2[k]) && !PyEq(m1[k], m2[k]))
      && (forall k :: k in c.similarities ==>
            k in m1 && k in m2 && c.similarities[k] == m1[k] && PyEq(m1[k], m2[k]))
      && (forall k :: k in c.onlyInFile1 ==> k in m1 && k !in m2 && c.onlyInFile1[k] == m1[k])
      && (forall k :: k in c.onlyInFile2 ==> k in m2 && k !in m1 && c.onlyInFile2[k] == m2[k])
  {
  }

  /**
    Comparing in the other order swaps the two "only in" parts and the
    two sides of every difference; the similar keys stay the same, with
    values equal (under Python's `==`) to the ones before.
  */
  lemma {:induction false} CompareSwap(m1: Record, m2: Record, path1: string, path2: string)
    ensures var c, c' := Compared(m1, m2, path1, path2), Compared(m2, m1, path2, path1);
      && c'.onlyInFile1 == c.onlyInFile2 && c'.onlyInFile2 == c.onlyInFile1
      && c'.differences.Keys == c.differences.Keys
      && (forall k :: k in c.differences ==>
            c'.differences[k] == ValuePair(c.differences[k].file2, c.differences[k].file1))
      && c'.similarities.Keys == c.similarities.Keys
      && (forall k :: k in c.similarities ==> PyEq(c'.similarities[k], c.similarities[k]))
      && c'.file1 == c.file2 && c'.file2 == c.file1
  {
    var c, c' := Compared(m1, m2, path1, path2), Compared(m2, m1, path2, path1);
    assert m2.Keys * m1.Keys == m1.Keys * m2.Keys;
    forall k | k in m1 && k in m2
      ensures PyEq(m1[k], m2[k]) <==> PyEq(m2[k], m1[k])
      ensures PyEq(m1[k], m2[k]) ==> PyEq(m2[k], m1[k])
    {
      PyEqIsEquivalence(m1[k], m2[k], m1[k]);
    }
  }

  /** A record compared with itself is all similarities. */
  lemma {:induction false} CompareWithItself(m: Record, path: string)
    ensures var c := Compared(m, m, path, path);
      c.similarities == m && c.differences == map[] && c.onlyInFile1 == map[] && c.onlyInFile2 == map[]
  {
    var c := Compared(m, m, path, path);
    forall k | k in m ensures PyEq(m[k], m[k]) {
      PyEqIsEquivalence(m[k], m[k], m[k]);
    }
  }

  /**
    `compare` and `compare_metadata` in file_utils.py report the same
    keys: what differs or is missing from one side.
  */
  lemma {:induction false} CompareAgreesWithMetadataDiff(m1: Record, m2: Record, path1: string, path2: string)
    ensures var c := Compared(m1, m2, path1, path2);
      c.differences.Keys + c.onlyInFile1.Keys + c.onlyInFile2.Keys == FileUtils.MetadataDiff(m1, m2).Keys
  {
    var c := Compared(m1, m2, path1, path2);
    var reported := c.differences.Keys + c.onlyInFile1.Keys + c.onlyInFile2.Keys;
    var diffKeys := FileUtils.MetadataDiff(m1, m2).Keys;
    forall k ensures k in reported <==> k in diffKeys {
      ComparePlacesKey(m1, m2, path1, path2, k);
      FileUtils.MetadataDiffReportsExactly(m1, m2, k);
    }
    SameKeys(reported, diffKeys);
  }

  // ---------------------------------------------------------------------
  // FileFilter
  // ---------------------------------------------------------------------

  /** `d.get(k)`: the value, or `None` when the key is absent. */
  function Get(d: Record, k: string): Value {
    if k in d then d[k] else VNone
  }

  /**
    `float(v)` when `v` is an int, float or str, and 0 for any other value;
    `None` where `float()` raises. Parsing a string is Python's own and is
    supplied as `parseFloat`.
  */
  function ToNumber(v: Value, parseFloat: string -> Option<real>): Option<real> {
    match v
    case VNone => Some(0.0)
    case VStr(s) => parseFloat(s)
    case _ => Some(NumericValue(v))
  }

  /** The string operators; an operator not listed here tests nothing. */
  predicate StringTest(op: Value, fieldValue: string, value: string) {
    if op == VStr("==") then fieldValue == value
    else if op == VStr("!=") then fieldValue != value
    else if op == VStr("contains") then Contains(Lower(fieldValue), Lower(value))
    else if op == VStr("starts_with") then StartsWith(Lower(fieldValue), Lower(value))
    else if op == VStr("ends_with") then EndsWith(Lower(fieldValue), Lower(value))
    else true
  }

  /** The numeric operators; a failed conversion on either side rejects. */
  predicate NumberTest(op: Value, fieldValue: Option<real>, value: Option<real>) {
    if fieldValue.None? || value.None? then false
    else
      var a, b := fieldValue.value, value.value;
      if op == VStr("==") then a == b
      else if op == VStr("!=") then a != b
      else if op == VStr(">") then a > b
      else if op == VStr("<") then a < b
      else if op == VStr(">=") then a >= b
      else if op == VStr("<=") then a <= b
      else true
  }

  /**
    One criterion (a dictionary with "field", "operator" and "value"):
    skipped when the field or operator is falsy, failed when the record
    lacks the field, otherwise a string test when both sides are strings
    and a numeric test when not.
  */
  predicate CriterionHolds(metadata: Record, criterion: Record, parseFloat: string -> Option<real>) {
    var field, op, value := Get(criterion, "field"), Get(criterion, "operator"), Get(criterion, "value");
    if !Truthy(field) || !Truthy(op) then true
    else if !field.VStr? || field.s !in metadata then false
    else
      var fieldValue := metadata[field.s];
      if value.VStr? && fieldValue.VStr? then StringTest(op, fieldValue.s, value.s)
      else NumberTest(op, ToNumber(fieldValue, parseFloat), ToNumber(value, parseFloat))
  }

  /**
    `_matches_criteria`: the criteria are tried in order and the first
    that fails rejects the record, so a record matches exactly when every
    criterion holds for it.
  */
  function MatchesCriteria(metadata: Record, criteria: seq<Record>, parseFloat: string -> Option<real>): (r: bool)
    ensures r <==> forall i :: 0 <= i < |criteria| ==> CriterionHolds(metadata, criteria[i], parseFloat)
    decreases |criteria|
  {
    if criteria == [] then true
    else if !CriterionHolds(metadata, criteria[0], parseFloat) then false
    else
      var rest := MatchesCriteria(metadata, criteria[1..], parseFloat);
      assert forall i :: 1 <= i < |criteria| ==> criteria[i] == criteria[1..][i - 1];
      rest
  }

  /** The records of `files` that match, as a value. */
  function Filtered(files: map<string, Record>, criteria: seq<Record>, parseFloat: string -> Option<real>): map<string, Record> {
    map p | p in files && MatchesCriteria(files[p], criteria, parseFloat) :: files[p]
  }

  /** `filter_files`: one pass over the records keeping the matching ones. */
  method FilterFiles(files: map<string, Record>, criteria: seq<Record>, parseFloat: string -> Option<real>)
    returns (result: map<string, Record>)
    ensures result == Filtered(files, criteria, parseFloat)
  {
    result := map[];
    var todo, done: set<string> := files.Keys, {};
    while todo != {}
      invariant todo <= files.Keys && done == files.Keys - todo
      invariant result == map p | p in done && MatchesCriteria(files[p], criteria, parseFloat) :: files[p]
      decreases todo
    {
      var path :| path in todo;
      MoveToDone(files.Keys, todo, done, path);
      if MatchesCriteria(files[path], criteria, parseFloat) {
        result := result[path := files[path]];
      }
      todo, done := todo - {path}, done + {path};
    }
  }

  /**
    Filtering keeps records unchanged and drops none that match: the result
    is the part of the input on which every criterion holds.
  */
  lemma {:induction false} FilteredKeepsExactlyTheMatches(files: map<string, Record>, criteria: seq<Record>,
                                                         parseFloat: string -> Option<real>, p: string)
    ensures var r := Filtered(files, criteria, parseFloat);
      && (p in r <==> p in files && forall i :: 0 <= i < |criteria| ==> CriterionHolds(files[p], criteria[i], parseFloat))
      && (p in r ==> r[p] == files[p])
  {
    if p in files {
      var _ := MatchesCriteria(files[p], criteria, parseFloat);
    }
  }

  /** The criteria are a conjunction: filtering by `c1 + c2` is filtering by `c1`, then by `c2`. */
  lemma {:induction false} FilterByConcatenation(files: map<string, Record>, c1: seq<Record>, c2: seq<Record>,
                                                parseFloat: string -> Option<real>)
    ensures Filtered(Filtered(files, c1, parseFloat), c2, parseFloat) == Filtered(files, c1 + c2, parseFloat)
  {
    forall p | p in files
      ensures MatchesCriteria(files[p], c1 + c2, parseFloat)
              <==> MatchesCriteria(files[p], c1, parseFloat) && MatchesCriteria(files[p], c2, parseFloat)
    {
      var m := files[p];
      assert forall i :: 0 <= i < |c1| ==> (c1 + c2)[i] == c1[i];
      assert forall i :: 0 <= i < |c2| ==> (c1 + c2)[|c1| + i] == c2[i];
      if MatchesCriteria(m, c1, parseFloat) && MatchesCriteria(m, c2, parseFloat) {
        forall i | 0 <= i < |c1 + c2| ensures CriterionHolds(m, (c1 + c2)[i], parseFloat) {
          if i >= |c1| {
            assert (c1 + c2)[i] == c2[i - |c1|];
          }
        }
      }
    }
  }

  /** Filtering twice by the same criteria changes nothing. */
  lemma {:induction false} FilterIdempotent(files: map<string, Record>, criteria: seq<Record>,
                                           parseFloat: string -> Option<real>)
    ensures Filtered(Filtered(files, criteria, parseFloat), criteria, parseFloat) == Filtered(files, criteria, parseFloat)
  {
  }

  /** A criterion whose field or operator is empty or missing changes no verdict. */
  lemma {:induction false} EmptyCriterionIsSkipped(metadata: Record, criterion: Record, criteria: seq<Record>,
                                                  parseFloat: string -> Option<real>)
    requires !Truthy(Get(criterion, "field")) || !Truthy(Get(criterion, "operator"))
    ensures MatchesCriteria(metadata, [criterion] + criteria, parseFloat) == MatchesCriteria(metadata, criteria, parseFloat)
  {
    assert ([criterion] + criteria)[1..] == criteria;
  }

  /** A named field the record lacks rejects it, whatever the other criteria say. */
  lemma {:induction false} MissingFieldRejects(metadata: Record, criteria: seq<Record>, i: nat,
                                              parseFloat: string -> Option<real>)
    requires i < |criteria|
    requires Truthy(Get(criteria[i], "field")) && Truthy(Get(criteria[i], "operator"))
    requires Get(criteria[i], "field").VStr? && Get(criteria[i], "field").s !in metadata
    ensures !MatchesCriteria(metadata, criteria, parseFloat)
  {
  }

  /**
    Between two strings the comparison operators test nothing, so the record
    `{"size": "10"}` passes `size > "15"` as `{"size": "20"}` does.
  */
  lemma {:induction false} StringOrderingIsNoConstraint(parseFloat: string -> Option<real>)
    ensures var criterion := map["field" := VStr("size"), "operator" := VStr(">"), "value" := VStr("15")];
      var files := map["a" := map["size" := VStr("10")], "b" := map["size" := VStr("20")]];
      Filtered(files, [criterion], parseFloat) == files
  {
    var criterion := map["field" := VStr("size"), "operator" := VStr(">"), "value" := VStr("15")];
    var a: Record := map["size" := VStr("10")];
    var b: Record := map["size" := VStr("20")];
    assert CriterionHolds(a, criterion, parseFloat);
    assert CriterionHolds(b, criterion, parseFloat);
  }

  /** With a number on one side the ordering applies: `{"size": 10}` fails `size > "15"`, `{"size": 20}` passes. */
  lemma {:induction false} NumericOrderingApplies(parseFloat: string -> Option<real>)
    requires parseFloat("15") == Some(15.0)
    ensures var criterion := map["field" := VStr("size"), "operator" := VStr(">"), "value" := VStr("15")];
      var files := map["a" := map["size" := VInt(10)], "b" := map["size" := VInt(20)]];
      Filtered(files, [criterion], parseFloat) == map["b" := map["size" := VInt(20)]]
  {
    var criterion := map["field" := VStr("size"), "operator" := VStr(">"), "value" := VStr("15")];
    var a: Record := map["size" := VInt(10)];
    var b: Record := map["size" := VInt(20)];
    assert !CriterionHolds(a, criterion, parseFloat);
    assert CriterionHolds(b, criterion, parseFloat);
  }

  /** A value that does not convert to a number rejects the record instead of raising. */
  lemma {:induction false} ConversionFailureRejects(metadata: Record, criterion: Record,
                                                   parseFloat: string -> Option<real>)
    requires Truthy(Get(criterion, "field")) && Truthy(Get(criterion, "operator"))
    requires Get(criterion, "field").VStr? && Get(criterion, "field").s in metadata
    requires var fieldValue := metadata[Get(criterion, "field").s];
      !fieldValue.VStr? && Get(criterion, "value").VStr? && parseFloat(Get(criterion, "value").s).None?
    ensures !MatchesCriteria(metadata, [criterion], parseFloat)
  {
    assert !CriterionHolds(metadata, criterion, parseFloat);
  }

  /** `contains`, `starts_with` and `ends_with` ignore case on both sides. */
  lemma {:induction false} StringMatchIgnoresCase(op: Value, f1: string, f2: string, v1: string, v2: string)
    requires op in {VStr("contains"), VStr("starts_with"), VStr("ends_with")}
    requires Lower(f1) == Lower(f2) && Lower(v1) == Lower(v2)
    ensures StringTest(op, f1, v1) == StringTest(op, f2, v2)
  {
  }

  // ---------------------------------------------------------------------
  // BatchProcessor
  // ---------------------------------------------------------------------

  /**
    The bookkeeping of `BatchProcessor`: the queue of paths, the results by
    path and the two counters. The worker threads are not modelled; one
    step of a worker's loop is `ProcessNext`, run as if alone.
  */
  class BatchProcessor {
    var queue: seq<string>
    var results: map<string, Record>
    var processedCount: nat
    var totalCount: nat
    var active: bool
    /** The number of worker threads started and not yet stopped. */
    var workers: nat
    const maxWorkers: nat

    /**
      Every queued path was counted in `totalCount` and not yet in
      `processedCount`, and each result came from a processed path.
    */
    predicate Valid()
      reads this
    {
      processedCount + |queue| <= totalCount && |results.Keys| <= processedCount
    }

    constructor (maxWorkers: nat)
      ensures Valid()
      ensures queue == [] && results == map[] && processedCount == 0 && totalCount == 0
      ensures !active && workers == 0 && this.maxWorkers == maxWorkers
    {
      queue := [];
      results := map[];
      processedCount := 0;
      totalCount := 0;
      active := false;
      workers := 0;
      this.maxWorkers := maxWorkers;
    }

    /** The paths of `paths` that are existing files, in order. */
    static function ExistingFiles(paths: seq<string>, isFile: string -> bool): (r: seq<string>)
      ensures |r| <= |paths|
      decreases |paths|
    {
      if paths == [] then []
      else
        var last := paths[|paths| - 1];
        ExistingFiles(paths[..|paths| - 1], isFile) + (if isFile(last) then [last] else [])
    }

    /** Exactly the given paths that are files are queued. */
    static lemma {:induction false} ExistingFilesAreTheFiles(paths: seq<string>, isFile: string -> bool)
      ensures forall p :: p in ExistingFiles(paths, isFile) <==> p in paths && isFile(p)
      decreases |paths|
    {
      if paths != [] {
        var init, last := paths[..|paths| - 1], paths[|paths| - 1];
        ExistingFilesAreTheFiles(init, isFile);
        assert paths == init + [last];
      }
    }

    static lemma {:induction false} ExistingFilesStep(paths: seq<string>, i: nat, isFile: string -> bool)
      requires i < |paths|
      ensures ExistingFiles(paths[..i + 1], isFile)
        == ExistingFiles(paths[..i], isFile) + (if isFile(paths[i]) then [paths[i]] else [])
    {
      assert paths[..i + 1][..i] == paths[..i];
    }

    /** `add_files`: queues each existing file and counts it. */
    method AddFiles(paths: seq<string>, isFile: string -> bool)
      requires Valid()
      modifies this
      ensures Valid()
      ensures queue == old(queue) + ExistingFiles(paths, isFile)
      ensures totalCount == old(totalCount) + |ExistingFiles(paths, isFile)|
      ensures results == old(results) && processedCount == old(processedCount)
      ensures active == old(active) && workers == old(workers)
    {
      ghost var added: seq<string> := [];
      for i := 0 to |paths|
        invariant added == ExistingFiles(paths[..i], isFile)
        invariant queue == old(queue) + added && totalCount == old(totalCount) + |added|
        invariant results == old(results) && processedCount == old(processedCount)
        invariant active == old(active) && workers == old(workers)
      {
        ExistingFilesStep(paths, i, isFile);
        if isFile(paths[i]) {
          queue := queue + [paths[i]];
          totalCount := totalCount + 1;
          added := added + [paths[i]];
        }
      }
      assert paths[..|paths|] == paths;
    }

    /**
      `start`: nothing when already active; otherwise activates, resets the
      progress and the results, and starts `min(max_workers, total_count)`
      workers.
    */
    method Start()
      requires Valid()
      modifies this
      ensures Valid()
      ensures old(active) ==>
        queue == old(queue) && results == old(results) && processedCount == old(processedCount)
        && totalCount == old(totalCount) && active && workers == old(workers)
      ensures !old(active) ==>
        active && processedCount == 0 && results == map[] && queue == old(queue) && totalCount == old(totalCount)
        && workers == old(workers) + (if maxWorkers < totalCount then maxWorkers else totalCount)
    {
      if active {
        return;
      }
      active := true;
      processedCount := 0;
      results := map[];
      workers := workers + (if maxWorkers < totalCount then maxWorkers else totalCount);
    }

    /**
      One pass of a worker's loop that takes a path from the queue: `outcome`
      is the extracted record, or `None` when extraction raised. A record is
      stored under its path and counted, and the run ends once every counted
      path is processed. When extraction raises, Python evaluates the handler
      `except Queue.Empty` first; `Queue` is the class imported from `queue`
      and has no attribute `Empty`, so that evaluation raises AttributeError
      and the `except Exception` branch never runs: the path is gone from the
      queue, nothing is counted, and the worker's thread ends.
    */
    method ProcessNext(outcome: Option<Record>) returns (path: string)
      requires Valid() && active && queue != [] && workers >= 1
      modifies this
      ensures Valid()
      ensures path == old(queue)[0] && queue == old(queue)[1..] && totalCount == old(totalCount)
      ensures outcome.Some? ==>
        && results == old(results)[path := outcome.value]
        && processedCount == old(processedCount) + 1
        && active == (processedCount < totalCount)
        && workers == old(workers)
      ensures outcome.None? ==>
        && results == old(results) && processedCount == old(processedCount)
        && active && workers == old(workers) - 1
    {
      path := queue[0];
      queue := queue[1..];
      match outcome {
        case Some(metadata) =>
          results := results[path := metadata];
          processedCount := processedCount + 1;
          if processedCount >= totalCount {
            active := false;
          }
        case None =>
          workers := workers - 1;
      }
    }

    /**
      A worker whose `queue.get(timeout=0.5)` finds the queue empty: the
      `queue.Empty` it raises meets the same failing `except Queue.Empty`
      handler, so the worker's thread ends and nothing else changes.
    */
    method TimeOut()
      requires Valid() && active && queue == [] && workers >= 1
      modifies this
      ensures Valid()
      ensures workers == old(workers) - 1 && active
      ensures queue == old(queue) && results == old(results)
      ensures processedCount == old(processedCount) && totalCount == old(totalCount)
    {
      workers := workers - 1;
    }

    /** A worker that finds the run inactive at the head of its loop returns. */
    method WorkerExits()
      requires Valid() && !active && workers >= 1
      modifies this
      ensures Valid()
      ensures workers == old(workers) - 1 && !active
      ensures queue == old(queue) && results == old(results)
      ensures processedCount == old(processedCount) && totalCount == old(totalCount)
    {
      workers := workers - 1;
    }

    /** `stop`: deactivates and forgets the workers (the joins are not modelled). */
    method Stop()
      modifies this
      ensures !active && workers == 0
      ensures queue == old(queue) && results == old(results)
      ensures processedCount == old(processedCount) && totalCount == old(totalCount)
    {
      active := false;
      workers := 0;
    }

    /** `get_results`: the results so far, at most one per processed path. */
    function GetResults(): (r: map<string, Record>)
      requires Valid()
      reads this
      ensures |r.Keys| <= processedCount
    {
      results
    }

    /** `clear`: stops, then empties the queue and the results and zeroes both counts. */
    method Clear()
      modifies this
      ensures Valid()
      ensures !active && workers == 0
      ensures queue == [] && results == map[] && processedCount == 0 && totalCount == 0
    {
      Stop();
      queue := [];
      results := map[];
      processedCount := 0;
      totalCount := 0;
    }
  }

  /**
    `start` resets `processed_count` but not `total_count`, so a second
    batch after a finished one is compared against the running total: with
    one file in each batch, the second batch processes its file, empties the
    queue, and its run stays active after every worker has timed out.
  */
  method SecondBatchNeverFinishes(first: string, second: string, record: Record)
    returns (stillActive: bool, pending: nat, live: nat)
    ensures stillActive && pending == 0 && live == 0
  {
    var batch := new BatchProcessor(4);
    batch.AddFiles([first], _ => true);
    assert BatchProcessor.ExistingFiles([first], _ => true) == [first];
    batch.Start();
    var _ := batch.ProcessNext(Some(record));
    assert !batch.active;
    batch.WorkerExits();
    batch.AddFiles([second], _ => true);
    assert BatchProcessor.ExistingFiles([second], _ => true) == [second];
    batch.Start();
    assert batch.totalCount == 2 && batch.workers == 2;
    var _ := batch.ProcessNext(Some(record));
    batch.TimeOut();
    batch.TimeOut();
    stillActive, pending, live := batch.active, |batch.queue|, batch.workers;
  }
}
