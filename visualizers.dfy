/**
  visualizers.py: the data the charts are drawn from. The collection of
  extracted records is an insertion-ordered dictionary from path to record;
  here it is a sequence of entries in that order, each record carrying the
  order of its own keys. The drawing itself (matplotlib, Tk) is not modelled.
*/
module Visualizers {
  import opened Wrappers
  import opened PyValues
  import FileProcessors

  /** One item of the records dictionary: its path, its record, and the record's key order. */
  datatype Entry = Entry(path: string, keys: seq<string>, fields: Record)

  predicate Distinct<T(==)>(s: seq<T>) {
    forall i, j :: 0 <= i < j < |s| ==> s[i] != s[j]
  }

  /** A record's key order lists each of its keys once. */
  ghost predicate WellFormed(e: Entry) {
    Distinct(e.keys) && forall k :: k in e.fields <==> k in e.keys
  }

  function Min(a: int, b: int): int {
    if a < b then a else b
  }

  // ---------------------------------------------------------------------
  // Counting with a dictionary: `d[x] = d.get(x, 0) + 1` over a sequence
  // ---------------------------------------------------------------------

  /** The number of times `y` occurs in `xs`. */
  function Occ<T(==)>(xs: seq<T>, y: T): nat {
    if xs == [] then 0 else Occ(xs[..|xs| - 1], y) + (if xs[|xs| - 1] == y then 1 else 0)
  }

  /** `d.get(y, 0)`. */
  function Rank<T(==)>(d: map<T, nat>, y: T): nat {
    if y in d then d[y] else 0
  }

  /**
    The counter dictionary after counting `xs` in order: its keys in
    insertion order, and the counts.
  */
  function Tally<T(==)>(xs: seq<T>): (seq<T>, map<T, nat>) {
    if xs == [] then ([], map[])
    else
      var (order, counts) := Tally(xs[..|xs| - 1]);
      var x := xs[|xs| - 1];
      if x in counts then (order, counts[x := counts[x] + 1])
      else (order + [x], counts[x := 1])
  }

  /** The position of the first occurrence of `y`. */
  function FirstIndex<T(==)>(xs: seq<T>, y: T): (r: nat)
    requires y in xs
    ensures r < |xs| && xs[r] == y && y !in xs[..r]
  {
    var init := xs[..|xs| - 1];
    if y in init then
      var r := FirstIndex(init, y);
      assert xs[..r] == init[..r];
      r
    else
      assert xs == init + [y];
      |xs| - 1
  }

  lemma SnocInit<T>(xs: seq<T>, x: T)
    ensures (xs + [x])[..|xs|] == xs && (xs + [x])[|xs|] == x
  {
  }

  /**
    The counter holds exactly the values that occur, each with its number
    of occurrences (so at least one).
  */
  lemma {:induction false} TallyCounts<T>(xs: seq<T>, y: T)
    ensures (y in Tally(xs).1 <==> y in xs) && Rank(Tally(xs).1, y) == Occ(xs, y)
  {
    if xs != [] {
      var init, x := xs[..|xs| - 1], xs[|xs| - 1];
      TallyCounts(init, y);
      TallyCounts(init, x);
      assert xs == init + [x];
    }
  }

  /**
    The insertion order lists every counted value once, in the order of
    first occurrence.
  */
  lemma {:induction false} TallyOrder<T>(xs: seq<T>)
    ensures var (order, counts) := Tally(xs);
      && Distinct(order)
      && (forall y :: y in order <==> y in counts)
      && forall i, j :: 0 <= i < j < |order| ==> order[i] in xs && order[j] in xs && FirstIndex(xs, order[i]) < FirstIndex(xs, order[j])
  {
    if xs != [] {
      var init, x := xs[..|xs| - 1], xs[|xs| - 1];
      TallyOrder(init);
      assert xs == init + [x];
      var (order, counts) := Tally(init);
      var order' := Tally(xs).0;
      forall y | y in order ensures y in init && y in xs && FirstIndex(xs, y) == FirstIndex(init, y) {
        TallyCounts(init, y);
        FirstIndexOfExtension(init, x, y);
      }
      if x !in counts {
        TallyCounts(init, x);
        forall i, j | 0 <= i < j < |order'|
          ensures order'[i] in xs && order'[j] in xs && FirstIndex(xs, order'[i]) < FirstIndex(xs, order'[j])
        {
          if j == |order| {
            assert order'[i] == order[i];
            assert FirstIndex(xs, x) == |init|;
          }
        }
      }
    }
  }

  lemma {:induction false} FirstIndexOfExtension<T>(init: seq<T>, x: T, y: T)
    requires y in init
    ensures y in init + [x] && FirstIndex(init + [x], y) == FirstIndex(init, y)
  {
    SnocInit(init, x);
  }

  /** The sum of the counts of `keys`. */
  function SumOver<T(==)>(keys: seq<T>, d: map<T, nat>): nat {
    if keys == [] then 0 else SumOver(keys[..|keys| - 1], d) + Rank(d, keys[|keys| - 1])
  }

  /** The counts add up to the number of values counted. */
  lemma {:induction false} TallySum<T>(xs: seq<T>)
    ensures SumOver(Tally(xs).0, Tally(xs).1) == |xs|
  {
    if xs != [] {
      var init, x := xs[..|xs| - 1], xs[|xs| - 1];
      TallySum(init);
      TallyKeys(init);
      var (order, counts) := Tally(init);
      if x in counts {
        assert Tally(xs) == (order, counts[x := Rank(counts, x) + 1]);
        SumOverBump(order, counts, x);
      } else {
        assert Tally(xs) == (order + [x], counts[x := 1]);
        SumOverUnaffected(order, counts, x, 1);
        SnocInit(order, x);
        assert SumOver(order + [x], counts[x := 1]) == SumOver(order, counts[x := 1]) + 1;
      }
    }
  }

  /** The counter's key order lists each counted key once. */
  lemma {:induction false} TallyKeys<T>(xs: seq<T>)
    ensures Distinct(Tally(xs).0) && forall y :: y in Tally(xs).0 <==> y in Tally(xs).1
  {
    TallyOrder(xs);
  }

  /** Raising one listed key's count by one raises the sum by one. */
  lemma {:induction false} SumOverBump<T>(keys: seq<T>, d: map<T, nat>, x: T)
    requires Distinct(keys) && x in keys
    ensures SumOver(keys, d[x := Rank(d, x) + 1]) == SumOver(keys, d) + 1
  {
    var init, last := keys[..|keys| - 1], keys[|keys| - 1];
    assert Distinct(init);
    if last == x {
      assert x !in init;
      SumOverUnaffected(init, d, x, Rank(d, x) + 1);
    } else {
      SumOverBump(init, d, x);
    }
  }

  /** Setting the count of an unlisted key leaves the sum alone. */
  lemma {:induction false} SumOverUnaffected<T>(keys: seq<T>, d: map<T, nat>, x: T, v: nat)
    requires x !in keys
    ensures SumOver(keys, d[x := v]) == SumOver(keys, d)
  {
    if keys != [] {
      SumOverUnaffected(keys[..|keys| - 1], d, x, v);
    }
  }

  // ---------------------------------------------------------------------
  // show_file_type_distribution
  // ---------------------------------------------------------------------

  /** `metadata.get('File Type Category', 'Unknown')`. */
  function CategoryOf(fields: Record): Value {
    if "File Type Category" in fields then fields["File Type Category"] else VStr("Unknown")
  }

  function Categories(entries: seq<Entry>): (r: seq<Value>)
    ensures |r| == |entries| && forall i :: 0 <= i < |entries| ==> r[i] == CategoryOf(entries[i].fields)
  {
    seq(|entries|, i requires 0 <= i < |entries| => CategoryOf(entries[i].fields))
  }

  /**
    The pie chart's labels and values: one slice per category, in order of
    first appearance.
  */
  method CategoryCounts(entries: seq<Entry>) returns (labels: seq<Value>, counts: map<Value, nat>)
    ensures (labels, counts) == Tally(Categories(entries))
  {
    var cats := Categories(entries);
    labels, counts := [], map[];
    for i := 0 to |entries|
      invariant (labels, counts) == Tally(cats[..i])
    {
      var c := CategoryOf(entries[i].fields);
      SnocInit(cats[..i], c);
      assert cats[..i + 1] == cats[..i] + [c];
      if c in counts {
        counts := counts[c := counts[c] + 1];
      } else {
        labels := labels + [c];
        counts := counts[c := 1];
      }
    }
    assert cats[..|entries|] == cats;
  }

  /**
    Every slice counts the records of its category and is positive, the
    slices add up to the number of records, and there are no slices (so
    no chart) exactly when there are no records.
  */
  lemma {:induction false} CategoryCountsPartitionRecords(entries: seq<Entry>, c: Value)
    ensures var (labels, counts) := Tally(Categories(entries));
      && (c in counts ==> counts[c] == Occ(Categories(entries), c) && counts[c] >= 1)
      && SumOver(labels, counts) == |entries|
      && (labels == [] <==> entries == [])
  {
    var cats := Categories(entries);
    TallyCounts(cats, c);
    TallySum(cats);
    TallyOrder(cats);
    if c in Tally(cats).1 {
      OccPositive(cats, c);
    }
    if entries != [] {
      TallyCounts(cats, cats[0]);
    }
  }

  lemma {:induction false} OccPositive<T>(xs: seq<T>, y: T)
    ensures Occ(xs, y) >= 1 <==> y in xs
  {
    if xs != [] {
      OccPositive(xs[..|xs| - 1], y);
      assert xs == xs[..|xs| - 1] + [xs[|xs| - 1]];
    }
  }

  // ---------------------------------------------------------------------
  // show_file_size_comparison
  // ---------------------------------------------------------------------

  const MaxBars: nat := 10

  /** `metadata.get('File Size', 0)`. */
  function SizeOf(fields: Record): Value {
    if "File Size" in fields then fields["File Size"] else VInt(0)
  }

  /** The base names of the records, in order. */
  function FileNames(entries: seq<Entry>): (r: seq<string>)
    ensures |r| == |entries|
  {
    if entries == [] then [] else FileNames(entries[..|entries| - 1]) + [FileProcessors.BaseName(entries[|entries| - 1].path)]
  }

  lemma {:induction false} FileNamesAt(entries: seq<Entry>, k: nat)
    requires k < |entries|
    ensures FileNames(entries)[k] == FileProcessors.BaseName(entries[k].path)
  {
    if k < |entries| - 1 {
      FileNamesAt(entries[..|entries| - 1], k);
    }
  }

  /** The file sizes of the records, in order. */
  function FileSizes(entries: seq<Entry>): (r: seq<Value>)
    ensures |r| == |entries|
  {
    if entries == [] then [] else FileSizes(entries[..|entries| - 1]) + [SizeOf(entries[|entries| - 1].fields)]
  }

  /**
    The bars: the base names and sizes of the first ten records; every
    later record is visited and skipped.
  */
  method SizeBars(entries: seq<Entry>) returns (names: seq<string>, sizes: seq<Value>)
    ensures names == FileNames(entries[..Min(|entries|, MaxBars)])
    ensures sizes == FileSizes(entries[..Min(|entries|, MaxBars)])
  {
    names, sizes := [], [];
    for i := 0 to |entries|
      invariant |names| == Min(i, MaxBars)
      invariant names == FileNames(entries[..|names|]) && sizes == FileSizes(entries[..|names|])
    {
      var name := FileProcessors.BaseName(entries[i].path);
      var size := SizeOf(entries[i].fields);
      if |names| < MaxBars {
        BarsStep(entries, i);
        names := names + [name];
        sizes := sizes + [size];
      }
    }
  }

  lemma BarsStep(entries: seq<Entry>, i: nat)
    requires i < |entries|
    ensures FileNames(entries[..i + 1]) == FileNames(entries[..i]) + [FileProcessors.BaseName(entries[i].path)]
    ensures FileSizes(entries[..i + 1]) == FileSizes(entries[..i]) + [SizeOf(entries[i].fields)]
  {
    assert entries[..i + 1][..i] == entries[..i];
  }

  /**
    Bar `k` is labelled with the base name of record `k` and has its size
    (0 when the record has none); at most ten bars are drawn, and none (so
    no chart) exactly when there are no records.
  */
  lemma {:induction false} SizeBarsShowFirstTen(entries: seq<Entry>, k: nat)
    ensures |FileNames(entries[..Min(|entries|, MaxBars)])| <= MaxBars
    ensures FileNames(entries[..Min(|entries|, MaxBars)]) == [] <==> entries == []
    ensures k < Min(|entries|, MaxBars) ==>
      && FileNames(entries[..Min(|entries|, MaxBars)])[k] == FileProcessors.BaseName(entries[k].path)
      && FileSizes(entries[..Min(|entries|, MaxBars)])[k] == SizeOf(entries[k].fields)
  {
    if k < Min(|entries|, MaxBars) {
      FileNamesAt(entries[..Min(|entries|, MaxBars)], k);
      FileSizesAt(entries[..Min(|entries|, MaxBars)], k);
    }
  }

  lemma {:induction false} FileSizesAt(entries: seq<Entry>, k: nat)
    requires k < |entries|
    ensures FileSizes(entries)[k] == SizeOf(entries[k].fields)
  {
    if k < |entries| - 1 {
      FileSizesAt(entries[..|entries| - 1], k);
    }
  }

  // ---------------------------------------------------------------------
  // show_metadata_heatmap
  // ---------------------------------------------------------------------

  const MaxRows: nat := 8
  const MaxColumns: nat := 10

  /** Every key of every record, record by record, each record in its own key order. */
  function AllKeys(entries: seq<Entry>): seq<string> {
    if entries == [] then [] else AllKeys(entries[..|entries| - 1]) + entries[|entries| - 1].keys
  }

  /** The number of records that have `k`. */
  function RecordsWith(entries: seq<Entry>, k: string): nat {
    if entries == [] then 0
    else RecordsWith(entries[..|entries| - 1], k) + (if k in entries[|entries| - 1].fields then 1 else 0)
  }

  /** `key_count`: the nested loop over records and their keys. */
  method KeyCounts(entries: seq<Entry>) returns (order: seq<string>, counts: map<string, nat>)
    ensures (order, counts) == Tally(AllKeys(entries))
  {
    order, counts := [], map[];
    for i := 0 to |entries|
      invariant (order, counts) == Tally(AllKeys(entries[..i]))
    {
      var keys := entries[i].keys;
      assert entries[..i + 1][..i] == entries[..i];
      assert AllKeys(entries[..i]) + keys[..0] == AllKeys(entries[..i]);
      for j := 0 to |keys|
        invariant (order, counts) == Tally(AllKeys(entries[..i]) + keys[..j])
      {
        var k := keys[j];
        SnocInit(AllKeys(entries[..i]) + keys[..j], k);
        assert AllKeys(entries[..i]) + keys[..j + 1] == AllKeys(entries[..i]) + keys[..j] + [k];
        if k in counts {
          counts := counts[k := counts[k] + 1];
        } else {
          order := order + [k];
          counts := counts[k := 1];
        }
      }
      assert keys[..|keys|] == keys;
    }
    assert entries[..|entries|] == entries;
  }

  /** `key_count[k]` is the number of records that have `k`, so at most the number of records. */
  lemma {:induction false} KeyCountIsRecordsWith(entries: seq<Entry>, k: string)
    requires forall i :: 0 <= i < |entries| ==> WellFormed(entries[i])
    ensures Rank(Tally(AllKeys(entries)).1, k) == RecordsWith(entries, k) <= |entries|
  {
    TallyCounts(AllKeys(entries), k);
    OccAllKeys(entries, k);
  }

  lemma {:induction false} OccAllKeys(entries: seq<Entry>, k: string)
    requires forall i :: 0 <= i < |entries| ==> WellFormed(entries[i])
    ensures Occ(AllKeys(entries), k) == RecordsWith(entries, k) <= |entries|
  {
    if entries != [] {
      var init, e := entries[..|entries| - 1], entries[|entries| - 1];
      OccAllKeys(init, k);
      OccConcat(AllKeys(init), e.keys, k);
      OccDistinct(e.keys, k);
    }
  }

  lemma {:induction false} OccConcat<T>(a: seq<T>, b: seq<T>, y: T)
    ensures Occ(a + b, y) == Occ(a, y) + Occ(b, y)
  {
    if b != [] {
      var init := b[..|b| - 1];
      OccConcat(a, init, y);
      assert (a + b)[..|a + b| - 1] == a + init;
      assert (a + b)[|a + b| - 1] == b[|b| - 1];
      assert Occ(a + b, y) == Occ(a + init, y) + (if b[|b| - 1] == y then 1 else 0);
    } else {
      assert a + b == a;
    }
  }

  /** A value occurs at most once in a sequence without repeats. */
  lemma {:induction false} OccDistinct<T>(s: seq<T>, y: T)
    requires Distinct(s)
    ensures Occ(s, y) == if y in s then 1 else 0
  {
    if s != [] {
      var init := s[..|s| - 1];
      assert Distinct(init);
      OccDistinct(init, y);
      assert s == init + [s[|s| - 1]];
    }
  }

  /**
    `sorted(key_count.items(), key=count, reverse=True)`: the keys by
    non-increasing count, equal counts in their original order (Python's
    sort is stable, also in reverse). Written as an insertion sort.
  */
  function SortByCount<T(==)>(keys: seq<T>, d: map<T, nat>): seq<T> {
    if keys == [] then [] else InsertByCount(SortByCount(keys[..|keys| - 1], d), keys[|keys| - 1], d)
  }

  /** Insert `x` after every key whose count is at least its own. */
  function InsertByCount<T(==)>(sorted: seq<T>, x: T, d: map<T, nat>): (r: seq<T>)
    ensures |r| == |sorted| + 1
  {
    if sorted == [] || Rank(d, sorted[|sorted| - 1]) >= Rank(d, x) then sorted + [x]
    else InsertByCount(sorted[..|sorted| - 1], x, d) + [sorted[|sorted| - 1]]
  }

  predicate NonIncreasing<T(==)>(s: seq<T>, d: map<T, nat>) {
    forall i, j :: 0 <= i < j < |s| ==> Rank(d, s[i]) >= Rank(d, s[j])
  }

  /** The keys whose count is `v`, in their order. */
  function WithCount<T(==)>(s: seq<T>, d: map<T, nat>, v: nat): seq<T> {
    if s == [] then []
    else WithCount(s[..|s| - 1], d, v) + (if Rank(d, s[|s| - 1]) == v then [s[|s| - 1]] else [])
  }

  lemma {:induction false} InsertKeepsOrder<T>(sorted: seq<T>, x: T, d: map<T, nat>)
    requires NonIncreasing(sorted, d)
    ensures NonIncreasing(InsertByCount(sorted, x, d), d)
    ensures forall v :: WithCount(InsertByCount(sorted, x, d), d, v) == WithCount(sorted, d, v) + (if Rank(d, x) == v then [x] else [])
  {
    var r := InsertByCount(sorted, x, d);
    if sorted == [] || Rank(d, sorted[|sorted| - 1]) >= Rank(d, x) {
      forall v ensures WithCount(r, d, v) == WithCount(sorted, d, v) + (if Rank(d, x) == v then [x] else []) {
        SnocInit(sorted, x);
      }
    } else {
      var init, last := sorted[..|sorted| - 1], sorted[|sorted| - 1];
      assert NonIncreasing(init, d);
      InsertKeepsOrder(init, x, d);
      var r0 := InsertByCount(init, x, d);
      SnocInit(r0, last);
      forall i, j | 0 <= i < j < |r| ensures Rank(d, r[i]) >= Rank(d, r[j]) {
        if j == |r| - 1 {
          InsertedElements(init, x, d, i);
        }
      }
      forall v ensures WithCount(r, d, v) == WithCount(sorted, d, v) + (if Rank(d, x) == v then [x] else []) {
        SnocInit(init, last);
      }
    }
  }

  /** Every element of an insertion comes from the list or is the inserted key. */
  lemma {:induction false} InsertedElements<T>(sorted: seq<T>, x: T, d: map<T, nat>, i: nat)
    requires i < |sorted| + 1
    ensures InsertByCount(sorted, x, d)[i] == x || InsertByCount(sorted, x, d)[i] in sorted
  {
    if !(sorted == [] || Rank(d, sorted[|sorted| - 1]) >= Rank(d, x)) {
      var init := sorted[..|sorted| - 1];
      if i < |sorted| {
        InsertedElements(init, x, d, i);
      }
    }
  }

  /**
    The sort orders keys by non-increasing count, and among keys of equal
    count keeps exactly the original keys in their original order: it is a
    stable permutation.
  */
  lemma {:induction false} SortByCountIsStable<T>(keys: seq<T>, d: map<T, nat>)
    ensures NonIncreasing(SortByCount(keys, d), d)
    ensures forall v :: WithCount(SortByCount(keys, d), d, v) == WithCount(keys, d, v)
    ensures |SortByCount(keys, d)| == |keys|
  {
    if keys != [] {
      var init, x := keys[..|keys| - 1], keys[|keys| - 1];
      SortByCountIsStable(init, d);
      InsertKeepsOrder(SortByCount(init, d), x, d);
    }
  }

  /** `top_keys`: the ten most frequent keys. */
  function TopKeys(order: seq<string>, counts: map<string, nat>): (r: seq<string>)
    ensures |r| <= MaxColumns
  {
    var sorted := SortByCount(order, counts);
    sorted[..Min(|sorted|, MaxColumns)]
  }

  /**
    No key left out of the top ten is more frequent than one shown, and
    the shown keys run from most to least frequent.
  */
  lemma {:induction false} TopKeysAreMostFrequent(order: seq<string>, counts: map<string, nat>, i: nat, j: nat)
    requires i < |TopKeys(order, counts)| <= j < |SortByCount(order, counts)|
    ensures Rank(counts, TopKeys(order, counts)[i]) >= Rank(counts, SortByCount(order, counts)[j])
    ensures NonIncreasing(TopKeys(order, counts), counts)
  {
    SortByCountIsStable(order, counts);
  }

  /** The heat-map cell: 1 exactly when the record has the key and its value is not "Not Available". */
  function Cell(fields: Record, key: string): (r: int)
    ensures r == 1 <==> key in fields && !PyEq(fields[key], VStr("Not Available"))
    ensures r == 0 || r == 1
  {
    if key in fields && !PyEq(fields[key], VStr("Not Available")) then 1 else 0
  }

  /** Fill the `rows` by `|top|` matrix, as the nested loop over records and keys does. */
  method FillMatrix(entries: seq<Entry>, rows: nat, top: seq<string>) returns (data: array2<int>)
    requires rows <= |entries|
    ensures fresh(data) && data.Length0 == rows && data.Length1 == |top|
    ensures forall i, j :: 0 <= i < rows && 0 <= j < |top| ==> data[i, j] == Cell(entries[i].fields, top[j])
  {
    data := new int[rows, |top|]((i, j) => 0);
    for i := 0 to rows
      invariant forall i', j :: 0 <= i' < i && 0 <= j < |top| ==> data[i', j] == Cell(entries[i'].fields, top[j])
    {
      var metadata := entries[i].fields;
      for j := 0 to |top|
        invariant forall i', j' :: 0 <= i' < i && 0 <= j' < |top| ==> data[i', j'] == Cell(entries[i'].fields, top[j'])
        invariant forall j' :: 0 <= j' < j ==> data[i, j'] == Cell(metadata, top[j'])
      {
        data[i, j] := if top[j] in metadata && !PyEq(metadata[top[j]], VStr("Not Available")) then 1 else 0;
      }
    }
  }

  /**
    The heat map's data: at most eight rows and ten columns, the columns the
    most frequent keys; nothing is drawn when either is empty.
  */
  method HeatmapData(entries: seq<Entry>) returns (names: seq<string>, top: seq<string>, data: Option<array2<int>>)
    ensures names == FileNames(entries[..Min(|entries|, MaxRows)])
    ensures var (order, counts) := Tally(AllKeys(entries)); top == TopKeys(order, counts)
    ensures data.None? <==> names == [] || top == []
    ensures data.Some? ==> fresh(data.value) && data.value.Length0 == |names| && data.value.Length1 == |top|
    ensures data.Some? ==> forall i, j :: 0 <= i < |names| && 0 <= j < |top| ==> data.value[i, j] == Cell(entries[i].fields, top[j])
  {
    names := AllFileNames(entries);
    var order, counts := KeyCounts(entries);
    var sorted := SortByCount(order, counts);
    top := sorted[..Min(|sorted|, MaxColumns)];
    if |names| > MaxRows {
      FileNamesPrefix(entries, MaxRows);
      names := names[..MaxRows];
    } else {
      assert entries[..|entries|] == entries;
    }
    if names == [] || top == [] {
      return names, top, None;
    }
    var matrix := FillMatrix(entries, |names|, top);
    data := Some(matrix);
  }

  /** The first loop of the heat map: every record's base name. */
  method AllFileNames(entries: seq<Entry>) returns (names: seq<string>)
    ensures names == FileNames(entries)
  {
    names := [];
    for i := 0 to |entries|
      invariant names == FileNames(entries[..i])
    {
      BarsStep(entries, i);
      names := names + [FileProcessors.BaseName(entries[i].path)];
    }
    assert entries[..|entries|] == entries;
  }

  lemma {:induction false} FileNamesPrefix(entries: seq<Entry>, m: nat)
    requires m <= |entries|
    ensures FileNames(entries[..m]) == FileNames(entries)[..m]
    decreases |entries|
  {
    if m < |entries| {
      var init := entries[..|entries| - 1];
      FileNamesPrefix(init, m);
      assert init[..m] == entries[..m];
    } else {
      assert entries[..m] == entries;
    }
  }

  /** With records that have keys, the heat map is drawn. */
  lemma {:induction false} HeatmapDrawnWithKeys(entries: seq<Entry>)
    requires forall i :: 0 <= i < |entries| ==> WellFormed(entries[i])
    requires exists i :: 0 <= i < |entries| && entries[i].fields != map[]
    ensures FileNames(entries[..Min(|entries|, MaxRows)]) != [] && TopKeys(Tally(AllKeys(entries)).0, Tally(AllKeys(entries)).1) != []
  {
    var i :| 0 <= i < |entries| && entries[i].fields != map[];
    var k :| k in entries[i].fields;
    RecordsWithPositive(entries, k, i);
    KeyCountIsRecordsWith(entries, k);
    TallyOrder(AllKeys(entries));
    TallyCounts(AllKeys(entries), k);
    SortByCountIsStable(Tally(AllKeys(entries)).0, Tally(AllKeys(entries)).1);
  }

  lemma {:induction false} RecordsWithPositive(entries: seq<Entry>, k: string, i: nat)
    requires i < |entries| && k in entries[i].fields
    ensures RecordsWith(entries, k) >= 1
  {
    if i < |entries| - 1 {
      RecordsWithPositive(entries[..|entries| - 1], k, i);
    }
  }

  // ---------------------------------------------------------------------
  // ComparisonVisualizer._create_summary_view
  // ---------------------------------------------------------------------

  /**
    `len(diff) + len(sim) + len(only_file1) + len(only_file2)`; an error
    result (`None`) has none of the four sections, which count as empty.
  */
  function TotalFields(c: Option<FileProcessors.Comparison>): nat {
    match c
    case None => 0
    case Some(c) => |c.differences| + |c.similarities| + |c.onlyInFile1| + |c.onlyInFile2|
  }

  /** The "Overall similarity" line, shown only when some field was examined. */
  function SimilarityPercent(c: Option<FileProcessors.Comparison>): (r: Option<real>)
    ensures r.Some? <==> TotalFields(c) > 0
    ensures r.Some? ==> 0.0 <= r.value <= 100.0
  {
    if TotalFields(c) > 0 then
      var sim := |c.value.similarities| as real;
      var total := TotalFields(c) as real;
      assert sim <= total;
      DivisionAtMostOne(sim, total);
      Some(sim / total * 100.0)
    else None
  }

  lemma DivisionAtMostOne(a: real, b: real)
    requires 0.0 <= a <= b && b > 0.0
    ensures 0.0 <= a / b <= 1.0
  {
  }

  /**
    For the comparison of two records, the fields examined are exactly the
    keys of either record, each counted once; the similarity is 100% exactly
    when every such key is in both records with equal values.
  */
  lemma {:induction false} TotalFieldsCountsEveryKey(m1: Record, m2: Record, path1: string, path2: string)
    ensures TotalFields(Some(FileProcessors.Compared(m1, m2, path1, path2))) == |m1.Keys + m2.Keys|
  {
    var c := FileProcessors.Compared(m1, m2, path1, path2);
    FileProcessors.ComparePartitionsKeys(m1, m2, path1, path2);
    DisjointUnionSize(c.differences.Keys, c.similarities.Keys, c.onlyInFile1.Keys, c.onlyInFile2.Keys);
  }

  lemma DisjointUnionSize(a: set<string>, b: set<string>, c: set<string>, d: set<string>)
    requires a !! b && a !! c && a !! d && b !! c && b !! d && c !! d
    ensures |a + b + c + d| == |a| + |b| + |c| + |d|
  {
    assert (a + b) !! c;
    assert (a + b + c) !! d;
  }
}
