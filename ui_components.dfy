/**
  ui_components.py: what the metadata panel shows (one line per field, in
  key order), its search box, and the file-type filter of the upload
  dialog. The Tk widgets are not modelled: the panel's text is the
  sequence of lines inserted into it.
*/
module UiComponents {
  import opened Wrappers
  import opened PyStrings
  import opened PyValues
  import FileUtils

  const NoMetadata: string := "No metadata available."
  const GpsKey: string := "GPS Coordinates"
  const MapsPrefix: string := "https://www.google.com/maps?q="

  /** `c in s` exactly when `s` holds at least one `c`. */
  lemma {:induction false} CountCharIn(s: string, c: char)
    ensures c in s <==> CountChar(s, c) > 0
  {
    if s != [] {
      CountCharIn(s[1..], c);
      assert s == [s[0]] + s[1..];
    }
  }

  lemma CommaInValue(v: Value)
    ensures v.VStr? ==> (',' in v.s <==> CountChar(v.s, ',') > 0)
  {
    if v.VStr? {
      CountCharIn(v.s, ',');
    }
  }

  // ---------------------------------------------------------------------
  // MetadataDisplayPanel._update_display
  // ---------------------------------------------------------------------

  /**
    The line for a GPS string with a comma: a maps link from its two
    stripped halves, or `None` where the halves do not unpack into two.
  */
  function GpsLine(key: string, s: string): (r: Option<string>)
    requires ',' in s
    ensures r.None? <==> CountChar(s, ',') >= 2
    ensures r.Some? ==> StartsWith(r.value, key + ": ")
  {
    var parts := Split(s, ',');
    CountCharIn(s, ',');
    if |parts| == 2 then
      var head := key + ": ";
      var link := MapsUrl(Strip(parts[0]), Strip(parts[1])) + "\n";
      assert (head + link)[..|head|] == head;
      Some(head + link)
    else None
  }

  /** The maps address for a latitude and a longitude. */
  function MapsUrl(lat: string, lon: string): string {
    MapsPrefix + lat + "," + lon
  }

  /**
    The line for one field: `key: value`, except for a GPS string with a
    comma. `None` where the source raises: a GPS string with two or more
    commas does not unpack into two halves.
  */
  function EntryLine(key: string, value: Value, floatText: real -> string): (r: Option<string>)
    ensures r.None? <==> key == GpsKey && value.VStr? && CountChar(value.s, ',') >= 2
    ensures r.Some? ==> StartsWith(r.value, key + ": ")
  {
    CommaInValue(value);
    if key == GpsKey && value.VStr? && value.s != "" && ',' in value.s then
      GpsLine(key, value.s)
    else
      var head := key + ": ";
      var text := Str(value, floatText) + "\n";
      assert (head + text)[..|head|] == head;
      Some(head + text)
  }

  /** The panel's lines, and whether rendering stopped by raising. */
  datatype Rendering = Rendering(lines: seq<string>, raised: bool)

  /** The candidate line of each key in turn. */
  function EntryLines(m: Record, keys: seq<string>, floatText: real -> string): (r: seq<Option<string>>)
    requires forall k :: k in keys ==> k in m
    ensures |r| == |keys|
  {
    seq(|keys|, i requires 0 <= i < |keys| => EntryLine(keys[i], m[keys[i]], floatText))
  }

  /** Insert the lines in turn, stopping at the first that raises. */
  function Collect(lines: seq<Option<string>>): Rendering {
    if lines == [] then Rendering([], false)
    else
      var r := Collect(lines[..|lines| - 1]);
      if r.raised then r
      else match lines[|lines| - 1]
        case None => Rendering(r.lines, true)
        case Some(line) => Rendering(r.lines + [line], false)
  }

  /** `_update_display(metadata)`; `None` stands for a value that is not a dictionary. */
  function Rendered(metadata: Option<Record>, floatText: real -> string): Rendering {
    match metadata
    case None => Rendering([NoMetadata], false)
    case Some(m) => Collect(EntryLines(m, SortedKeys(m.Keys), floatText))
  }

  /**
    Without a raise, every line is inserted in order; a raise happens
    exactly when some line raises.
  */
  lemma {:induction false} CollectAll(lines: seq<Option<string>>)
    ensures var r := Collect(lines);
      && (r.raised <==> exists i :: 0 <= i < |lines| && lines[i].None?)
      && (!r.raised ==> |r.lines| == |lines| && forall i :: 0 <= i < |lines| ==> lines[i] == Some(r.lines[i]))
  {
    if lines != [] {
      var init := lines[..|lines| - 1];
      CollectAll(init);
      if Collect(init).raised {
        var i :| 0 <= i < |init| && init[i].None?;
        assert lines[i] == init[i];
      }
    }
  }

  /**
    The panel shows one line per field in sorted key order, each starting
    with its key, unless a GPS value with several commas stops it; a value
    that is not a dictionary shows the fixed notice.
  */
  lemma {:induction false} DisplayShowsEveryFieldInOrder(m: Record, floatText: real -> string, i: nat)
    requires !Rendered(Some(m), floatText).raised
    requires i < |m.Keys|
    ensures |Rendered(Some(m), floatText).lines| == |m.Keys|
    ensures var keys := SortedKeys(m.Keys);
      StrictlySorted(keys) && StartsWith(Rendered(Some(m), floatText).lines[i], keys[i] + ": ")
    ensures Rendered(None, floatText).lines == [NoMetadata]
  {
    var keys := SortedKeys(m.Keys);
    var lines := EntryLines(m, keys, floatText);
    CollectAll(lines);
    assert lines[i] == EntryLine(keys[i], m[keys[i]], floatText);
  }

  /** A string with one comma splits into its two sides. */
  lemma SplitAtOnlyComma(lat: string, lon: string)
    requires ',' !in lat && ',' !in lon
    ensures Split(lat + "," + lon, ',') == [lat, lon]
  {
    assert lat + "," + lon == lat + [','] + lon;
    SplitAfterPart(lat, ',', lon);
    SplitWithoutSep(lon, ',');
  }

  /** A GPS string with one comma is shown as a maps link to its two stripped halves. */
  lemma {:induction false} GpsLineIsMapsLink(lat: string, lon: string, floatText: real -> string)
    requires ',' !in lat && ',' !in lon
    ensures EntryLine(GpsKey, VStr(lat + "," + lon), floatText)
      == Some(GpsKey + ": " + MapsUrl(Strip(lat), Strip(lon)) + "\n")
  {
    var s := lat + "," + lon;
    SplitAtOnlyComma(lat, lon);
    var head, url := GpsKey + ": ", MapsUrl(Strip(lat), Strip(lon));
    assert head + url + "\n" == head + (url + "\n");
    assert s[|lat|] == ',';
  }

  /** A record whose GPS string holds two or more commas makes the display raise. */
  lemma {:induction false} GpsWithTwoCommasRaises(m: Record, floatText: real -> string)
    requires GpsKey in m && m[GpsKey].VStr? && CountChar(m[GpsKey].s, ',') >= 2
    ensures Rendered(Some(m), floatText).raised
  {
    var keys := SortedKeys(m.Keys);
    var lines := EntryLines(m, keys, floatText);
    var i :| 0 <= i < |keys| && keys[i] == GpsKey;
    assert lines[i] == EntryLine(GpsKey, m[GpsKey], floatText);
    CollectAll(lines);
  }

  /** One more line: it is inserted, or rendering raises. */
  lemma CollectStep(lines: seq<Option<string>>, i: nat)
    requires i < |lines| && !Collect(lines[..i]).raised
    ensures Collect(lines[..i + 1])
        == match lines[i]
           case None => Rendering(Collect(lines[..i]).lines, true)
           case Some(line) => Rendering(Collect(lines[..i]).lines + [line], false)
  {
    assert lines[..i + 1][..i] == lines[..i];
  }

  /** Once rendering raised, later lines change nothing. */
  lemma {:induction false} RaisedStays(lines: seq<Option<string>>, i: nat)
    requires i <= |lines| && Collect(lines[..i]).raised
    ensures Collect(lines) == Collect(lines[..i])
    decreases |lines|
  {
    if i < |lines| {
      var init := lines[..|lines| - 1];
      assert init[..i] == lines[..i];
      RaisedStays(init, i);
    } else {
      assert lines[..i] == lines;
    }
  }

  // ---------------------------------------------------------------------
  // MetadataDisplayPanel._on_search
  // ---------------------------------------------------------------------

  /** A field matches a lowered query when its lowered key, or its lowered string value, contains it. */
  predicate Matches(query: string, key: string, value: Value) {
    Contains(Lower(key), query) || (value.VStr? && Contains(Lower(value.s), query))
  }

  /** The fields a search keeps, with their values unchanged. */
  function Filtered(m: Record, query: string): Record {
    FilteredAmong(m, m.Keys, query)
  }

  /** The matching fields among `keys`. */
  function FilteredAmong(m: Record, keys: set<string>, query: string): Record
    requires keys <= m.Keys
  {
    map k | k in keys && Matches(query, k, m[k]) :: m[k]
  }

  /** Looking at one more key adds it exactly when it matches. */
  lemma FilterStep(m: Record, done: set<string>, key: string, query: string)
    requires done <= m.Keys && key in m && key !in done
    ensures FilteredAmong(m, done + {key}, query)
      == if Matches(query, key, m[key]) then FilteredAmong(m, done, query)[key := m[key]]
         else FilteredAmong(m, done, query)
  {
  }

  /**
    The search keeps exactly the matching fields with their values, and
    searching its own result again keeps all of it.
  */
  lemma {:induction false} FilteredKeepsExactlyTheMatches(m: Record, query: string, k: string)
    ensures k in Filtered(m, query) <==> k in m && Matches(query, k, m[k])
    ensures k in Filtered(m, query) ==> Filtered(m, query)[k] == m[k]
    ensures Filtered(Filtered(m, query), query) == Filtered(m, query)
  {
  }

  /** Every string contains the empty one, so filtering by "" would keep everything. */
  lemma {:induction false} EmptyQueryMatchesAll(m: Record)
    ensures Filtered(m, "") == m
  {
    forall k | k in m ensures Matches("", k, m[k]) {
      assert OccursAt(Lower(k), "", 0);
    }
  }

  /** Letter case does not matter: a query and its lowered form keep the same fields. */
  lemma {:induction false} SearchIgnoresCase(m: Record, query: string)
    ensures Filtered(m, Lower(Lower(query))) == Filtered(m, Lower(query))
  {
    forall i | 0 <= i < |query| ensures LowerChar(LowerChar(query[i])) == LowerChar(query[i]) {
    }
    assert Lower(Lower(query)) == Lower(query);
  }

  /** The panel: the record last displayed, and the lines it currently shows. */
  class MetadataDisplayPanel {
    var original: Record
    var shown: seq<string>

    constructor ()
      ensures original == map[] && shown == []
    {
      original := map[];
      shown := [];
    }

    /** `display_metadata`: remember the record and show it. */
    method DisplayMetadata(metadata: Record, floatText: real -> string) returns (raised: bool)
      modifies this
      ensures original == metadata
      ensures Rendering(shown, raised) == Rendered(Some(metadata), floatText)
    {
      original := metadata;
      raised := UpdateDisplay(Some(metadata), floatText);
    }

    /** `_update_display`: clear the text, then insert the lines one by one. */
    method UpdateDisplay(metadata: Option<Record>, floatText: real -> string) returns (raised: bool)
      modifies this
      ensures original == old(original)
      ensures Rendering(shown, raised) == Rendered(metadata, floatText)
    {
      match metadata
      case None =>
        shown, raised := [NoMetadata], false;
      case Some(m) =>
        shown, raised := RenderLines(m, SortedKeys(m.Keys), floatText);
    }

    /**
      `_on_search`: nothing happens before a record was displayed; an empty
      query shows the whole record again; otherwise only the matching
      fields are shown.
    */
    method OnSearch(query: string, floatText: real -> string) returns (raised: bool)
      modifies this
      ensures original == old(original)
      ensures old(original) == map[] ==> shown == old(shown) && !raised
      ensures old(original) != map[] ==>
        Rendering(shown, raised) == Rendered(Some(Filtered(original, Lower(query))), floatText)
    {
      raised := false;
      if original == map[] {
        return;
      }
      var q := Lower(query);
      if q == [] {
        EmptyQueryMatchesAll(original);
        raised := UpdateDisplay(Some(original), floatText);
        return;
      }
      var filtered := FilterFields(original, q);
      raised := UpdateDisplay(Some(filtered), floatText);
    }

    /** `clear`: empty text, and no record to search. */
    method Clear()
      modifies this
      ensures original == map[] && shown == []
    {
      shown := [];
      original := map[];
    }
  }

  /**
    The loop of `_update_display`: the line of each key in turn, stopping
    at the first key whose line raises.
  */
  method RenderLines(m: Record, keys: seq<string>, floatText: real -> string) returns (lines: seq<string>, raised: bool)
    requires forall k :: k in keys ==> k in m
    ensures Rendering(lines, raised) == Collect(EntryLines(m, keys, floatText))
  {
    ghost var all := EntryLines(m, keys, floatText);
    lines, raised := [], false;
    for i := 0 to |keys|
      invariant Rendering(lines, false) == Collect(all[..i])
    {
      var line := EntryLine(keys[i], m[keys[i]], floatText);
      assert all[i] == line;
      CollectStep(all, i);
      if line.None? {
        RaisedStays(all, i + 1);
        raised := true;
        return;
      }
      lines := lines + [line.value];
    }
    assert all[..|keys|] == all;
  }

  /** The loop of `_on_search` that builds `filtered_metadata`. */
  method FilterFields(m: Record, query: string) returns (filtered: Record)
    ensures filtered == Filtered(m, query)
  {
    filtered := map[];
    var todo := m.Keys;
    var done: set<string> := {};
    while todo != {}
      invariant todo <= m.Keys && done == m.Keys - todo
      invariant filtered == FilteredAmong(m, done, query)
      decreases |todo|
    {
      var key :| key in todo;
      FilterStep(m, done, key, query);
      if Matches(query, key, m[key]) {
        filtered := filtered[key := m[key]];
      }
      todo, done := todo - {key}, done + {key};
    }
  }

  // ---------------------------------------------------------------------
  // FileUploadPanel.upload_file: the dialog's file-type filter
  // ---------------------------------------------------------------------

  const AllFiles: (string, string) := ("All Files", "*.*")

  /** `FILE_TYPES.get(name, [])`. */
  function ExtensionsOf(table: seq<(string, seq<string>)>, name: string): seq<string> {
    if table == [] then []
    else if table[0].0 == name then table[0].1
    else ExtensionsOf(table[1..], name)
  }

  /**
    The filter list: everything for "All Files" or a category without
    extensions (unknown ones included), else the category with its
    extensions joined by spaces.
  */
  function UploadFilter(fileType: string): seq<(string, string)> {
    if fileType == "All Files" then [AllFiles]
    else
      var extensions := ExtensionsOf(FileUtils.FileTypes, fileType);
      if extensions != [] then [(fileType, Join(extensions, ' '))] else [AllFiles]
  }

  /** For each category of `FILE_TYPES` the pattern splits back into exactly its extensions. */
  lemma {:induction false} UploadFilterOfCategory(k: nat)
    requires k < |FileUtils.FileTypes|
    ensures var (name, extensions) := FileUtils.FileTypes[k];
      && UploadFilter(name) == [(name, Join(extensions, ' '))]
      && Split(UploadFilter(name)[0].1, ' ') == extensions
  {
    var rows := FileUtils.FileTypes;
    ExtensionsAtRow(rows, rows[k].0, k);
    NoSpacesInExtensions(k);
    SplitJoin(rows[k].1, ' ');
  }

  /** Any choice that is not a category of `FILE_TYPES` falls back to all files. */
  lemma {:induction false} UploadFilterOtherwise(fileType: string)
    requires forall k :: 0 <= k < |FileUtils.FileTypes| ==> FileUtils.FileTypes[k].0 != fileType
    ensures UploadFilter(fileType) == [AllFiles]
  {
    ExtensionsOfAbsent(FileUtils.FileTypes, fileType);
  }

  lemma {:induction false} ExtensionsAtRow(table: seq<(string, seq<string>)>, name: string, k: nat)
    requires k < |table| && table[k].0 == name
    requires forall j :: 0 <= j < k ==> table[j].0 != name
    ensures ExtensionsOf(table, name) == table[k].1
  {
    if k > 0 {
      ExtensionsAtRow(table[1..], name, k - 1);
    }
  }

  lemma {:induction false} ExtensionsOfAbsent(table: seq<(string, seq<string>)>, name: string)
    requires forall j :: 0 <= j < |table| ==> table[j].0 != name
    ensures ExtensionsOf(table, name) == []
  {
    if table != [] {
      ExtensionsOfAbsent(table[1..], name);
    }
  }

  lemma NoSpacesInExtensions(k: nat)
    requires k < |FileUtils.FileTypes|
    ensures |FileUtils.FileTypes[k].1| >= 1
    ensures forall e :: e in FileUtils.FileTypes[k].1 ==> ' ' !in e
  {
  }
}
