// Application settings: the in-memory side of config.py. Reading and
// writing config.json are parameters here (what `json.load` produced, or
// that it failed); `save_config` only writes the file and is not modelled.

module Config {
  import Collections

  /** A JSON value as `json.load` yields it. */
  datatype Json =
    | JNull
    | JBool(b: bool)
    | JInt(i: int)
    | JReal(r: real)
    | JStr(s: string)
    | JList(items: seq<Json>)
    | JObject(fields: map<string, Json>)

  /** What reading config.json produced. */
  datatype LoadOutcome =
    | NoFile                                  // the file does not exist: it is written instead
    | Parsed(loaded: map<string, Json>)       // the file held a JSON object
    | Failed                                  // reading or parsing raised

  /** `default_config`; `home` is what `os.path.expanduser("~")` returns. */
  function DefaultConfig(home: string): (d: map<string, Json>)
    ensures "recent_files" in d && d["recent_files"] == JList([])
    ensures "max_recent_files" in d && d["max_recent_files"] == JInt(10)
  {
    map[
      "theme" := JStr("light"),
      "last_directory" := JStr(home),
      "export_format" := JStr("json"),
      "default_batch_limit" := JInt(50),
      "show_preview" := JBool(true),
      "max_recent_files" := JInt(10),
      "recent_files" := JList([]),
      "preferred_hash" := JStr("md5"),
      "window_size" := JStr("1000x800"),
      "advanced_mode" := JBool(false),
      "auto_check" := JBool(true)
    ]
  }

  /** `d.get(key, default)`. */
  function Lookup(d: map<string, Json>, key: string, default: Json): (r: Json)
    ensures key in d ==> r == d[key]
    ensures key !in d ==> r == default
  {
    if key in d then d[key] else default
  }

  // ---------------------------------------------------------------------
  // load_config: only the default keys are taken from the file
  // ---------------------------------------------------------------------

  /**
    The settings after copying from `loaded` every key of `keys` it has;
    every other key keeps its current value.
  */
  function Merged(current: map<string, Json>, keys: set<string>, loaded: map<string, Json>): map<string, Json> {
    map k | k in current.Keys + (keys * loaded.Keys) :: if k in keys && k in loaded then loaded[k] else current[k]
  }

  /** The settings after `load_config` with the given outcome. */
  function AfterLoad(current: map<string, Json>, defaults: map<string, Json>, outcome: LoadOutcome): map<string, Json> {
    match outcome
    case NoFile => current
    case Parsed(loaded) => Merged(current, defaults.Keys, loaded)
    case Failed => defaults
  }

  /**
    A merge takes the loaded value of a default key the file has, keeps the
    current value of a default key it lacks, and ignores the file's other
    keys; when the current settings hold every default key, no key is added.
  */
  lemma {:induction false} MergedTakesOnlyDefaultKeys(current: map<string, Json>, keys: set<string>, loaded: map<string, Json>, k: string)
    requires keys <= current.Keys
    ensures Merged(current, keys, loaded).Keys == current.Keys
    ensures k in keys && k in loaded ==> Merged(current, keys, loaded)[k] == loaded[k]
    ensures k in current && !(k in keys && k in loaded) ==> Merged(current, keys, loaded)[k] == current[k]
  {
    SubsetUnion(keys * loaded.Keys, current.Keys);
  }

  lemma SubsetUnion(a: set<string>, b: set<string>)
    requires a <= b
    ensures b + a == b
  {
  }

  /**
    Saving and loading back: a file holding the current settings (what
    `save_config` writes) leaves them unchanged.
  */
  lemma {:induction false} LoadOfSavedIsIdentity(current: map<string, Json>, keys: set<string>)
    requires keys <= current.Keys
    ensures Merged(current, keys, current) == current
  {
    SubsetUnion(keys * current.Keys, current.Keys);
  }

  /** Loading the same file twice is loading it once. */
  lemma {:induction false} MergeIdempotent(current: map<string, Json>, keys: set<string>, loaded: map<string, Json>)
    ensures Merged(Merged(current, keys, loaded), keys, loaded) == Merged(current, keys, loaded)
  {
    var once := Merged(current, keys, loaded);
    assert once.Keys == current.Keys + (keys * loaded.Keys);
    SubsetUnion(keys * loaded.Keys, once.Keys);
  }

  /** One more key copied: the merge over `keys + {key}`. */
  lemma {:induction false} MergedStep(current: map<string, Json>, keys: set<string>, loaded: map<string, Json>, key: string)
    ensures Merged(current, keys + {key}, loaded)
      == if key in loaded then Merged(current, keys, loaded)[key := loaded[key]] else Merged(current, keys, loaded)
  {
  }

  lemma MergedNothing(current: map<string, Json>, loaded: map<string, Json>)
    ensures Merged(current, {}, loaded) == current
  {
  }

  // ---------------------------------------------------------------------
  // add_recent_file: the most recently used list
  // ---------------------------------------------------------------------

  /** `list.remove(x)`: the first occurrence of `x` is deleted. */
  function RemoveFirst(s: seq<Json>, x: Json): seq<Json> {
    if s == [] then []
    else if s[0] == x then s[1..]
    else [s[0]] + RemoveFirst(s[1..], x)
  }

  /** The entries that are not `x`, in their order. */
  function Without(s: seq<Json>, x: Json): seq<Json> {
    if s == [] then []
    else (if s[0] == x then [] else [s[0]]) + Without(s[1..], x)
  }

  function Count(s: seq<Json>, x: Json): nat {
    if s == [] then 0 else (if s[0] == x then 1 else 0) + Count(s[1..], x)
  }

  /** `s[:n]` for an integer `n`: a negative `n` drops that many from the end. */
  function SliceTo(s: seq<Json>, n: int): (r: seq<Json>)
    ensures r <= s
    ensures n >= 0 ==> |r| == if n < |s| then n else |s|
    ensures n < 0 ==> |r| == if |s| + n > 0 then |s| + n else 0
  {
    if n >= 0 then (if n < |s| then s[..n] else s)
    else (if |s| + n > 0 then s[..|s| + n] else [])
  }

  /** What `max_recent_files` means as a slice bound. */
  datatype Bound = Upto(n: int) | Unbounded | NotAnIndex

  /** Integers and booleans are indices, None slices to the end, anything else raises. */
  function BoundOf(v: Json): Bound {
    match v
    case JInt(n) => Upto(n)
    case JBool(b) => Upto(if b then 1 else 0)
    case JNull => Unbounded
    case _ => NotAnIndex
  }

  /** The list with `path` moved (or added) to the front. */
  function Touched(files: seq<Json>, path: string): seq<Json> {
    [JStr(path)] + (if JStr(path) in files then RemoveFirst(files, JStr(path)) else files)
  }

  /**
    The settings after `add_recent_file(path)`, and whether it returned
    normally. A `recent_files` that is not a list makes it raise before
    any change; a `max_recent_files` that is not an index makes it raise
    after the list was already reordered in place.
  */
  function AfterAddRecent(config: map<string, Json>, path: string): (r: (map<string, Json>, bool))
    ensures r.0.Keys == config.Keys + {"recent_files"} || r.0 == config
    ensures forall k :: k in config && k != "recent_files" ==> k in r.0 && r.0[k] == config[k]
  {
    var recent := Lookup(config, "recent_files", JList([]));
    if !recent.JList? then (config, false)
    else
      var files := Touched(recent.items, path);
      match BoundOf(Lookup(config, "max_recent_files", JInt(10)))
      case NotAnIndex => (config["recent_files" := JList(files)], false)
      case Unbounded => (config["recent_files" := JList(files)], true)
      case Upto(n) => (config["recent_files" := JList(SliceTo(files, n))], true)
  }

  /** `RemoveFirst` deletes exactly one occurrence of a present value, and nothing when it is absent. */
  lemma {:induction false} RemoveFirstDeletesOne(s: seq<Json>, x: Json)
    ensures x in s ==> Count(RemoveFirst(s, x), x) + 1 == Count(s, x) && |RemoveFirst(s, x)| + 1 == |s|
    ensures x !in s ==> RemoveFirst(s, x) == s
  {
    if s != [] {
      RemoveFirstDeletesOne(s[1..], x);
      assert s == [s[0]] + s[1..];
      if s[0] != x {
        CountCons(s[0], RemoveFirst(s[1..], x), x);
      }
    }
  }

  /** The entries other than the removed value are the old ones, in their old order. */
  lemma {:induction false} RemoveFirstKeepsOrder(s: seq<Json>, x: Json)
    ensures Without(RemoveFirst(s, x), x) == Without(s, x)
  {
    if s != [] {
      RemoveFirstKeepsOrder(s[1..], x);
      if s[0] != x {
        WithoutCons(s[0], RemoveFirst(s[1..], x), x);
      }
    }
  }

  lemma WithoutCons(y: Json, s: seq<Json>, x: Json)
    ensures Without([y] + s, x) == (if y == x then [] else [y]) + Without(s, x)
  {
    assert ([y] + s)[1..] == s;
  }

  lemma CountCons(y: Json, s: seq<Json>, x: Json)
    ensures Count([y] + s, x) == (if y == x then 1 else 0) + Count(s, x)
  {
    assert ([y] + s)[1..] == s;
  }

  lemma {:induction false} CountZero(s: seq<Json>, x: Json)
    ensures Count(s, x) == 0 <==> x !in s
  {
    if s != [] {
      CountZero(s[1..], x);
      assert s == [s[0]] + s[1..];
    }
  }

  /** A prefix holds no more occurrences than the whole list. */
  lemma {:induction false} CountPrefix(p: seq<Json>, s: seq<Json>, x: Json)
    requires p <= s
    ensures Count(p, x) <= Count(s, x)
  {
    if p != [] {
      assert p[1..] <= s[1..];
      CountPrefix(p[1..], s[1..], x);
    }
  }

  /** Without of a prefix is a prefix of Without. */
  lemma {:induction false} WithoutPrefix(p: seq<Json>, s: seq<Json>, x: Json)
    requires p <= s
    ensures Without(p, x) <= Without(s, x)
  {
    if p != [] {
      assert p[1..] <= s[1..];
      WithoutPrefix(p[1..], s[1..], x);
    }
  }

  /**
    Moving `path` to the front: it heads the list, occurs there once more
    than nowhere and otherwise as often as before, and the other entries
    keep their order.
  */
  lemma {:induction false} TouchedMovesToFront(files: seq<Json>, path: string)
    ensures Touched(files, path)[0] == JStr(path)
    ensures Count(Touched(files, path), JStr(path)) == if JStr(path) in files then Count(files, JStr(path)) else 1
    ensures Without(Touched(files, path), JStr(path)) == Without(files, JStr(path))
  {
    var x := JStr(path);
    RemoveFirstDeletesOne(files, x);
    RemoveFirstKeepsOrder(files, x);
    var rest := if x in files then RemoveFirst(files, x) else files;
    CountCons(x, rest, x);
    WithoutCons(x, rest, x);
    if x !in files {
      CountZero(files, x);
    }
  }

  /** A list without duplicates of `path` stays without them, whatever the bound. */
  lemma {:induction false} AddRecentKeepsPathUnique(config: map<string, Json>, path: string)
    requires "recent_files" in config && config["recent_files"].JList?
    requires Count(config["recent_files"].items, JStr(path)) <= 1
    ensures var recent := AfterAddRecent(config, path).0["recent_files"];
      recent.JList? && Count(recent.items, JStr(path)) <= 1
  {
    var files := Touched(config["recent_files"].items, path);
    TouchedMovesToFront(config["recent_files"].items, path);
    match BoundOf(Lookup(config, "max_recent_files", JInt(10)))
    case NotAnIndex =>
    case Unbounded =>
    case Upto(n) => CountPrefix(SliceTo(files, n), files, JStr(path));
  }

  /**
    With a list and a positive (or absent) bound: `path` comes first, the
    list holds at most `max_recent_files` entries, and the entries other
    than `path` are the leading ones of the old list without `path`, in
    their old order.
  */
  lemma {:induction false} AddRecentPutsPathFirst(config: map<string, Json>, path: string)
    requires "recent_files" in config && config["recent_files"].JList?
    requires BoundOf(Lookup(config, "max_recent_files", JInt(10))) != NotAnIndex
    ensures var (after, ok) := AfterAddRecent(config, path);
      var old_files, recent := config["recent_files"].items, after["recent_files"];
      && ok && recent.JList?
      && Without(recent.items, JStr(path)) <= Without(old_files, JStr(path))
      && (BoundOf(Lookup(config, "max_recent_files", JInt(10))) == Unbounded ==> recent.items[0] == JStr(path))
      && (forall n :: BoundOf(Lookup(config, "max_recent_files", JInt(10))) == Upto(n) ==>
            (n >= 1 ==> recent.items[0] == JStr(path)) && (n >= 0 ==> |recent.items| <= n))
  {
    var files := Touched(config["recent_files"].items, path);
    TouchedMovesToFront(config["recent_files"].items, path);
    match BoundOf(Lookup(config, "max_recent_files", JInt(10)))
    case Unbounded =>
    case Upto(n) => WithoutPrefix(SliceTo(files, n), files, JStr(path));
  }

  /** Opening the same file twice in a row leaves the list as opening it once. */
  lemma {:induction false} AddRecentTwiceIsOnce(config: map<string, Json>, path: string)
    requires "recent_files" in config && config["recent_files"].JList?
    requires Lookup(config, "max_recent_files", JInt(10)).JInt? && Lookup(config, "max_recent_files", JInt(10)).i >= 0
    ensures AfterAddRecent(AfterAddRecent(config, path).0, path).0 == AfterAddRecent(config, path).0
  {
    var n := Lookup(config, "max_recent_files", JInt(10)).i;
    var once := SliceTo(Touched(config["recent_files"].items, path), n);
    var after := AfterAddRecent(config, path).0;
    assert after == config["recent_files" := JList(once)];
    assert Lookup(after, "max_recent_files", JInt(10)) == JInt(n);
    if once == [] {
      assert n == 0;
      assert SliceTo(Touched(once, path), n) == [];
    } else {
      var x := JStr(path);
      assert once[0] == x;
      assert x in once;
      assert RemoveFirst(once, x) == once[1..];
      assert Touched(once, path) == once;
    }
  }

  // ---------------------------------------------------------------------
  // Themes
  // ---------------------------------------------------------------------

  /** `LIGHT_THEME` of constants.py. */
  const LightTheme: map<string, string> := map[
    "bg_color" := "#FFFFFF", "fg_color" := "#000000",
    "button_bg" := "#F0F0F0", "button_fg" := "#000000",
    "text_area_bg" := "#FAFAFA", "text_area_fg" := "#000000",
    "accent_color" := "#4A6FD4", "secondary_bg" := "#F5F5F5",
    "border_color" := "#CCCCCC", "highlight_color" := "#E5E5E5",
    "menu_bg" := "#F0F0F0", "menu_fg" := "#000000"
  ]

  /** `DARK_THEME` of constants.py. */
  const DarkTheme: map<string, string> := map[
    "bg_color" := "#2D2D2D", "fg_color" := "#FFFFFF",
    "button_bg" := "#3D3D3D", "button_fg" := "#FFFFFF",
    "text_area_bg" := "#3D3D3D", "text_area_fg" := "#FFFFFF",
    "accent_color" := "#6A8ED8", "secondary_bg" := "#363636",
    "border_color" := "#555555", "highlight_color" := "#444444",
    "menu_bg" := "#3D3D3D", "menu_fg" := "#FFFFFF"
  ]

  // ---------------------------------------------------------------------
  // AppConfig
  // ---------------------------------------------------------------------

  class AppConfig {
    /** The user's home directory, which `last_directory` defaults to. */
    const home: string
    var config: map<string, Json>

    /** Every default key is present: nothing ever deletes one. */
    ghost predicate Valid()
      reads this
    {
      DefaultConfig(home).Keys <= config.Keys
    }

    /** Start from the defaults, then load the file. */
    constructor (home: string, outcome: LoadOutcome)
      ensures this.home == home && Valid()
      ensures config == AfterLoad(DefaultConfig(home), DefaultConfig(home), outcome)
    {
      this.home := home;
      config := DefaultConfig(home);
      new;
      LoadConfig(outcome);
    }

    /**
      `load_config`: with a parsed file, copy each default key it has; on
      any error, fall back to the defaults; with no file, nothing changes.
    */
    method LoadConfig(outcome: LoadOutcome)
      requires Valid()
      modifies this
      ensures Valid()
      ensures config == AfterLoad(old(config), DefaultConfig(home), outcome)
    {
      match outcome {
        case NoFile =>
        case Failed =>
          config := DefaultConfig(home);
        case Parsed(loaded) =>
          CopyDefaultKeys(DefaultConfig(home).Keys, loaded);
      }
    }

    /** The loop over the default keys: copy each of `keys` that `loaded` has. */
    method CopyDefaultKeys(keys: set<string>, loaded: map<string, Json>)
      modifies this
      ensures config == Merged(old(config), keys, loaded)
      ensures old(config).Keys <= config.Keys
    {
      var todo := keys;
      var done: set<string> := {};
      MergedNothing(config, loaded);
      while todo != {}
        invariant todo <= keys && done == keys - todo
        invariant config == Merged(old(config), done, loaded)
        invariant old(config).Keys <= config.Keys
        decreases |todo|
      {
        var key :| key in todo;
        MergedStep(old(config), done, loaded, key);
        if key in loaded {
          config := config[key := loaded[key]];
        }
        Collections.MoveToDone(keys, todo, done, key);
        todo, done := todo - {key}, done + {key};
      }
    }

    /** `get(key, default)`. */
    function Get(key: string, default: Json): (r: Json)
      reads this
      ensures key in config ==> r == config[key]
      ensures key !in config ==> r == default
    {
      Lookup(config, key, default)
    }

    /** `set(key, value)`: a later `get` of the key returns the value. */
    method Set(key: string, value: Json)
      requires Valid()
      modifies this
      ensures Valid()
      ensures config == old(config)[key := value]
      ensures forall d :: Get(key, d) == value
    {
      config := config[key := value];
    }

    /**
      `add_recent_file(path)`; `ok` is false where the source raises. The
      list is reordered in place before the bound is read, so a bad bound
      still leaves it reordered.
    */
    method AddRecentFile(path: string) returns (ok: bool)
      requires Valid()
      modifies this
      ensures Valid()
      ensures (config, ok) == AfterAddRecent(old(config), path)
    {
      var recent := Get("recent_files", JList([]));
      if !recent.JList? {
        return false;
      }
      var files := recent.items;
      if JStr(path) in files {
        files := RemoveFirst(files, JStr(path));
      }
      files := [JStr(path)] + files;
      assert files == Touched(recent.items, path);
      config := config["recent_files" := JList(files)];
      assert "max_recent_files" != "recent_files";
      var maxFiles := Get("max_recent_files", JInt(10));
      assert maxFiles == Lookup(old(config), "max_recent_files", JInt(10));
      match BoundOf(maxFiles) {
        case NotAnIndex =>
          return false;
        case Unbounded =>
        case Upto(n) =>
          config := config["recent_files" := JList(SliceTo(files, n))];
          assert config == old(config)["recent_files" := JList(SliceTo(files, n))];
      }
      ok := true;
    }

    /** `clear_recent_files`. */
    method ClearRecentFiles()
      requires Valid()
      modifies this
      ensures Valid()
      ensures config == old(config)["recent_files" := JList([])]
    {
      config := config["recent_files" := JList([])];
    }

    /** `get_theme_colors`: the dark palette exactly when the theme is "dark". */
    function ThemeColors(): (colors: map<string, string>)
      reads this
      ensures colors == DarkTheme <==> ("theme" in config && config["theme"] == JStr("dark"))
      ensures colors == LightTheme || colors == DarkTheme
    {
      assert LightTheme["bg_color"] != DarkTheme["bg_color"];
      if Get("theme", JNull) == JStr("dark") then DarkTheme else LightTheme
    }
  }
}
