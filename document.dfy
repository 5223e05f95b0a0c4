/**
 * The request document as a JSON-like tree, and `getpath`: the accessor that
 * walks nested dictionaries along a colon-separated path, with an optional
 * default value (examples/jobtree/sync.py:104-130).
 */
module Document {
  import opened Wrappers

  datatype Json =
    | Null
    | Bool(b: bool)
    | Num(n: int)
    | Str(s: string)
    | Arr(items: seq<Json>)
    | Obj(fields: map<string, Json>)

  /**
   * Why a lookup failed. `MissingKey` is Python's `KeyError` (a dictionary
   * without the key); `NotAnObject` stands for the `TypeError` or
   * `AttributeError` raised when a value that is not a dictionary is indexed.
   */
  datatype PathError = MissingKey(key: string) | NotAnObject(key: string)

  // ---------------------------------------------------------------------------
  // Paths: `str.split(':')` and `':'.join(...)`
  // ---------------------------------------------------------------------------

  const SEPARATOR: char := ':'

  /** `s.split(':')`: never empty, and no part holds the separator. */
  function Split(s: string): (parts: seq<string>)
    ensures |parts| > 0
    ensures forall i :: 0 <= i < |parts| ==> SEPARATOR !in parts[i]
    decreases |s|
  {
    if |s| == 0 then [""]
    else
      var tail := Split(s[1..]);
      if s[0] == SEPARATOR then [""] + tail
      else [[s[0]] + tail[0]] + tail[1..]
  }

  /** `':'.join(parts)` for a non-empty list of parts. */
  function Join(parts: seq<string>): string
    requires |parts| > 0
    decreases |parts|
  {
    if |parts| == 1 then parts[0] else parts[0] + [SEPARATOR] + Join(parts[1..])
  }

  /** Joining the parts of a split gives back the original string. */
  lemma {:induction false} JoinSplit(s: string)
    ensures Join(Split(s)) == s
    decreases |s|
  {
    if |s| > 0 {
      JoinSplit(s[1..]);
      var tail := Split(s[1..]);
      if s[0] == SEPARATOR {
        assert Split(s) == [""] + tail;
        assert ([""] + tail)[1..] == tail;
        assert s == [SEPARATOR] + s[1..];
      } else {
        var parts := [[s[0]] + tail[0]] + tail[1..];
        assert Split(s) == parts;
        if |tail| == 1 {
          assert s == [s[0]] + s[1..];
        } else {
          assert parts[1..] == tail[1..];
          assert Join(tail) == tail[0] + [SEPARATOR] + Join(tail[1..]);
          assert s == [s[0]] + s[1..];
        }
      }
    }
  }

  /** A word without separator in front of `rest` extends the first part of `rest`'s split. */
  lemma {:induction false} SplitPrefix(w: string, rest: string)
    requires SEPARATOR !in w
    ensures Split(w + rest) == [w + Split(rest)[0]] + Split(rest)[1..]
    decreases |w|
  {
    if |w| > 0 {
      SplitPrefix(w[1..], rest);
      assert (w + rest)[1..] == w[1..] + rest;
      assert (w + rest)[0] == w[0];
      assert [w[0]] + (w[1..] + Split(rest)[0]) == w + Split(rest)[0];
    } else {
      var parts := Split(rest);
      assert w + rest == rest;
      assert w + parts[0] == parts[0];
      assert parts == [parts[0]] + parts[1..];
    }
  }

  /** Splitting the join of separator-free parts gives back the parts. */
  lemma {:induction false} SplitJoin(parts: seq<string>)
    requires |parts| > 0
    requires forall i :: 0 <= i < |parts| ==> SEPARATOR !in parts[i]
    ensures Split(Join(parts)) == parts
    decreases |parts|
  {
    if |parts| == 1 {
      SplitPrefix(parts[0], "");
      assert parts[0] + "" == parts[0];
    } else {
      var rest := Join(parts[1..]);
      SplitJoin(parts[1..]);
      SplitPrefix(parts[0], [SEPARATOR] + rest);
      assert Split([SEPARATOR] + rest) == [""] + Split(rest) by {
        assert ([SEPARATOR] + rest)[1..] == rest;
      }
      assert parts[0] + ([SEPARATOR] + rest) == parts[0] + [SEPARATOR] + rest;
      assert parts[0] + "" == parts[0];
    }
  }

  /** The rest of a path after its first key, re-joined, is shorter than the path. */
  lemma RestShorter(path: string)
    requires |Split(path)| > 1
    ensures |Join(Split(path)[1..])| < |path|
  {
    var parts := Split(path);
    JoinSplit(path);
    assert Join(parts) == parts[0] + [SEPARATOR] + Join(parts[1..]);
  }

  // ---------------------------------------------------------------------------
  // getpath
  // ---------------------------------------------------------------------------

  /** `root[key]`: fails with a missing key or on a value that is not a dictionary. */
  function Index(root: Json, key: string): Result<Json, PathError> {
    if !root.Obj? then Err(NotAnObject(key))
    else if key in root.fields then Ok(root.fields[key])
    else Err(MissingKey(key))
  }

  /** `root.get(key, fallback)`: fails only on a value that is not a dictionary. */
  function Get(root: Json, key: string, fallback: Json): Result<Json, PathError> {
    if !root.Obj? then Err(NotAnObject(key))
    else if key in root.fields then Ok(root.fields[key])
    else Ok(fallback)
  }

  /**
   * `getpath(root, path, default)`; `default == None` stands for the
   * `Ellipsis` sentinel, i.e. no default was given.
   */
  function GetPath(root: Json, path: string, default: Option<Json>): Result<Json, PathError>
    decreases |path|
  {
    var parts := Split(path);
    var nextItem := parts[0];
    if |parts| > 1 then
      var value := if default.None? then Index(root, nextItem) else Get(root, nextItem, Obj(map[]));
      if value.Err? then Err(value.error)
      else
        RestShorter(path);
        GetPath(value.value, Join(parts[1..]), default)
    else if default.None? then Index(root, nextItem)
    else Get(root, nextItem, default.value)
  }

  // ---------------------------------------------------------------------------
  // Reference: plain resolution of a key path
  // ---------------------------------------------------------------------------

  /** Where resolving a key path ends. */
  datatype Lookup = Found(value: Json) | Missing(key: string) | Blocked(key: string)

  /**
   * Follows `keys` from `root` with no defaults at all: `Missing` names the
   * first absent key, `Blocked` the first key looked up in a non-dictionary.
   */
  function Walk(root: Json, keys: seq<string>): Lookup
    decreases |keys|
  {
    if |keys| == 0 then Found(root)
    else if !root.Obj? then Blocked(keys[0])
    else if keys[0] !in root.fields then Missing(keys[0])
    else Walk(root.fields[keys[0]], keys[1..])
  }

  /** What `getpath` promises for each outcome of the plain resolution. */
  function Expected(l: Lookup, default: Option<Json>): Result<Json, PathError> {
    match l
    case Found(v) => Ok(v)
    case Missing(k) => if default.None? then Err(MissingKey(k)) else Ok(default.value)
    case Blocked(k) => Err(NotAnObject(k))
  }

  /** With a default, every path below an empty dictionary yields the default. */
  lemma {:induction false} EmptyGivesDefault(path: string, d: Json)
    ensures GetPath(Obj(map[]), path, Some(d)) == Ok(d)
    decreases |path|
  {
    var parts := Split(path);
    if |parts| > 1 {
      RestShorter(path);
      EmptyGivesDefault(Join(parts[1..]), d);
    }
  }

  /**
   * `getpath` agrees with plain resolution of the split path: a present path
   * gives its value with or without a default; a missing key anywhere is a
   * `KeyError` without a default and the default with one; stepping into a
   * non-dictionary is an error either way.
   */
  lemma {:induction false} GetPathResolves(root: Json, path: string, default: Option<Json>)
    ensures GetPath(root, path, default) == Expected(Walk(root, Split(path)), default)
    decreases |path|
  {
    var parts := Split(path);
    if |parts| > 1 {
      var rest := Join(parts[1..]);
      RestShorter(path);
      SplitJoin(parts[1..]);
      assert Split(rest) == parts[1..];
      if root.Obj? && parts[0] in root.fields {
        GetPathResolves(root.fields[parts[0]], rest, default);
      } else if root.Obj? && default.Some? {
        EmptyGivesDefault(rest, default.value);
      }
    }
  }

  /** A path whose every key is present yields the stored value, whatever the default. */
  lemma PresentPath(root: Json, path: string, default: Option<Json>, v: Json)
    requires Walk(root, Split(path)) == Found(v)
    ensures GetPath(root, path, default) == Ok(v)
  {
    GetPathResolves(root, path, default);
  }

  /** A missing key is an error without a default and the default with one. */
  lemma MissingKeyPath(root: Json, path: string, default: Option<Json>, k: string)
    requires Walk(root, Split(path)) == Missing(k)
    ensures default.None? ==> GetPath(root, path, default) == Err(MissingKey(k))
    ensures default.Some? ==> GetPath(root, path, default) == Ok(default.value)
  {
    GetPathResolves(root, path, default);
  }

  /** Stepping into a non-dictionary is an error, with or without a default. */
  lemma BlockedPath(root: Json, path: string, default: Option<Json>, k: string)
    requires Walk(root, Split(path)) == Blocked(k)
    ensures GetPath(root, path, default) == Err(NotAnObject(k))
  {
    GetPathResolves(root, path, default);
  }

  /** The split of the one- and two-key paths used by the table below. */
  lemma SplitKeys(a: string, b: string)
    requires SEPARATOR !in a && SEPARATOR !in b
    ensures Split(a) == [a]
    ensures Split(a + [SEPARATOR] + b) == [a, b]
  {
    SplitJoin([a]);
    SplitJoin([a, b]);
    assert Join([a, b]) == a + [SEPARATOR] + Join([b]);
  }

  /** A path of one key resolves that key alone. */
  lemma OneKey(root: Json, a: string, default: Option<Json>)
    requires SEPARATOR !in a
    ensures GetPath(root, a, default) == Expected(Walk(root, [a]), default)
  {
    SplitKeys(a, "");
    GetPathResolves(root, a, default);
  }

  /** A path of two keys resolves the first key, then the second. */
  lemma TwoKeys(root: Json, a: string, b: string, default: Option<Json>)
    requires SEPARATOR !in a && SEPARATOR !in b
    ensures GetPath(root, a + [SEPARATOR] + b, default) == Expected(Walk(root, [a, b]), default)
  {
    SplitKeys(a, b);
    GetPathResolves(root, a + [SEPARATOR] + b, default);
  }

  /** Lines 8-9 of the table in examples/jobtree/test_sync.py: an empty document, path `outer`. */
  lemma TableEmptyOuter()
    ensures GetPath(Obj(map[]), "outer", None)
         == Err(MissingKey("outer"))
    ensures GetPath(Obj(map[]), "outer", Some(Str("default")))
         == Ok(Str("default"))
  {
    var root := Obj(map[]);
    OneKey(root, "outer", None);
    OneKey(root, "outer", Some(Str("default")));
  }

  /** Lines 10-11 of the table in examples/jobtree/test_sync.py: an empty document, path `outer:inner`. */
  lemma TableEmptyOuterInner()
    ensures GetPath(Obj(map[]), "outer:inner", None)
         == Err(MissingKey("outer"))
    ensures GetPath(Obj(map[]), "outer:inner", Some(Str("default")))
         == Ok(Str("default"))
  {
    var root := Obj(map[]);
    assert "outer:inner" == "outer" + [SEPARATOR] + "inner";
    TwoKeys(root, "outer", "inner", None);
    TwoKeys(root, "outer", "inner", Some(Str("default")));
  }

  /** Lines 12-13 of the table in examples/jobtree/test_sync.py: a string under `outer`, path `missing`. */
  lemma TableStringMissing()
    ensures GetPath(Obj(map["outer" := Str("value")]), "missing", None)
         == Err(MissingKey("missing"))
    ensures GetPath(Obj(map["outer" := Str("value")]), "missing", Some(Str("default")))
         == Ok(Str("default"))
  {
    var root := Obj(map["outer" := Str("value")]);
    OneKey(root, "missing", None);
    OneKey(root, "missing", Some(Str("default")));
  }

  /** Lines 14-15 of the table in examples/jobtree/test_sync.py: a string under `outer`, path `outer`. */
  lemma TableStringOuter()
    ensures GetPath(Obj(map["outer" := Str("value")]), "outer", None)
         == Ok(Str("value"))
    ensures GetPath(Obj(map["outer" := Str("value")]), "outer", Some(Str("default")))
         == Ok(Str("value"))
  {
    var root := Obj(map["outer" := Str("value")]);
    OneKey(root, "outer", None);
    OneKey(root, "outer", Some(Str("default")));
  }

  /** Lines 16-17 of the table in examples/jobtree/test_sync.py: a string under `outer`, path `outer:inner`. */
  lemma TableStringOuterInner()
    ensures GetPath(Obj(map["outer" := Str("value")]), "outer:inner", None)
         == Err(NotAnObject("inner"))
    ensures GetPath(Obj(map["outer" := Str("value")]), "outer:inner", Some(Str("default")))
         == Err(NotAnObject("inner"))
  {
    var root := Obj(map["outer" := Str("value")]);
    assert "outer:inner" == "outer" + [SEPARATOR] + "inner";
    TwoKeys(root, "outer", "inner", None);
    TwoKeys(root, "outer", "inner", Some(Str("default")));
  }

  /** Lines 18-19 of the table in examples/jobtree/test_sync.py: an empty dictionary under `outer`, path `outer`. */
  lemma TableEmptyInnerOuter()
    ensures GetPath(Obj(map["outer" := Obj(map[])]), "outer", None)
         == Ok(Obj(map[]))
    ensures GetPath(Obj(map["outer" := Obj(map[])]), "outer", Some(Str("default")))
         == Ok(Obj(map[]))
  {
    var root := Obj(map["outer" := Obj(map[])]);
    OneKey(root, "outer", None);
    OneKey(root, "outer", Some(Str("default")));
  }

  /** Lines 20-21 of the table in examples/jobtree/test_sync.py: an empty dictionary under `outer`, path `outer:inner`. */
  lemma TableEmptyInnerOuterInner()
    ensures GetPath(Obj(map["outer" := Obj(map[])]), "outer:inner", None)
         == Err(MissingKey("inner"))
    ensures GetPath(Obj(map["outer" := Obj(map[])]), "outer:inner", Some(Str("default")))
         == Ok(Str("default"))
  {
    var root := Obj(map["outer" := Obj(map[])]);
    assert "outer:inner" == "outer" + [SEPARATOR] + "inner";
    TwoKeys(root, "outer", "inner", None);
    TwoKeys(root, "outer", "inner", Some(Str("default")));
  }

  /** Lines 22-23 of the table in examples/jobtree/test_sync.py: a nested dictionary, path `outer`. */
  lemma TableNestedOuter()
    ensures GetPath(Obj(map["outer" := Obj(map["inner" := Str("value")])]), "outer", None)
         == Ok(Obj(map["inner" := Str("value")]))
    ensures GetPath(Obj(map["outer" := Obj(map["inner" := Str("value")])]), "outer", Some(Str("default")))
         == Ok(Obj(map["inner" := Str("value")]))
  {
    var root := Obj(map["outer" := Obj(map["inner" := Str("value")])]);
    OneKey(root, "outer", None);
    OneKey(root, "outer", Some(Str("default")));
  }

  /** Lines 24-25 of the table in examples/jobtree/test_sync.py: a nested dictionary, path `outer:inner`. */
  lemma TableNestedOuterInner()
    ensures GetPath(Obj(map["outer" := Obj(map["inner" := Str("value")])]), "outer:inner", None)
         == Ok(Str("value"))
    ensures GetPath(Obj(map["outer" := Obj(map["inner" := Str("value")])]), "outer:inner", Some(Str("default")))
         == Ok(Str("value"))
  {
    var root := Obj(map["outer" := Obj(map["inner" := Str("value")])]);
    assert "outer:inner" == "outer" + [SEPARATOR] + "inner";
    assert Walk(root, ["outer", "inner"]) == Walk(Obj(map["inner" := Str("value")]), ["inner"]);
    TwoKeys(root, "outer", "inner", None);
    TwoKeys(root, "outer", "inner", Some(Str("default")));
  }

  /** Lines 26-27 of the table in examples/jobtree/test_sync.py: a nested dictionary, path `outer:missing`. */
  lemma TableNestedOuterMissing()
    ensures GetPath(Obj(map["outer" := Obj(map["inner" := Str("value")])]), "outer:missing", None)
         == Err(MissingKey("missing"))
    ensures GetPath(Obj(map["outer" := Obj(map["inner" := Str("value")])]), "outer:missing", Some(Str("default")))
         == Ok(Str("default"))
  {
    var root := Obj(map["outer" := Obj(map["inner" := Str("value")])]);
    assert "outer:missing" == "outer" + [SEPARATOR] + "missing";
    TwoKeys(root, "outer", "missing", None);
    TwoKeys(root, "outer", "missing", Some(Str("default")));
  }
}
