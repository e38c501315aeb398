/**
  The semantics assumed for lodash's `get(obj, path, defaultValue)`, the
  library call that `getScrollState` is built on:

  - the path string is used as one key when it names an own property of the
    object, and is otherwise split at every '.' into keys (bracket syntax is
    not modelled);
  - the walk reads one key after another and stops with `undefined` as soon
    as it stands on `null` or `undefined`; an empty key list yields
    `undefined`;
  - the default is returned exactly when the walk yields `undefined`, so a
    resolved `null` is returned as `null`.
 */
module LodashGet {
  import opened JsValues

  // ---------------------------------------------------------------------
  // Dotted paths
  // ---------------------------------------------------------------------

  /** The keys of a dotted path: the pieces of `s` between the separators. */
  function Split(s: string, sep: char): (keys: seq<string>)
    ensures |keys| >= 1
    ensures forall i :: 0 <= i < |keys| ==> sep !in keys[i]
    decreases |s|
  {
    if |s| == 0 then [""]
    else
      var rest := Split(s[1..], sep);
      if s[0] == sep then [""] + rest
      else [[s[0]] + rest[0]] + rest[1..]
  }

  /** The dotted path made of `keys`, one separator between each two. */
  function Join(keys: seq<string>, sep: char): string
    requires |keys| >= 1
  {
    if |keys| == 1 then keys[0] else keys[0] + [sep] + Join(keys[1..], sep)
  }

  predicate NoSeparator(keys: seq<string>, sep: char) {
    forall i :: 0 <= i < |keys| ==> sep !in keys[i]
  }

  lemma {:induction false} JoinConsHead(c: char, keys: seq<string>, sep: char)
    requires |keys| >= 1
    ensures Join([[c] + keys[0]] + keys[1..], sep) == [c] + Join(keys, sep)
  {
    var ks := [[c] + keys[0]] + keys[1..];
    assert ks[1..] == keys[1..];
  }

  /** Joining the keys of a path gives the path back. */
  lemma {:induction false} JoinSplit(s: string, sep: char)
    ensures Join(Split(s, sep), sep) == s
    decreases |s|
  {
    if |s| > 0 {
      var rest := Split(s[1..], sep);
      JoinSplit(s[1..], sep);
      if s[0] == sep {
        assert ([""] + rest)[1..] == rest;
        assert s == [sep] + s[1..];
      } else {
        JoinConsHead(s[0], rest, sep);
        assert s == [s[0]] + s[1..];
      }
    }
  }

  lemma {:induction false} SplitPrefix(w: string, r: string, sep: char)
    requires sep !in w
    ensures Split(w + r, sep) == [w + Split(r, sep)[0]] + Split(r, sep)[1..]
    decreases |w|
  {
    if |w| > 0 {
      var t := w + r;
      assert t[0] == w[0];
      assert t[1..] == w[1..] + r;
      SplitPrefix(w[1..], r, sep);
      assert [w[0]] + (w[1..] + Split(r, sep)[0]) == w + Split(r, sep)[0];
    } else {
      var keys := Split(r, sep);
      assert w + r == r;
      assert w + keys[0] == keys[0];
      assert [keys[0]] + keys[1..] == keys;
    }
  }

  /** A string without the separator is a single key. */
  lemma SplitWithoutSeparator(s: string, sep: char)
    ensures sep !in s ==> Split(s, sep) == [s]
  {
    if sep !in s {
      SplitPrefix(s, "", sep);
      assert s + "" == s;
    }
  }

  /** Splitting the path joined from separator-free keys gives those keys back. */
  lemma {:induction false} SplitJoin(keys: seq<string>, sep: char)
    requires |keys| >= 1 && NoSeparator(keys, sep)
    ensures Split(Join(keys, sep), sep) == keys
    decreases |keys|
  {
    if |keys| == 1 {
      SplitWithoutSeparator(keys[0], sep);
    } else {
      var tail := Join(keys[1..], sep);
      var r := [sep] + tail;
      SplitJoin(keys[1..], sep);
      SplitPrefix(keys[0], r, sep);
      assert r[0] == sep && r[1..] == tail;
      assert Split(r, sep) == [""] + keys[1..];
      assert Join(keys, sep) == keys[0] + r;
      assert keys[0] + "" == keys[0];
      assert keys == [keys[0]] + keys[1..];
    }
  }

  /**
    lodash `castPath`: a path string that names an own key of the object is
    that one key; any other string is split at '.'.
   */
  function CastPath(obj: JsVal, path: string): (keys: seq<string>)
    ensures |keys| >= 1
    ensures '.' !in path ==> keys == [path]
  {
    if obj.Obj? && path in obj.fields then [path]
    else
      SplitWithoutSeparator(path, '.');
      Split(path, '.')
  }

  // ---------------------------------------------------------------------
  // The walk and the lookup
  // ---------------------------------------------------------------------

  /**
    A property read `v[key]` on a value that is not nullish. Only own keys of
    objects are modelled; every other read yields `undefined`.
   */
  function Prop(v: JsVal, key: string): (r: JsVal)
    ensures r != Undefined ==> v.Obj? && key in v.fields
    ensures v.Obj? && key in v.fields ==> r == v.fields[key]
  {
    if v.Obj? && key in v.fields then v.fields[key] else Undefined
  }

  /** lodash `baseGet`: reads `path` key by key from `v`. */
  function Walk(v: JsVal, path: seq<string>): (r: JsVal)
    ensures |path| == 0 || v.IsNullish() ==> r == Undefined
    ensures r != Undefined ==> v.Obj? && path[0] in v.fields
    ensures |path| == 1 && !v.IsNullish() ==> r == Prop(v, path[0])
    decreases |path|
  {
    if |path| == 0 || v.IsNullish() then Undefined
    else
      var child := Prop(v, path[0]);
      if |path| == 1 then child else Walk(child, path[1..])
  }

  /** lodash `get(obj, path, defaultValue)`. */
  function Get(obj: JsVal, path: string, default: JsVal): (r: JsVal)
    ensures r == default || r != Undefined
    ensures r != default ==> r == Walk(obj, CastPath(obj, path))
    ensures Walk(obj, CastPath(obj, path)) != Undefined ==> r == Walk(obj, CastPath(obj, path))
  {
    var result := if obj.IsNullish() then Undefined else Walk(obj, CastPath(obj, path));
    if result.Undefined? then default else result
  }

  /** The object that holds `leaf` at `path`, and nothing else. */
  function Nest(path: seq<string>, leaf: JsVal): (v: JsVal)
    requires |path| >= 1
    ensures v.Obj? && v.fields.Keys == {path[0]}
    decreases |path|
  {
    if |path| == 1 then Obj(map[path[0] := leaf])
    else Obj(map[path[0] := Nest(path[1..], leaf)])
  }

  /** Walking a path through the object built along it finds the leaf. */
  lemma {:induction false} WalkNest(path: seq<string>, leaf: JsVal)
    requires |path| >= 1
    ensures Walk(Nest(path, leaf), path) == leaf
    decreases |path|
  {
    if |path| > 1 {
      WalkNest(path[1..], leaf);
    }
  }

  /** Walking `p + q` is walking `p` and then walking `q` from where `p` ended. */
  lemma {:induction false} WalkAppend(v: JsVal, p: seq<string>, q: seq<string>)
    requires |p| >= 1 && |q| >= 1
    ensures Walk(v, p + q) == Walk(Walk(v, p), q)
    decreases |p|
  {
    if !v.IsNullish() {
      assert (p + q)[0] == p[0];
      if |p| == 1 {
        assert (p + q)[1..] == q;
      } else {
        assert (p + q)[1..] == p[1..] + q;
        WalkAppend(Prop(v, p[0]), p[1..], q);
      }
    }
  }

  /** Nothing can be read from `null` or `undefined`. */
  lemma {:induction false} WalkFromNullish(v: JsVal, path: seq<string>)
    requires v.IsNullish()
    ensures Walk(v, path) == Undefined
  {
  }

  /**
    A walk that finds something passes only through objects that hold the next
    key; the thing found is what the last of them holds.
   */
  lemma {:induction false} WalkFoundThroughObjects(v: JsVal, path: seq<string>)
    requires Walk(v, path) != Undefined
    ensures |path| >= 1 && v.Obj? && path[0] in v.fields
    ensures |path| == 1 ==> Walk(v, path) == v.fields[path[0]]
    ensures |path| > 1 ==> Walk(v, path) == Walk(v.fields[path[0]], path[1..])
  {
  }

  /**
    A dotted path whose keys are free of '.' walks exactly those keys, unless
    the whole path string is itself an own key of the object.
   */
  lemma DottedPath(obj: JsVal, keys: seq<string>)
    requires |keys| >= 1 && NoSeparator(keys, '.')
    requires |keys| == 1 || !(obj.Obj? && Join(keys, '.') in obj.fields)
    ensures CastPath(obj, Join(keys, '.')) == keys
  {
    SplitJoin(keys, '.');
  }
}
