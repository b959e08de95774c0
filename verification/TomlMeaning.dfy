/**
  What a TOML document means, without objects: statements edit a nested table.  This is the simple form that
  the objects of scripts/toml_reader.py, updated in place, are proved to refine in `TomlRefine`.
 */
module TomlMeaning {
  import opened Wrappers
  import opened TomlText
  import opened TomlValue
  import opened TomlDocument

  const NO_KEYS: Value := Table([], [])

  /** The table a header walks into: the value itself, or the last element of an array. */
  function Inner(v: Value): Option<Value> {
    if v.Table? then Some(v)
    else if v.Array? && v.items != [] && v.items[|v.items| - 1].Table? then Some(v.items[|v.items| - 1])
    else None
  }

  /** The same value with that table replaced. */
  function Back(v: Value, t: Value): Value
    requires Inner(v).Some?
  {
    if v.Table? then t else Array(v.items[|v.items| - 1 := t])
  }

  lemma BackIsWellFormed(v: Value, t: Value)
    requires Inner(v).Some? && WellFormed(v) && WellFormed(t)
    ensures WellFormed(Back(v, t)) && WellFormed(Inner(v).value)
  {
  }

  function WithValue(t: Value, i: nat, v: Value): (r: Value)
    requires t.Table? && WellFormed(t) && i < |t.values| && WellFormed(v)
    ensures r.Table? && WellFormed(r)
  {
    Table(t.keys, t.values[i := v])
  }

  function WithBinding(t: Value, k: string, v: Value): (r: Value)
    requires t.Table? && WellFormed(t) && k !in t.keys && WellFormed(v)
    ensures r.Table? && WellFormed(r)
  {
    Table(t.keys + [k], t.values + [v])
  }

  /** The table at a path, the last element of each array on it. */
  function Focus(t: Value, base: seq<string>): Option<Value>
    requires t.Table? && WellFormed(t)
    ensures Focus(t, base).Some? ==> Focus(t, base).value.Table? && WellFormed(Focus(t, base).value)
    decreases |base|
  {
    if base == [] then Some(t)
    else
      var i := Index(t.keys, base[0]);
      if i == |t.keys| || Inner(t.values[i]).None? then None
      else
        BackIsWellFormed(t.values[i], NO_KEYS);
        Focus(Inner(t.values[i]).value, base[1..])
  }

  /** An assignment in the table at `base`. */
  function Edit(t: Value, base: seq<string>, path: seq<string>, x: Value): (r: Result<Value, Fault>)
    requires t.Table? && WellFormed(t) && WellFormed(x) && path != [] && Focus(t, base).Some?
    ensures r.Ok? ==> r.value.Table? && WellFormed(r.value)
    decreases |base|
  {
    if base == [] then Assign(t, path, x)
    else
      var i := Index(t.keys, base[0]);
      BackIsWellFormed(t.values[i], NO_KEYS);
      match Edit(Inner(t.values[i]).value, base[1..], path, x)
      case Err(f) => Err(f)
      case Ok(c) =>
        BackIsWellFormed(t.values[i], c);
        Ok(WithValue(t, i, Back(t.values[i], c)))
  }

  /** The paths of the headers seen so far: plain ones, and those of arrays of tables. */
  datatype Seen = Seen(plain: set<seq<string>>, arrays: set<seq<string>>)

  /** The last part of a header, in the table that holds it. */
  function OpenHere(t: Value, seen: Seen, path: seq<string>, isArray: bool): (r: Result<Value, Fault>)
    requires t.Table? && WellFormed(t) && path != []
    ensures r.Ok? ==> r.value.Table? && WellFormed(r.value)
  {
    var name := path[|path| - 1];
    var i := Index(t.keys, name);
    if isArray then
      if i == |t.keys| then Ok(WithBinding(t, name, Array([NO_KEYS])))
      else if t.values[i].Array? && path in seen.arrays then
        assert WellFormed(t.values[i]);
        Ok(WithValue(t, i, Array(t.values[i].items + [NO_KEYS])))
      else Err(Redefined)
    else if path in seen.plain || path in seen.arrays then Err(Redefined)
    else if i == |t.keys| then Ok(WithBinding(t, name, NO_KEYS))
    else if t.values[i].Table? then Ok(t)
    else Err(Redefined)
  }

  /** A header, from the table at the path `walked`. */
  function Open(t: Value, seen: Seen, walked: seq<string>, parts: seq<string>, isArray: bool): (r: Result<Value, Fault>)
    requires t.Table? && WellFormed(t) && parts != []
    ensures r.Ok? ==> r.value.Table? && WellFormed(r.value)
    decreases |parts|
  {
    var here := walked + [parts[0]];
    var i := Index(t.keys, parts[0]);
    if |parts| == 1 then OpenHere(t, seen, here, isArray)
    else if i == |t.keys| then
      match Open(NO_KEYS, seen, here, parts[1..], isArray)
      case Err(f) => Err(f)
      case Ok(c) => Ok(WithBinding(t, parts[0], c))
    else if t.values[i].Array? && here !in seen.arrays then Err(NotATable)
    else if Inner(t.values[i]).None? then Err(if t.values[i].Array? then Crash else NotATable)
    else
      BackIsWellFormed(t.values[i], NO_KEYS);
      match Open(Inner(t.values[i]).value, seen, here, parts[1..], isArray)
      case Err(f) => Err(f)
      case Ok(c) =>
        BackIsWellFormed(t.values[i], c);
        Ok(WithValue(t, i, Back(t.values[i], c)))
  }

  /** A document so far: its table, and the path of the last header. */
  datatype Draft = Draft(root: Value, base: seq<string>, seen: Seen)

  const BLANK: Draft := Draft(NO_KEYS, [], Seen({}, {}))


  ghost predicate Editable(m: Draft) {
    m.root.Table? && WellFormed(m.root) && Focus(m.root, m.base).Some?
  }

  function SeenAfter(seen: Seen, path: seq<string>, isArray: bool): Seen {
    if isArray then Seen(seen.plain, seen.arrays + {path}) else Seen(seen.plain + {path}, seen.arrays)
  }

  /** After an assignment the table at the path is still there. */
  lemma {:induction false} EditKeepsFocus(t: Value, base: seq<string>, path: seq<string>, x: Value)
    requires t.Table? && WellFormed(t) && WellFormed(x) && path != [] && Focus(t, base).Some? && Edit(t, base, path, x).Ok?
    ensures Focus(Edit(t, base, path, x).value, base).Some?
    decreases |base|
  {
    if base != [] {
      var i := Index(t.keys, base[0]);
      BackIsWellFormed(t.values[i], NO_KEYS);
      EditKeepsFocus(Inner(t.values[i]).value, base[1..], path, x);
    }
  }

  lemma AddedIndex(keys: seq<string>, k: string)
    requires k !in keys
    ensures Index(keys + [k], k) == |keys|
  {
    assert (keys + [k])[|keys|] == k && forall j | 0 <= j < |keys| :: (keys + [k])[j] == keys[j];
  }

  /** A header that is opened has a table at its path. */
  lemma {:induction false} OpenHasFocus(t: Value, seen: Seen, walked: seq<string>, parts: seq<string>, isArray: bool)
    requires t.Table? && WellFormed(t) && parts != [] && Open(t, seen, walked, parts, isArray).Ok?
    ensures Focus(Open(t, seen, walked, parts, isArray).value, parts).Some?
    decreases |parts|
  {
    var here, i := walked + [parts[0]], Index(t.keys, parts[0]);
    var w := Open(t, seen, walked, parts, isArray).value;
    if |parts| == 1 {
      OpenHereHasFocus(t, seen, here, isArray);
      assert parts == [parts[0]] && here[|here| - 1] == parts[0];
    } else if i == |t.keys| {
      OpenHasFocus(NO_KEYS, seen, here, parts[1..], isArray);
      AddedIndex(t.keys, parts[0]);
      FocusSteps(w, parts, Open(NO_KEYS, seen, here, parts[1..], isArray).value);
    } else {
      BackIsWellFormed(t.values[i], NO_KEYS);
      OpenHasFocus(Inner(t.values[i]).value, seen, here, parts[1..], isArray);
      FocusSteps(w, parts, Open(Inner(t.values[i]).value, seen, here, parts[1..], isArray).value);
    }
  }

  lemma FocusSteps(t: Value, parts: seq<string>, c: Value)
    requires t.Table? && WellFormed(t) && parts != [] && c.Table? && WellFormed(c) && Focus(c, parts[1..]).Some?
    requires var i := Index(t.keys, parts[0]); i < |t.keys| && Inner(t.values[i]) == Some(c)
    ensures Focus(t, parts).Some?
  {
  }

  lemma OpenHereHasFocus(t: Value, seen: Seen, path: seq<string>, isArray: bool)
    requires t.Table? && WellFormed(t) && path != [] && OpenHere(t, seen, path, isArray).Ok?
    ensures Focus(OpenHere(t, seen, path, isArray).value, [path[|path| - 1]]).Some?
  {
    var name := path[|path| - 1];
    var w := OpenHere(t, seen, path, isArray).value;
    if Index(t.keys, name) == |t.keys| { AddedIndex(t.keys, name); }
    var c := Inner(w.values[Index(w.keys, name)]).value;
    assert [name][1..] == [];
    FocusSteps(w, [name], c);
  }

  /** What a statement does to the draft. */
  ghost function Perform(m: Draft, stmt: Stmt): (r: Result<Draft, Fault>)
    requires Editable(m) && stmt.path != [] && (stmt.KeyValue? ==> WellFormed(stmt.value))
    ensures r.Ok? ==> Editable(r.value)
  {
    match stmt
    case KeyValue(path, x) =>
      (match Edit(m.root, m.base, path, x)
       case Err(f) => Err(f)
       case Ok(t) =>
         EditKeepsFocus(m.root, m.base, path, x);
         Ok(Draft(t, m.base, m.seen)))
    case Header(path, isArray) =>
      match Open(m.root, m.seen, [], path, isArray)
      case Err(f) => Err(f)
      case Ok(t) =>
        OpenHasFocus(m.root, m.seen, [], path, isArray);
        Ok(Draft(t, path, SeenAfter(m.seen, path, isArray)))
  }

  ghost predicate Legal(stmts: seq<Stmt>) {
    forall i | 0 <= i < |stmts| :: stmts[i].path != [] && (stmts[i].KeyValue? ==> WellFormed(stmts[i].value))
  }

  /** Statements in order, up to the first that is refused. */
  ghost function Performed(m: Draft, stmts: seq<Stmt>): (r: Result<Draft, Fault>)
    requires Editable(m) && Legal(stmts)
    ensures r.Ok? ==> Editable(r.value)
    decreases |stmts|
  {
    if stmts == [] then Ok(m)
    else
      match Perform(m, stmts[0])
      case Err(f) => Err(f)
      case Ok(m') => Performed(m', stmts[1..])
  }
}
