/**
  Where a document's lists are.  Every object of a document has a key path, and a header crashes only at a list
  on the path of an array-of-tables header that does not end in a table.  So a document that assigns no array
  at such a path never makes the reader fail with anything but a decode error.
 */
module TomlPaths {
  import opened Wrappers
  import opened TomlText
  import opened TomlValue
  import opened TomlDocument
  import opened TomlRun

  type Path = seq<string>

  /** The path of what slot `i` of an object holds: below a table its key, in a list the list's own path. */
  function Under(o: Obj, p: Path, i: nat): Path {
    if o.Dict? && i < |o.keys| then p + [o.keys[i]] else p
  }

  /** `paths` gives each object its path from the root; lists on the paths `arrays` end in a table. */
  ghost predicate Placed(arrays: set<Path>, s: Store, paths: seq<Path>) {
    && |paths| == |s|
    && (forall a | 0 <= a < |s| :: s[a].Dict? ==> |s[a].keys| == |s[a].slots|)
    && (forall a: nat, i: nat, t: nat | Points(s, a, i, t) :: t < |s| && paths[t] == Under(s[a], paths[a], i))
    && (forall a | 0 <= a < |s| :: s[a].List? && paths[a] in arrays ==> LastTable(s, s[a]).Some?)
  }

  lemma PlacedNew(arrays: set<Path>, s: Store, paths: seq<Path>, o: Obj, p: Path)
    requires Placed(arrays, s, paths)
    requires o.Dict? ==> |o.keys| == |o.slots|
    requires o.List? && p in arrays ==> LastTable(s, o).Some?
    requires forall i | 0 <= i < |o.slots| :: o.slots[i].Ptr? ==> o.slots[i].address < |s| && paths[o.slots[i].address] == Under(o, p, i)
    ensures Placed(arrays, s + [o], paths + [p])
  {
    var s', paths' := s + [o], paths + [p];
    forall a: nat, i: nat, t: nat | Points(s', a, i, t) ensures t < |s'| && paths'[t] == Under(s'[a], paths'[a], i) {
      if a < |s| {
        assert s'[a] == s[a] && Points(s, a, i, t);
      } else {
        assert o.slots[i] == Ptr(t);
      }
    }
    forall a | 0 <= a < |s'| ensures s'[a].List? && paths'[a] in arrays ==> LastTable(s', s'[a]).Some? {
      if a < |s| { assert s'[a] == s[a] && paths'[a] == paths[a]; }
    }
  }

  lemma PlacedKey(arrays: set<Path>, s: Store, paths: seq<Path>, a: nat, k: string, r: Ref)
    requires Placed(arrays, s, paths) && a < |s| && s[a].Dict?
    requires r.Ptr? ==> r.address < |s| && paths[r.address] == paths[a] + [k]
    ensures Placed(arrays, WithKey(s, a, k, r), paths)
  {
    var s' := WithKey(s, a, k, r);
    forall b: nat, i: nat, t: nat | Points(s', b, i, t) ensures t < |s'| && paths[t] == Under(s'[b], paths[b], i) {
      if b == a && i == |s[a].slots| {
        assert s'[a].keys[i] == k;
      } else {
        assert Points(s, b, i, t);
        assert Under(s'[b], paths[b], i) == Under(s[b], paths[b], i);
      }
    }
  }

  lemma PlacedItem(arrays: set<Path>, s: Store, paths: seq<Path>, a: nat, t: nat)
    requires Placed(arrays, s, paths) && a < |s| && s[a].List? && t < |s| && s[t].Dict? && paths[t] == paths[a]
    ensures Placed(arrays, WithItem(s, a, Ptr(t)), paths)
  {
    var s' := WithItem(s, a, Ptr(t));
    forall b: nat, i: nat, u: nat | Points(s', b, i, u) ensures u < |s'| && paths[u] == Under(s'[b], paths[b], i) {
      if !(b == a && i == |s[a].slots|) { assert Points(s, b, i, u); }
    }
    forall b | 0 <= b < |s'| ensures s'[b].List? && paths[b] in arrays ==> LastTable(s', s'[b]).Some? {
      if b != a { assert s'[b] == s[b]; }
    }
  }

  lemma PlacedTable(arrays: set<Path>, s: Store, paths: seq<Path>, a: nat, k: string)
    requires Placed(arrays, s, paths) && a < |s| && s[a].Dict?
    ensures Placed(arrays, WithTable(s, a, k), paths + [paths[a] + [k]])
  {
    var o := Dict([], []);
    PlacedNew(arrays, s, paths, o, paths[a] + [k]);
    PlacedKey(arrays, s + [o], paths + [paths[a] + [k]], a, k, Ptr(|s|));
  }

  // ---------------------------------------------------------------------------------
  // Assignments
  // ---------------------------------------------------------------------------------

  /** The value puts no array on the paths `arrays` when stored at `p`; items of an array are at its path. */
  predicate Clean(arrays: set<Path>, p: Path, v: Value)
    decreases v
  {
    match v
    case Array(items) => p !in arrays && forall i | 0 <= i < |items| :: Clean(arrays, p, items[i])
    case Table(keys, values) =>
      |keys| == |values| && forall i | 0 <= i < |values| :: Clean(arrays, p + [keys[i]], values[i])
    case _ => true
  }

  lemma {:induction false} InstallPlaced(arrays: set<Path>, s: Store, paths: seq<Path>, p: Path, v: Value)
    returns (more: seq<Path>)
    requires Placed(arrays, s, paths) && Clean(arrays, p, v)
    ensures Placed(arrays, Install(s, v).0, more) && paths <= more
    ensures var r := Install(s, v).1; r.Ptr? ==> r.address < |more| && more[r.address] == p
    decreases v, 1
  {
    match v
    case Array(items) =>
      more := InstallAllPlaced(arrays, s, paths, seq(|items|, _ => p), items);
      var (s', rs) := InstallAll(s, items);
      PlacedNew(arrays, s', more, List(rs), p);
      more := more + [p];
    case Table(keys, values) =>
      var ps := seq(|values|, i requires 0 <= i < |values| => p + [keys[i]]);
      more := InstallAllPlaced(arrays, s, paths, ps, values);
      var (s', rs) := InstallAll(s, values);
      PlacedNew(arrays, s', more, Dict(keys, rs), p);
      more := more + [p];
    case _ =>
      more := paths;
  }

  lemma {:induction false} InstallAllPlaced(arrays: set<Path>, s: Store, paths: seq<Path>, ps: seq<Path>, vs: seq<Value>)
    returns (more: seq<Path>)
    requires Placed(arrays, s, paths) && |ps| == |vs| && forall i | 0 <= i < |vs| :: Clean(arrays, ps[i], vs[i])
    ensures Placed(arrays, InstallAll(s, vs).0, more) && paths <= more && |InstallAll(s, vs).1| == |vs|
    ensures forall i | 0 <= i < |vs| ::
              var r := InstallAll(s, vs).1[i]; r.Ptr? ==> r.address < |more| && more[r.address] == ps[i]
    decreases vs, 0
  {
    if vs == [] {
      more := paths;
    } else {
      var one := InstallPlaced(arrays, s, paths, ps[0], vs[0]);
      var s' := Install(s, vs[0]).0;
      more := InstallAllPlaced(arrays, s', one, ps[1..], vs[1..]);
      var rs := InstallAll(s, vs).1;
      forall i | 0 <= i < |vs| ensures rs[i].Ptr? ==> rs[i].address < |more| && more[rs[i].address] == ps[i] {
        if i > 0 { assert rs[i] == InstallAll(s', vs[1..]).1[i - 1] && ps[1..][i - 1] == ps[i]; }
      }
    }
  }

  /** What a key of a table holds is at the table's path and the key. */
  lemma SlotPlaced(arrays: set<Path>, s: Store, paths: seq<Path>, a: nat, k: string)
    requires Placed(arrays, s, paths) && a < |s| && Slot(s[a], k).Some? && Slot(s[a], k).value.Ptr?
    ensures Slot(s[a], k).value.address < |s| && paths[Slot(s[a], k).value.address] == paths[a] + [k]
  {
    var i := Index(s[a].keys, k);
    assert Points(s, a, i, Slot(s[a], k).value.address);
  }

  lemma {:induction false} AssignPlaced(arrays: set<Path>, s: Store, paths: seq<Path>, a: nat, path: Path, v: Value)
    returns (more: seq<Path>)
    requires Placed(arrays, s, paths) && a < |s| && s[a].Dict? && path != [] && AssignAt(s, a, path, v).Ok?
    requires Clean(arrays, paths[a] + path, v)
    ensures Placed(arrays, AssignAt(s, a, path, v).value, more) && paths <= more
    decreases |path|
  {
    var slot := Slot(s[a], path[0]);
    if |path| == 1 {
      assert path == [path[0]];
      more := InstallPlaced(arrays, s, paths, paths[a] + path, v);
      var (s', r) := Install(s, v);
      PlacedKey(arrays, s', more, a, path[0], r);
    } else {
      assert paths[a] + [path[0]] + path[1..] == paths[a] + path;
      if slot.None? {
        PlacedTable(arrays, s, paths, a, path[0]);
        more := AssignPlaced(arrays, WithTable(s, a, path[0]), paths + [paths[a] + [path[0]]], |s|, path[1..], v);
      } else {
        SlotPlaced(arrays, s, paths, a, path[0]);
        more := AssignPlaced(arrays, s, paths, slot.value.address, path[1..], v);
      }
    }
  }

  // ---------------------------------------------------------------------------------
  // Headers
  // ---------------------------------------------------------------------------------

  /** Walking into a list ends in its last table, which is at the list's path. */
  lemma EnterPlaced(arrays: set<Path>, s: Store, paths: seq<Path>, remembered: set<Path>, here: Path, a: nat)
    requires Placed(arrays, s, paths) && remembered <= arrays && a < |s| && here != []
    requires here == paths[a] + [here[|here| - 1]]
    ensures WalkStep(s, remembered, here, a) != Stuck(Crash)
    ensures WalkStep(s, remembered, here, a).Enter? ==> paths[WalkStep(s, remembered, here, a).address] == here
  {
    var slot := Slot(s[a], here[|here| - 1]);
    if slot.Some? && slot.value.Ptr? {
      SlotPlaced(arrays, s, paths, a, here[|here| - 1]);
      var b := slot.value.address;
      if s[b].List? && here in remembered {
        var i := |s[b].slots| - 1;
        assert Points(s, b, i, LastTable(s, s[b]).value);
      }
    }
  }

  lemma {:induction false} DescendPlaced(arrays: set<Path>, s: Store, paths: seq<Path>, remembered: set<Path>, a: nat, parts: Path)
    returns (more: seq<Path>)
    requires Placed(arrays, s, paths) && remembered <= arrays && a < |s| && s[a].Dict?
    ensures Descend(s, remembered, paths[a], a, parts) != Err(Crash)
    ensures Descend(s, remembered, paths[a], a, parts).Ok? ==>
              var r := Descend(s, remembered, paths[a], a, parts).value;
              Placed(arrays, r.0, more) && paths <= more && r.1 < |more| && more[r.1] == paths[a] + parts
    decreases |parts|
  {
    more := paths;
    if parts == [] {
      assert paths[a] + parts == paths[a];
    } else {
      var here := paths[a] + [parts[0]];
      EnterPlaced(arrays, s, paths, remembered, here, a);
      assert here + parts[1..] == paths[a] + parts;
      match WalkStep(s, remembered, here, a)
      case Create =>
        PlacedTable(arrays, s, paths, a, parts[0]);
        more := DescendPlaced(arrays, WithTable(s, a, parts[0]), paths + [here], remembered, |s|, parts[1..]);
      case Enter(b) =>
        more := DescendPlaced(arrays, s, paths, remembered, b, parts[1..]);
      case Stuck(_) =>
    }
  }

  lemma OpenPlaced(arrays: set<Path>, d: Doc, s: Store, paths: seq<Path>, a: nat, path: Path, isArray: bool)
    returns (more: seq<Path>)
    requires Placed(arrays, s, paths) && a < |s| && s[a].Dict? && path != [] && paths[a] == path[..|path| - 1]
    requires OpenIn(d, s, a, path, isArray).Ok?
    ensures var d' := OpenIn(d, s, a, path, isArray).value;
            Placed(arrays, d'.store, more) && paths <= more && d'.current < |more| && more[d'.current] == path
  {
    var name := path[|path| - 1];
    assert path == paths[a] + [name];
    var slot := Slot(s[a], name);
    if slot.Some? {
      SlotPlaced(arrays, s, paths, a, name);
    }
    if isArray {
      PlacedNew(arrays, s, paths, Dict([], []), path);
      more := paths + [path];
      if slot.None? {
        var s' := s + [Dict([], [])];
        PlacedNew(arrays, s', more, List([Ptr(|s|)]), path);
        assert s' + [List([Ptr(|s|)])] == s + [Dict([], []), List([Ptr(|s|)])];
        more := more + [path];
        PlacedKey(arrays, s' + [List([Ptr(|s|)])], more, a, name, Ptr(|s| + 1));
      } else {
        PlacedItem(arrays, s + [Dict([], [])], more, slot.value.address, |s|);
      }
    } else if slot.None? {
      PlacedTable(arrays, s, paths, a, name);
      more := paths + [path];
    } else {
      more := paths;
    }
  }

  // ---------------------------------------------------------------------------------
  // Runs
  // ---------------------------------------------------------------------------------

  /** The document's objects have paths, its current table the path `base`. */
  ghost predicate DocPlaced(arrays: set<Path>, d: Doc, paths: seq<Path>, base: Path) {
    && Runnable(d) && Placed(arrays, d.store, paths) && d.arrayTables <= arrays
    && paths[0] == [] && paths[d.current] == base
  }

  lemma EmptyPlaced(arrays: set<Path>)
    ensures DocPlaced(arrays, EMPTY, [[]], [])
  {
  }

  /** The paths of the array-of-tables headers. */
  function ArrayPaths(stmts: seq<Stmt>): set<Path> {
    set i | 0 <= i < |stmts| && stmts[i].Header? && stmts[i].isArray :: stmts[i].path
  }

  /** The table that statements assign into after a statement: that of the last header. */
  function BaseAfter(base: Path, stmt: Stmt): Path {
    if stmt.Header? then stmt.path else base
  }

  /** No statement assigns an array on the paths `arrays`, counting from the table at `base`. */
  predicate CleanFrom(arrays: set<Path>, base: Path, stmts: seq<Stmt>)
    decreases |stmts|
  {
    stmts == [] ||
    ((stmts[0].KeyValue? ==> Clean(arrays, base + stmts[0].path, stmts[0].value)) &&
     CleanFrom(arrays, BaseAfter(base, stmts[0]), stmts[1..]))
  }

  lemma {:induction false} PlacedRunNeverCrashes(arrays: set<Path>, d: Doc, paths: seq<Path>, base: Path, stmts: seq<Stmt>)
    requires DocPlaced(arrays, d, paths, base) && CleanFrom(arrays, base, stmts) && ArrayPaths(stmts) <= arrays
    requires forall i | 0 <= i < |stmts| :: stmts[i].path != []
    ensures RunAll(d, stmts) != Err(Crash)
    decreases |stmts|
  {
    if stmts != [] {
      StatementNeverCrashes(arrays, d, paths, base, stmts[0]);
      if Exec(d, stmts[0]).Ok? {
        assert stmts[0].Header? && stmts[0].isArray ==> stmts[0].path in ArrayPaths(stmts);
        var more := StatementPlaced(arrays, d, paths, base, stmts[0]);
        ArrayPathsTail(stmts);
        PlacedRunNeverCrashes(arrays, Exec(d, stmts[0]).value, more, BaseAfter(base, stmts[0]), stmts[1..]);
      }
    }
  }

  lemma ArrayPathsTail(stmts: seq<Stmt>)
    requires stmts != []
    ensures ArrayPaths(stmts[1..]) <= ArrayPaths(stmts)
  {
    forall p | p in ArrayPaths(stmts[1..]) ensures p in ArrayPaths(stmts) {
      var i :| 0 <= i < |stmts| - 1 && stmts[1..][i].Header? && stmts[1..][i].isArray && stmts[1..][i].path == p;
      assert stmts[i + 1] == stmts[1..][i];
    }
  }

  lemma StatementNeverCrashes(arrays: set<Path>, d: Doc, paths: seq<Path>, base: Path, stmt: Stmt)
    requires DocPlaced(arrays, d, paths, base) && stmt.path != []
    ensures Exec(d, stmt) != Err(Crash)
  {
    match stmt
    case KeyValue(path, v) => AssignNeverCrashes(d.store, d.current, path, v);
    case Header(path, _) =>
      var walked := DescendPlaced(arrays, d.store, paths, d.arrayTables, 0, path[..|path| - 1]);
  }

  /**
    A document that assigns no array at the path of one of its array-of-tables headers is read or refused with
    a decode error, whatever its statements: the crash needs such an assignment.
   */
  lemma CleanDocumentNeverCrashes(stmts: seq<Stmt>)
    requires forall i | 0 <= i < |stmts| :: stmts[i].path != []
    requires CleanFrom(ArrayPaths(stmts), [], stmts)
    ensures RunAll(EMPTY, stmts) != Err(Crash)
  {
    EmptyPlaced(ArrayPaths(stmts));
    PlacedRunNeverCrashes(ArrayPaths(stmts), EMPTY, [[]], [], stmts);
  }

  lemma StatementPlaced(arrays: set<Path>, d: Doc, paths: seq<Path>, base: Path, stmt: Stmt) returns (more: seq<Path>)
    requires DocPlaced(arrays, d, paths, base) && stmt.path != [] && Exec(d, stmt).Ok?
    requires stmt.KeyValue? ==> Clean(arrays, base + stmt.path, stmt.value)
    requires stmt.Header? && stmt.isArray ==> stmt.path in arrays
    ensures DocPlaced(arrays, Exec(d, stmt).value, more, BaseAfter(base, stmt))
  {
    if stmt.KeyValue? {
      more := AssignPlaced(arrays, d.store, paths, d.current, stmt.path, stmt.value);
    } else {
      more := HeaderPlaced(arrays, d, paths, stmt);
    }
  }

  lemma HeaderPlaced(arrays: set<Path>, d: Doc, paths: seq<Path>, stmt: Stmt) returns (more: seq<Path>)
    requires Runnable(d) && stmt.path != [] && stmt.Header? && Exec(d, stmt).Ok?
    requires Placed(arrays, d.store, paths) && d.arrayTables <= arrays && paths[0] == []
    ensures var d' := Exec(d, stmt).value;
            && Placed(arrays, d'.store, more) && d'.current < |more| && more[d'.current] == stmt.path
            && d'.arrayTables <= d.arrayTables + (if stmt.isArray then {stmt.path} else {})
    ensures paths <= more
  {
    var parts := stmt.path[..|stmt.path| - 1];
    var walked := DescendPlaced(arrays, d.store, paths, d.arrayTables, 0, parts);
    assert [] + parts == parts;
    var at := Descend(d.store, d.arrayTables, [], 0, parts).value;
    more := OpenPlaced(arrays, d, at.0, walked, at.1, stmt.path, stmt.isArray);
  }
}
