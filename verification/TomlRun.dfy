/**
  The statements of scripts/toml_reader.py, assignments and table headers, over the
  document store, and what every run of statements keeps.
 */
module TomlRun {
  import opened Wrappers
  import opened TomlText
  import opened TomlValue
  import opened TomlDocument

  /** The reference under a key, if the object is a table that has it. */
  function Slot(o: Obj, k: string): Option<Ref> {
    if o.Dict? && Index(o.keys, k) < |o.keys| && Index(o.keys, k) < |o.slots| then Some(o.slots[Index(o.keys, k)])
    else None
  }

  predicate IsDict(s: Store, r: Ref) {
    r.Ptr? && r.address < |s| && s[r.address].Dict?
  }

  predicate IsList(s: Store, r: Ref) {
    r.Ptr? && r.address < |s| && s[r.address].List?
  }

  /** A new empty table under key `k` of the table at `a`; its address is `|s|`. */
  function WithTable(s: Store, a: nat, k: string): (s': Store)
    requires a < |s| && s[a].Dict?
    ensures |s'| == |s| + 1 && s'[|s|] == Dict([], [])
  {
    WithKey(s + [Dict([], [])], a, k, Ptr(|s|))
  }

  /** Tables stay tables and lists stay lists. */
  predicate KeepsKinds(s: Store, s': Store) {
    |s| <= |s'| && forall a | 0 <= a < |s| :: s[a].Dict? == s'[a].Dict?
  }

  function AssignAt(s: Store, a: nat, path: seq<string>, v: Value): (r: Result<Store, Fault>)
    requires a < |s| && s[a].Dict? && path != []
    ensures r.Ok? ==> KeepsKinds(s, r.value)
    decreases |path|
  {
    var slot := Slot(s[a], path[0]);
    if |path| == 1 then
      if slot.Some? then Err(DuplicateKey)
      else
        var (s', r) := Install(s, v);
        assert s'[a] == s[a];
        Ok(WithKey(s', a, path[0], r))
    else if slot.None? then AssignAt(WithTable(s, a, path[0]), |s|, path[1..], v)
    else if IsDict(s, slot.value) then AssignAt(s, slot.value.address, path[1..], v)
    else Err(NotATable)
  }

  /** The table that ends a list, where a header descends into an array of tables. */
  function LastTable(s: Store, o: Obj): Option<nat> {
    if o.List? && o.slots != [] && IsDict(s, o.slots[|o.slots| - 1]) then Some(o.slots[|o.slots| - 1].address)
    else None
  }

  /** One step of a header's walk; `here` is the path walked so far, this part included. */
  datatype Step = Create | Enter(address: nat) | Stuck(fault: Fault)

  function WalkStep(s: Store, arrays: set<seq<string>>, here: seq<string>, a: nat): (step: Step)
    requires a < |s| && here != []
    ensures step.Enter? ==> step.address < |s| && s[step.address].Dict?
  {
    var slot := Slot(s[a], here[|here| - 1]);
    if slot.None? then Create
    else if IsList(s, slot.value) then
      if here !in arrays then Stuck(NotATable)
      else
        match LastTable(s, s[slot.value.address])
        case Some(b) => Enter(b)
        case None => Stuck(Crash)
    else if IsDict(s, slot.value) then Enter(slot.value.address)
    else Stuck(NotATable)
  }

  function Descend(s: Store, arrays: set<seq<string>>, walked: seq<string>, a: nat, parts: seq<string>):
    (r: Result<(Store, nat), Fault>)
    requires a < |s| && s[a].Dict?
    ensures r.Ok? ==> r.value.1 < |r.value.0| && r.value.0[r.value.1].Dict? && KeepsKinds(s, r.value.0)
    decreases |parts|
  {
    if parts == [] then Ok((s, a))
    else
      var here := walked + [parts[0]];
      match WalkStep(s, arrays, here, a)
      case Create => Descend(WithTable(s, a, parts[0]), arrays, here, |s|, parts[1..])
      case Enter(b) => Descend(s, arrays, here, b, parts[1..])
      case Stuck(f) => Err(f)
  }

  /** The effect of a header in the table that holds its last part. */
  function OpenIn(d: Doc, s: Store, a: nat, path: seq<string>, isArray: bool): (r: Result<Doc, Fault>)
    requires a < |s| && s[a].Dict? && path != []
    ensures r.Ok? ==> KeepsKinds(s, r.value.store) && r.value.current < |r.value.store| &&
                      r.value.store[r.value.current].Dict?
  {
    var name := path[|path| - 1];
    var slot := Slot(s[a], name);
    if isArray then
      if slot.None? then
        var s' := s + [Dict([], []), List([Ptr(|s|)])];
        Ok(Doc(WithKey(s', a, name, Ptr(|s| + 1)), |s|, d.explicitTables, d.arrayTables + {path}))
      else if IsList(s, slot.value) && path in d.arrayTables then
        var s' := s + [Dict([], [])];
        Ok(Doc(WithItem(s', slot.value.address, Ptr(|s|)), |s|, d.explicitTables, d.arrayTables))
      else Err(Redefined)
    else if path in d.explicitTables || path in d.arrayTables then Err(Redefined)
    else if slot.None? then
      Ok(Doc(WithTable(s, a, name), |s|, d.explicitTables + {path}, d.arrayTables))
    else if IsDict(s, slot.value) then
      Ok(Doc(s, slot.value.address, d.explicitTables + {path}, d.arrayTables))
    else Err(Redefined)
  }

  predicate Runnable(d: Doc) {
    && d.store != [] && d.store[0].Dict?
    && d.current < |d.store| && d.store[d.current].Dict?
  }

  function OpenTable(d: Doc, path: seq<string>, isArray: bool): (r: Result<Doc, Fault>)
    requires d.store != [] && d.store[0].Dict? && path != []
    ensures r.Ok? ==> Runnable(r.value)
  {
    match Descend(d.store, d.arrayTables, [], 0, path[..|path| - 1])
    case Err(f) => Err(f)
    case Ok(at) => OpenIn(d, at.0, at.1, path, isArray)
  }

  function Exec(d: Doc, stmt: Stmt): (r: Result<Doc, Fault>)
    requires Runnable(d) && stmt.path != []
    ensures r.Ok? ==> Runnable(r.value)
  {
    match stmt
    case KeyValue(path, v) =>
      (match AssignAt(d.store, d.current, path, v)
       case Err(f) => Err(f)
       case Ok(s) => Ok(d.(store := s)))
    case Header(path, isArray) => OpenTable(d, path, isArray)
  }

  // ---------------------------------------------------------------------------------
  // Reachability
  // ---------------------------------------------------------------------------------

  /** The object reached from `a` by following slots by position. */
  function Follow(s: Store, a: nat, steps: seq<nat>): Option<nat>
    decreases |steps|
  {
    if a >= |s| then None
    else if steps == [] then Some(a)
    else if steps[0] < |s[a].slots| && s[a].slots[steps[0]].Ptr? then
      Follow(s, s[a].slots[steps[0]].address, steps[1..])
    else None
  }

  ghost predicate Reachable(s: Store, b: nat) {
    exists steps :: Follow(s, 0, steps) == Some(b)
  }

  lemma {:induction false} FollowGrows(s: Store, s': Store, a: nat, steps: seq<nat>)
    requires Grows(s, s') && Follow(s, a, steps).Some?
    ensures Follow(s', a, steps) == Follow(s, a, steps)
    decreases |steps|
  {
    if steps != [] {
      assert ObjGrows(s[a], s'[a]);
      FollowGrows(s, s', s[a].slots[steps[0]].address, steps[1..]);
    }
  }

  lemma ReachableGrows(s: Store, s': Store, b: nat)
    requires Grows(s, s') && Reachable(s, b)
    ensures Reachable(s', b)
  {
    var steps :| Follow(s, 0, steps) == Some(b);
    FollowGrows(s, s', 0, steps);
  }

  lemma {:induction false} FollowOneMore(s: Store, a: nat, steps: seq<nat>, b: nat, i: nat, c: nat)
    requires Follow(s, a, steps) == Some(b) && Points(s, b, i, c) && c < |s|
    ensures Follow(s, a, steps + [i]) == Some(c)
    decreases |steps|
  {
    if steps == [] {
      assert steps + [i] == [i] && [i][1..] == [];
    } else {
      FollowOneMore(s, s[a].slots[steps[0]].address, steps[1..], b, i, c);
      assert (steps + [i])[1..] == steps[1..] + [i] && (steps + [i])[0] == steps[0];
    }
  }

  lemma ReachableStep(s: Store, b: nat, i: nat, c: nat)
    requires Reachable(s, b) && Points(s, b, i, c) && c < |s|
    ensures Reachable(s, c)
  {
    var steps :| Follow(s, 0, steps) == Some(b);
    FollowOneMore(s, 0, steps, b, i, c);
  }

  /** The root reaches itself. */
  lemma RootReachable(s: Store)
    requires s != []
    ensures Reachable(s, 0)
  {
    assert Follow(s, 0, []) == Some(0);
  }

  // ---------------------------------------------------------------------------------
  // What each operation keeps
  // ---------------------------------------------------------------------------------

  lemma NewTable(s: Store)
    requires Tree(s)
    ensures Tree(s + [Dict([], [])]) && Grows(s, s + [Dict([], [])]) && Unheld(s + [Dict([], [])], |s|)
  {
    NewObject(s, Dict([], []));
  }

  lemma WithTableKeeps(s: Store, a: nat, k: string)
    requires Tree(s) && a < |s| && s[a].Dict? && Slot(s[a], k).None?
    ensures Tree(WithTable(s, a, k)) && Grows(s, WithTable(s, a, k))
    ensures Slot(WithTable(s, a, k)[a], k) == Some(Ptr(|s|))
    ensures Reachable(s, a) ==> Reachable(WithTable(s, a, k), |s|)
  {
    var s' := s + [Dict([], [])];
    NewTable(s);
    KeyKeepsTree(s', a, k, Ptr(|s|));
    var t := WithTable(s, a, k);
    GrowsTransitive(s, s', t);
    SlotOfNewKey(s[a], k, Ptr(|s|));
    if Reachable(s, a) {
      ReachableGrows(s, t, a);
      assert Points(t, a, |s[a].slots|, |s|);
      ReachableStep(t, a, |s[a].slots|, |s|);
    }
  }

  lemma SlotOfNewKey(o: Obj, k: string, r: Ref)
    requires o.Dict? && |o.keys| == |o.slots| && k !in o.keys
    ensures Slot(Dict(o.keys + [k], o.slots + [r]), k) == Some(r)
  {
    var keys := o.keys + [k];
    var i := Index(keys, k);
    assert keys[|o.keys|] == k;
    assert forall j | 0 <= j < |o.keys| :: keys[j] == o.keys[j];
  }

  lemma SlotGrows(o: Obj, o': Obj, k: string)
    requires ObjGrows(o, o') && Slot(o, k).Some?
    ensures Slot(o', k) == Slot(o, k)
  {
    var i, j := Index(o.keys, k), Index(o'.keys, k);
    assert forall m | 0 <= m < |o.keys| :: o'.keys[m] == o.keys[m];
  }

  /** The reference a key path leads to from the table at `a`. */
  function Lookup(s: Store, a: nat, path: seq<string>): Option<Ref>
    requires path != []
    decreases |path|
  {
    if a >= |s| then None
    else
      var slot := Slot(s[a], path[0]);
      if slot.None? || |path| == 1 then slot
      else if slot.value.Ptr? then Lookup(s, slot.value.address, path[1..])
      else None
  }

  lemma {:induction false} LookupGrows(s: Store, s': Store, a: nat, path: seq<string>)
    requires Grows(s, s') && path != [] && Lookup(s, a, path).Some?
    ensures Lookup(s', a, path) == Lookup(s, a, path)
    decreases |path|
  {
    assert ObjGrows(s[a], s'[a]);
    SlotGrows(s[a], s'[a], path[0]);
    if |path| > 1 { LookupGrows(s, s', Slot(s[a], path[0]).value.address, path[1..]); }
  }

  lemma PutValue(s: Store, a: nat, k: string, v: Value)
    requires Tree(s) && a < |s| && s[a].Dict? && Slot(s[a], k).None? && WellFormed(v)
    ensures Install(s, v).0[a] == s[a]
    ensures var s' := WithKey(Install(s, v).0, a, k, Install(s, v).1);
            && Tree(s') && Grows(s, s')
            && Slot(s'[a], k) == Some(Install(s, v).1)
            && Holds(s', Install(s, v).1, v)
  {
    var (t, r) := Install(s, v);
    InstallIsFresh(s, v);
    InstallHolds(s, v);
    FreshGrows(s, t);
    FreshKeepsUnheld(s, t, 0);
    assert t[a] == s[a] && t[0] == s[0];
    KeyKeepsTree(t, a, k, r);
    var s' := WithKey(t, a, k, r);
    GrowsTransitive(s, t, s');
    SlotOfNewKey(s[a], k, r);
    HoldsGrows(t, s', r, v);
  }

  /** An assignment keeps the tree, only adds to it, and its value can be read at its path. */
  lemma {:induction false} AssignKeeps(s: Store, a: nat, path: seq<string>, v: Value)
    requires Tree(s) && a < |s| && s[a].Dict? && path != [] && WellFormed(v)
    requires AssignAt(s, a, path, v).Ok?
    ensures var s' := AssignAt(s, a, path, v).value;
            && Tree(s') && Grows(s, s')
            && Lookup(s', a, path).Some? && Holds(s', Lookup(s', a, path).value, v)
    decreases |path|
  {
    var slot := Slot(s[a], path[0]);
    var s' := AssignAt(s, a, path, v).value;
    if |path| == 1 {
      PutValue(s, a, path[0], v);
    } else if slot.None? {
      var t := WithTable(s, a, path[0]);
      WithTableKeeps(s, a, path[0]);
      AssignKeeps(t, |s|, path[1..], v);
      GrowsTransitive(s, t, s');
      assert ObjGrows(t[a], s'[a]);
      SlotGrows(t[a], s'[a], path[0]);
    } else {
      AssignKeeps(s, slot.value.address, path[1..], v);
      assert ObjGrows(s[a], s'[a]);
      SlotGrows(s[a], s'[a], path[0]);
    }
  }

  lemma SlotPoints(s: Store, a: nat, k: string)
    requires a < |s| && Slot(s[a], k).Some? && Slot(s[a], k).value.Ptr?
    ensures Points(s, a, Index(s[a].keys, k), Slot(s[a], k).value.address)
  {
  }

  lemma WalkReaches(s: Store, arrays: set<seq<string>>, here: seq<string>, a: nat)
    requires Tree(s) && a < |s| && here != [] && Reachable(s, a) && WalkStep(s, arrays, here, a).Enter?
    ensures Reachable(s, WalkStep(s, arrays, here, a).address)
  {
    var k := here[|here| - 1];
    var b := Slot(s[a], k).value.address;
    SlotPoints(s, a, k);
    ReachableStep(s, a, Index(s[a].keys, k), b);
    if s[b].List? {
      var last := |s[b].slots| - 1;
      assert Points(s, b, last, s[b].slots[last].address);
      ReachableStep(s, b, last, s[b].slots[last].address);
    }
  }

  lemma {:induction false} DescendKeeps(s: Store, arrays: set<seq<string>>, walked: seq<string>, a: nat, parts: seq<string>)
    requires Tree(s) && a < |s| && s[a].Dict? && Reachable(s, a)
    requires Descend(s, arrays, walked, a, parts).Ok?
    ensures var r := Descend(s, arrays, walked, a, parts).value;
            Tree(r.0) && Grows(s, r.0) && Reachable(r.0, r.1)
    decreases |parts|
  {
    if parts != [] {
      var here := walked + [parts[0]];
      match WalkStep(s, arrays, here, a)
      case Create =>
        WithTableKeeps(s, a, parts[0]);
        DescendKeeps(WithTable(s, a, parts[0]), arrays, here, |s|, parts[1..]);
        GrowsTransitive(s, WithTable(s, a, parts[0]), Descend(s, arrays, walked, a, parts).value.0);
      case Enter(b) =>
        WalkReaches(s, arrays, here, a);
        DescendKeeps(s, arrays, here, b, parts[1..]);
      case Stuck(_) =>
    }
  }

  /** The tree invariant of a run. */
  ghost predicate Sound(d: Doc) {
    && Tree(d.store)
    && d.current < |d.store| && d.store[d.current].Dict?
    && Reachable(d.store, d.current)
  }

  lemma NewArrayOfTables(s: Store, a: nat, k: string)
    requires Tree(s) && a < |s| && s[a].Dict? && Slot(s[a], k).None? && Reachable(s, a)
    ensures var t := WithKey(s + [Dict([], []), List([Ptr(|s|)])], a, k, Ptr(|s| + 1));
            Tree(t) && Grows(s, t) && Reachable(t, |s|)
  {
    var s1 := s + [Dict([], [])];
    NewTable(s);
    var o := List([Ptr(|s|)]);
    NewObject(s1, o);
    var s2 := s1 + [o];
    assert s2 == s + [Dict([], []), o];
    assert Unheld(s2, 0);
    KeyKeepsTree(s2, a, k, Ptr(|s| + 1));
    var t := WithKey(s2, a, k, Ptr(|s| + 1));
    assert Grows(s1, s2);
    GrowsTransitive(s, s1, s2);
    GrowsTransitive(s, s2, t);
    ReachableGrows(s, t, a);
    assert Points(t, a, |s[a].slots|, |s| + 1);
    ReachableStep(t, a, |s[a].slots|, |s| + 1);
    assert Points(t, |s| + 1, 0, |s|);
    ReachableStep(t, |s| + 1, 0, |s|);
  }

  lemma NextArrayTable(s: Store, l: nat)
    requires Tree(s) && l < |s| && s[l].List? && Reachable(s, l)
    ensures var t := WithItem(s + [Dict([], [])], l, Ptr(|s|));
            Tree(t) && Grows(s, t) && Reachable(t, |s|)
  {
    var s1 := s + [Dict([], [])];
    NewTable(s);
    ItemKeepsTree(s1, l, Ptr(|s|));
    var t := WithItem(s1, l, Ptr(|s|));
    GrowsTransitive(s, s1, t);
    ReachableGrows(s, t, l);
    assert Points(t, l, |s[l].slots|, |s|);
    ReachableStep(t, l, |s[l].slots|, |s|);
  }

  lemma OpenInKeeps(d: Doc, s: Store, a: nat, path: seq<string>, isArray: bool)
    requires Tree(s) && a < |s| && s[a].Dict? && path != [] && Reachable(s, a)
    requires OpenIn(d, s, a, path, isArray).Ok?
    ensures Sound(OpenIn(d, s, a, path, isArray).value)
    ensures Grows(s, OpenIn(d, s, a, path, isArray).value.store)
  {
    var name := path[|path| - 1];
    var slot := Slot(s[a], name);
    if slot.None? {
      if isArray { NewArrayOfTables(s, a, name); } else { WithTableKeeps(s, a, name); }
    } else {
      SlotPoints(s, a, name);
      ReachableStep(s, a, Index(s[a].keys, name), slot.value.address);
      if isArray { NextArrayTable(s, slot.value.address); }
    }
  }

  /** Every accepted statement keeps the tree and the current table in it, and only adds. */
  lemma ExecKeeps(d: Doc, stmt: Stmt)
    requires Sound(d) && stmt.path != [] && (stmt.KeyValue? ==> WellFormed(stmt.value))
    requires Exec(d, stmt).Ok?
    ensures Sound(Exec(d, stmt).value) && Grows(d.store, Exec(d, stmt).value.store)
    ensures d.explicitTables <= Exec(d, stmt).value.explicitTables
    ensures d.arrayTables <= Exec(d, stmt).value.arrayTables
  {
    if stmt.KeyValue? {
      KeyValueKeeps(d, stmt);
    } else {
      HeaderKeeps(d, stmt);
    }
  }

  lemma KeyValueKeeps(d: Doc, stmt: Stmt)
    requires Sound(d) && stmt.path != [] && stmt.KeyValue? && WellFormed(stmt.value) && Exec(d, stmt).Ok?
    ensures Sound(Exec(d, stmt).value) && Grows(d.store, Exec(d, stmt).value.store)
    ensures d.explicitTables == Exec(d, stmt).value.explicitTables
    ensures d.arrayTables == Exec(d, stmt).value.arrayTables
  {
    AssignKeeps(d.store, d.current, stmt.path, stmt.value);
    ReachableGrows(d.store, Exec(d, stmt).value.store, d.current);
    assert ObjGrows(d.store[d.current], Exec(d, stmt).value.store[d.current]);
  }

  lemma HeaderKeeps(d: Doc, stmt: Stmt)
    requires Sound(d) && stmt.path != [] && stmt.Header? && Exec(d, stmt).Ok?
    ensures Sound(Exec(d, stmt).value) && Grows(d.store, Exec(d, stmt).value.store)
    ensures d.explicitTables <= Exec(d, stmt).value.explicitTables
    ensures d.arrayTables <= Exec(d, stmt).value.arrayTables
  {
    var path := stmt.path;
    RootReachable(d.store);
    DescendKeeps(d.store, d.arrayTables, [], 0, path[..|path| - 1]);
    var at := Descend(d.store, d.arrayTables, [], 0, path[..|path| - 1]).value;
    OpenInKeeps(d, at.0, at.1, path, stmt.isArray);
    GrowsTransitive(d.store, at.0, Exec(d, stmt).value.store);
  }

  // ---------------------------------------------------------------------------------
  // Runs
  // ---------------------------------------------------------------------------------

  ghost predicate Statements(stmts: seq<Stmt>) {
    forall i | 0 <= i < |stmts| ::
      stmts[i].path != [] && (stmts[i].KeyValue? ==> WellFormed(stmts[i].value))
  }

  /** `docs` are the documents before, between and after the statements of an accepted run. */
  ghost predicate IsRun(stmts: seq<Stmt>, docs: seq<Doc>) {
    && Statements(stmts)
    && |docs| == |stmts| + 1 && Sound(docs[0])
    && forall i | 0 <= i < |stmts| :: Runnable(docs[i]) && Exec(docs[i], stmts[i]) == Ok(docs[i + 1])
  }

  /** From any point of a run to any later one the document is sound and has only grown. */
  lemma {:induction false} RunGrows(stmts: seq<Stmt>, docs: seq<Doc>, i: nat, j: nat)
    requires IsRun(stmts, docs) && i <= j <= |stmts|
    ensures Sound(docs[i]) && Sound(docs[j])
    ensures Grows(docs[i].store, docs[j].store)
    ensures docs[i].explicitTables <= docs[j].explicitTables && docs[i].arrayTables <= docs[j].arrayTables
    decreases j
  {
    if i < j {
      RunGrows(stmts, docs, i, j - 1);
      assert Exec(docs[j - 1], stmts[j - 1]) == Ok(docs[j - 1 + 1]);
      ExecKeeps(docs[j - 1], stmts[j - 1]);
      GrowsTransitive(docs[i].store, docs[j - 1].store, docs[j].store);
    } else if j > 0 {
      RunGrows(stmts, docs, j - 1, j - 1);
      assert Exec(docs[j - 1], stmts[j - 1]) == Ok(docs[j - 1 + 1]);
      ExecKeeps(docs[j - 1], stmts[j - 1]);
    }
  }

  /** A value, once assigned, is found at the same place with the same contents ever after. */
  lemma RunRemembers(stmts: seq<Stmt>, docs: seq<Doc>, i: nat, j: nat)
    requires IsRun(stmts, docs) && i < j <= |stmts| && stmts[i].KeyValue?
    ensures var r := Lookup(docs[i + 1].store, docs[i].current, stmts[i].path);
            && r.Some?
            && Lookup(docs[j].store, docs[i].current, stmts[i].path) == r
            && Holds(docs[j].store, r.value, stmts[i].value)
  {
    RunGrows(stmts, docs, i, i);
    assert Exec(docs[i], stmts[i]) == Ok(docs[i + 1]);
    AssignKeeps(docs[i].store, docs[i].current, stmts[i].path, stmts[i].value);
    RunGrows(stmts, docs, i + 1, j);
    var r := Lookup(docs[i + 1].store, docs[i].current, stmts[i].path);
    LookupGrows(docs[i + 1].store, docs[j].store, docs[i].current, stmts[i].path);
    HoldsGrows(docs[i + 1].store, docs[j].store, r.value, stmts[i].value);
  }

  /** A plain header is accepted at most once, and never for a path opened as an array of tables. */
  lemma HeadersAreOpenedOnce(stmts: seq<Stmt>, docs: seq<Doc>, i: nat, j: nat)
    requires IsRun(stmts, docs) && i < j < |stmts|
    requires stmts[i].Header? && stmts[j].Header? && !stmts[j].isArray
    ensures stmts[i].path != stmts[j].path
  {
    assert Exec(docs[i], stmts[i]) == Ok(docs[i + 1]);
    assert Exec(docs[j], stmts[j]) == Ok(docs[j + 1]);
    RunGrows(stmts, docs, i + 1, j);
  }

  lemma EmptyIsSound()
    ensures Sound(EMPTY) && Runnable(EMPTY)
  {
    RootReachable(EMPTY.store);
  }

  // ---------------------------------------------------------------------------------
  // The failure that is not a decode error
  // ---------------------------------------------------------------------------------

  /**
    Walking the existing document along `parts` arrives at a list whose path is remembered
    as an array of tables although the list does not end in a table.
   */
  predicate DeadEnd(s: Store, arrays: set<seq<string>>, walked: seq<string>, a: nat, parts: seq<string>)
    requires a < |s|
    decreases |parts|
  {
    if parts == [] then false
    else
      var here := walked + [parts[0]];
      match WalkStep(s, arrays, here, a)
      case Create => false
      case Enter(b) => DeadEnd(s, arrays, here, b, parts[1..])
      case Stuck(f) => f == Crash
  }

  lemma {:induction false} NewTablesNeverStick(s: Store, arrays: set<seq<string>>, walked: seq<string>, a: nat, parts: seq<string>)
    requires a < |s| && s[a] == Dict([], [])
    ensures Descend(s, arrays, walked, a, parts).Ok?
    decreases |parts|
  {
    if parts != [] {
      NewTablesNeverStick(WithTable(s, a, parts[0]), arrays, walked + [parts[0]], |s|, parts[1..]);
    }
  }

  lemma {:induction false} DescendCrashes(s: Store, arrays: set<seq<string>>, walked: seq<string>, a: nat, parts: seq<string>)
    requires a < |s| && s[a].Dict?
    ensures Descend(s, arrays, walked, a, parts) == Err(Crash) <==> DeadEnd(s, arrays, walked, a, parts)
    decreases |parts|
  {
    if parts != [] {
      var here := walked + [parts[0]];
      match WalkStep(s, arrays, here, a)
      case Create => NewTablesNeverStick(WithTable(s, a, parts[0]), arrays, here, |s|, parts[1..]);
      case Enter(b) => DescendCrashes(s, arrays, here, b, parts[1..]);
      case Stuck(_) =>
    }
  }

  lemma {:induction false} AssignNeverCrashes(s: Store, a: nat, path: seq<string>, v: Value)
    requires a < |s| && s[a].Dict? && path != []
    ensures AssignAt(s, a, path, v) != Err(Crash)
    decreases |path|
  {
    if |path| > 1 {
      var slot := Slot(s[a], path[0]);
      if slot.None? {
        AssignNeverCrashes(WithTable(s, a, path[0]), |s|, path[1..], v);
      } else if IsDict(s, slot.value) {
        AssignNeverCrashes(s, slot.value.address, path[1..], v);
      }
    }
  }

  /** A statement fails with something else than a decode error exactly at a header's dead end. */
  lemma CrashIffDeadEnd(d: Doc, stmt: Stmt)
    requires Runnable(d) && stmt.path != []
    ensures Exec(d, stmt) == Err(Crash) <==>
            stmt.Header? && DeadEnd(d.store, d.arrayTables, [], 0, stmt.path[..|stmt.path| - 1])
  {
    match stmt
    case KeyValue(path, v) => AssignNeverCrashes(d.store, d.current, path, v);
    case Header(path, _) => DescendCrashes(d.store, d.arrayTables, [], 0, path[..|path| - 1]);
  }

  /**
    It does happen: [[a]], [[a.b]], [[a]] again, the plain array b = [], and then [a.b.c]
    descends into the empty array because the path a.b is still remembered.
   */
  lemma PlainArrayAtRememberedPath()
    ensures RunAll(EMPTY, [Header(["a"], true), Header(["a", "b"], true), Header(["a"], true),
                           KeyValue(["b"], Array([])), Header(["a", "b", "c"], false)]) == Err(Crash)
  {
    FirstHeader();
    FromSecondHeader();
    RunCons(EMPTY, Header(["a"], true), [Header(["a", "b"], true), Header(["a"], true),
                                         KeyValue(["b"], Array([])), Header(["a", "b", "c"], false)]);
  }

  /** Statements in order, up to the first that is refused. */
  function RunAll(d: Doc, stmts: seq<Stmt>): Result<Doc, Fault>
    requires Runnable(d) && forall i | 0 <= i < |stmts| :: stmts[i].path != []
    decreases |stmts|
  {
    if stmts == [] then Ok(d)
    else
      match Exec(d, stmts[0])
      case Err(f) => Err(f)
      case Ok(d') => RunAll(d', stmts[1..])
  }

  lemma RunCons(d: Doc, stmt: Stmt, rest: seq<Stmt>)
    requires Runnable(d) && stmt.path != [] && forall i | 0 <= i < |rest| :: rest[i].path != []
    requires Exec(d, stmt).Ok?
    ensures RunAll(d, [stmt] + rest) == RunAll(Exec(d, stmt).value, rest)
  {
    assert ([stmt] + rest)[1..] == rest;
  }

  const ONE_A: Doc := Doc([Dict(["a"], [Ptr(2)]), Dict([], []), List([Ptr(1)])], 1, {}, {["a"]})

  const ONE_AB: Doc := Doc([Dict(["a"], [Ptr(2)]), Dict(["b"], [Ptr(4)]), List([Ptr(1)]), Dict([], []), List([Ptr(3)])],
                           3, {}, {["a"], ["a", "b"]})

  const TWO_A: Doc := Doc([Dict(["a"], [Ptr(2)]), Dict(["b"], [Ptr(4)]), List([Ptr(1), Ptr(5)]), Dict([], []),
                           List([Ptr(3)]), Dict([], [])], 5, {}, {["a"], ["a", "b"]})

  const PLAIN_B: Doc := Doc([Dict(["a"], [Ptr(2)]), Dict(["b"], [Ptr(4)]), List([Ptr(1), Ptr(5)]), Dict([], []),
                             List([Ptr(3)]), Dict(["b"], [Ptr(6)]), List([])], 5, {}, {["a"], ["a", "b"]})

  lemma FirstHeader()
    ensures Exec(EMPTY, Header(["a"], true)) == Ok(ONE_A)
  {
    var s := EMPTY.store;
    assert ["a"][..0] == [];
    assert [] + ["a"] == ["a"];
    assert [] + [Ptr(2)] == [Ptr(2)];
    assert WithKey(s + [Dict([], []), List([Ptr(1)])], 0, "a", Ptr(2)) == ONE_A.store;
    assert {} + {["a"]} == {["a"]};
  }

  lemma SecondHeader()
    ensures Exec(ONE_A, Header(["a", "b"], true)) == Ok(ONE_AB)
  {
    var path := ["a", "b"];
    assert path[..1] == ["a"] && [] + ["a"] == ["a"] && ["a"][1..] == [];
    assert WalkStep(ONE_A.store, ONE_A.arrayTables, ["a"], 0) == Enter(1);
    assert Descend(ONE_A.store, ONE_A.arrayTables, [], 0, ["a"]) == Ok((ONE_A.store, 1));
    assert {["a"]} + {path} == {["a"], path};
    assert [] + ["b"] == ["b"];
    assert [] + [Ptr(4)] == [Ptr(4)];
    assert WithKey(ONE_A.store + [Dict([], []), List([Ptr(3)])], 1, "b", Ptr(4)) == ONE_AB.store;
  }

  lemma ThirdHeader()
    ensures Exec(ONE_AB, Header(["a"], true)) == Ok(TWO_A)
  {
    assert ["a"][..0] == [];
    assert Slot(ONE_AB.store[0], "a") == Some(Ptr(2));
    assert [Ptr(1)] + [Ptr(5)] == [Ptr(1), Ptr(5)];
    assert WithItem(ONE_AB.store + [Dict([], [])], 2, Ptr(5)) == TWO_A.store;
  }

  lemma PlainArray()
    ensures Exec(TWO_A, KeyValue(["b"], Array([]))) == Ok(PLAIN_B)
  {
    assert InstallAll(TWO_A.store, []) == (TWO_A.store, []);
    assert Install(TWO_A.store, Array([])) == (TWO_A.store + [List([])], Ptr(6));
    assert [] + ["b"] == ["b"];
    assert [] + [Ptr(6)] == [Ptr(6)];
    assert WithKey(TWO_A.store + [List([])], 5, "b", Ptr(6)) == PLAIN_B.store;
  }

  lemma LastHeader()
    ensures Exec(PLAIN_B, Header(["a", "b", "c"], false)) == Err(Crash)
  {
    var parts := ["a", "b", "c"][..2];
    assert parts == ["a", "b"] && parts[1..] == ["b"];
    assert [] + ["a"] == ["a"] && ["a"] + ["b"] == ["a", "b"];
    assert WalkStep(PLAIN_B.store, PLAIN_B.arrayTables, ["a"], 0) == Enter(5);
    assert WalkStep(PLAIN_B.store, PLAIN_B.arrayTables, ["a", "b"], 5) == Stuck(Crash);
    assert Descend(PLAIN_B.store, PLAIN_B.arrayTables, ["a"], 5, ["b"]) == Err(Crash);
  }

  lemma FromPlainArray()
    ensures RunAll(TWO_A, [KeyValue(["b"], Array([])), Header(["a", "b", "c"], false)]) == Err(Crash)
  {
    PlainArray();
    LastHeader();
    RunCons(TWO_A, KeyValue(["b"], Array([])), [Header(["a", "b", "c"], false)]);
  }

  lemma FromThirdHeader()
    ensures RunAll(ONE_AB, [Header(["a"], true), KeyValue(["b"], Array([])), Header(["a", "b", "c"], false)]) == Err(Crash)
  {
    ThirdHeader();
    FromPlainArray();
    RunCons(ONE_AB, Header(["a"], true), [KeyValue(["b"], Array([])), Header(["a", "b", "c"], false)]);
  }

  lemma FromSecondHeader()
    ensures RunAll(ONE_A, [Header(["a", "b"], true), Header(["a"], true),
                           KeyValue(["b"], Array([])), Header(["a", "b", "c"], false)]) == Err(Crash)
  {
    SecondHeader();
    FromThirdHeader();
    RunCons(ONE_A, Header(["a", "b"], true),
            [Header(["a"], true), KeyValue(["b"], Array([])), Header(["a", "b", "c"], false)]);
  }
}
