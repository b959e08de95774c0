/**
  The objects of scripts/toml_reader.py, updated in place through references, refine the nested tables of
  `TomlMeaning`: after every statement they spell the table the statement means, with no object shared, and they
  refuse what it refuses, for the same reason.
 */
module TomlRefine {
  import opened Wrappers
  import opened TomlText
  import opened TomlValue
  import opened TomlDocument
  import opened TomlRun
  import opened TomlLoad
  import opened TomlMeaning

  // ---------------------------------------------------------------------------------
  // Values in the store, and the objects they are made of
  // ---------------------------------------------------------------------------------

  /** The objects that spell a value. */
  ghost function Foot(s: Store, r: Ref, v: Value): set<nat>
    decreases v, 1
  {
    if r.Leaf? || r.address >= |s| then {}
    else
      match v
      case Array(items) => {r.address} + FootAll(s, s[r.address].slots, items)
      case Table(_, values) => {r.address} + FootAll(s, s[r.address].slots, values)
      case _ => {}
  }

  ghost function FootAll(s: Store, refs: seq<Ref>, vs: seq<Value>): set<nat>
    decreases vs, 0
  {
    if refs == [] || vs == [] then {} else Foot(s, refs[0], vs[0]) + FootAll(s, refs[1..], vs[1..])
  }

  /** The objects at `r` spell the value, each used once. */
  ghost predicate Neat(s: Store, r: Ref, v: Value)
    decreases v, 1
  {
    match v
    case Array(items) =>
      && r.Ptr? && r.address < |s| && s[r.address].List?
      && NeatAll(s, s[r.address].slots, items) && r.address !in FootAll(s, s[r.address].slots, items)
    case Table(keys, values) =>
      && r.Ptr? && r.address < |s| && s[r.address].Dict? && s[r.address].keys == keys && |keys| == |values|
      && NeatAll(s, s[r.address].slots, values) && r.address !in FootAll(s, s[r.address].slots, values)
    case _ => r == Leaf(v)
  }

  ghost predicate NeatAll(s: Store, refs: seq<Ref>, vs: seq<Value>)
    decreases vs, 0
  {
    && |refs| == |vs|
    && (vs != [] ==>
          && Neat(s, refs[0], vs[0]) && NeatAll(s, refs[1..], vs[1..])
          && Foot(s, refs[0], vs[0]) !! FootAll(s, refs[1..], vs[1..]))
  }

  /** The elements of an array or the values of a table. */
  function Parts(v: Value): seq<Value> {
    match v
    case Array(items) => items
    case Table(_, values) => values
    case _ => []
  }

  function WithPart(v: Value, i: nat, c: Value): Value
    requires i < |Parts(v)|
  {
    match v
    case Array(items) => Array(items[i := c])
    case Table(keys, values) => Table(keys, values[i := c])
  }

  lemma {:induction false} FootIsOld(s: Store, r: Ref, v: Value)
    requires Neat(s, r, v)
    ensures forall x | x in Foot(s, r, v) :: x < |s|
    decreases v, 1
  {
    if v.Array? || v.Table? { FootAllIsOld(s, s[r.address].slots, Parts(v)); }
  }

  lemma {:induction false} FootAllIsOld(s: Store, refs: seq<Ref>, vs: seq<Value>)
    requires NeatAll(s, refs, vs)
    ensures forall x | x in FootAll(s, refs, vs) :: x < |s|
    decreases vs, 0
  {
    if vs != [] {
      FootIsOld(s, refs[0], vs[0]);
      FootAllIsOld(s, refs[1..], vs[1..]);
    }
  }

  /** Nothing outside `inner` changes, but for objects added at the end. */
  ghost predicate Edited(s: Store, s': Store, inner: set<nat>) {
    |s| <= |s'| && forall x | 0 <= x < |s| && x !in inner :: s'[x] == s[x]
  }

  /** Where nothing of a value changes, it is spelled as before. */
  lemma {:induction false} Framed(s: Store, s': Store, r: Ref, v: Value)
    requires Neat(s, r, v) && |s| <= |s'| && forall x | x in Foot(s, r, v) :: x < |s| && s'[x] == s[x]
    ensures Neat(s', r, v) && Foot(s', r, v) == Foot(s, r, v)
    decreases v, 1
  {
    if v.Array? || v.Table? {
      assert r.address in Foot(s, r, v);
      FramedAll(s, s', s[r.address].slots, Parts(v));
    }
  }

  lemma {:induction false} FramedAll(s: Store, s': Store, refs: seq<Ref>, vs: seq<Value>)
    requires NeatAll(s, refs, vs) && |s| <= |s'| && forall x | x in FootAll(s, refs, vs) :: x < |s| && s'[x] == s[x]
    ensures NeatAll(s', refs, vs) && FootAll(s', refs, vs) == FootAll(s, refs, vs)
    decreases vs, 0
  {
    if vs != [] {
      FootAllCons(s, refs, vs);
      Framed(s, s', refs[0], vs[0]);
      FramedAll(s, s', refs[1..], vs[1..]);
      FootAllCons(s', refs, vs);
    }
  }

  lemma FootAllCons(s: Store, refs: seq<Ref>, vs: seq<Value>)
    requires |refs| == |vs| && vs != []
    ensures FootAll(s, refs, vs) == Foot(s, refs[0], vs[0]) + FootAll(s, refs[1..], vs[1..])
    ensures forall x | x in FootAll(s, refs[1..], vs[1..]) :: x in FootAll(s, refs, vs)
    ensures forall x | x in Foot(s, refs[0], vs[0]) :: x in FootAll(s, refs, vs)
  {
  }

  /** The objects of `v` come to spell `w`, with new ones perhaps, and no others are touched. */
  ghost predicate Becomes(s: Store, r: Ref, v: Value, s': Store, w: Value) {
    && Neat(s', r, w) && Edited(s, s', Foot(s, r, v))
    && forall x | x in Foot(s', r, w) :: x in Foot(s, r, v) || |s| <= x
  }

  lemma BecomesThen(s: Store, r: Ref, v: Value, s': Store, v': Value, s'': Store, v'': Value)
    requires Becomes(s, r, v, s', v') && Becomes(s', r, v', s'', v'')
    ensures Becomes(s, r, v, s'', v'')
  {
  }

  lemma {:induction false} PartIsNeat(s: Store, refs: seq<Ref>, vs: seq<Value>, i: nat)
    requires NeatAll(s, refs, vs) && i < |vs|
    ensures Neat(s, refs[i], vs[i]) && Foot(s, refs[i], vs[i]) <= FootAll(s, refs, vs)
    decreases |vs|
  {
    if i > 0 { PartIsNeat(s, refs[1..], vs[1..], i - 1); }
  }

  /** Editing one of several parts leaves the others alone. */
  lemma {:induction false} PartBecomes(s: Store, s': Store, refs: seq<Ref>, vs: seq<Value>, i: nat, c: Value)
    requires NeatAll(s, refs, vs) && i < |vs| && Becomes(s, refs[i], vs[i], s', c)
    ensures NeatAll(s', refs, vs[i := c])
    ensures forall x | x in FootAll(s', refs, vs[i := c]) :: x in FootAll(s, refs, vs) || |s| <= x
    decreases |vs|
  {
    FootAllIsOld(s, refs, vs);
    FootAllCons(s, refs, vs);
    var ws := vs[i := c];
    FootAllCons(s', refs, ws);
    if i == 0 {
      FramedAll(s, s', refs[1..], vs[1..]);
      assert ws[1..] == vs[1..];
    } else {
      PartIsNeat(s, refs[1..], vs[1..], i - 1);
      PartBecomes(s, s', refs[1..], vs[1..], i - 1, c);
      Framed(s, s', refs[0], vs[0]);
      assert ws[1..] == vs[1..][i - 1 := c];
    }
  }

  lemma WholeBecomes(s: Store, a: nat, v: Value, i: nat, s': Store, c: Value)
    requires Neat(s, Ptr(a), v) && (v.Array? || v.Table?) && i < |Parts(v)| && a < |s| && i < |s[a].slots|
    requires Becomes(s, s[a].slots[i], Parts(v)[i], s', c)
    ensures Becomes(s, Ptr(a), v, s', WithPart(v, i, c)) && s'[a] == s[a]
  {
    PartIsNeat(s, s[a].slots, Parts(v), i);
    PartBecomes(s, s', s[a].slots, Parts(v), i, c);
    FootIsOld(s, Ptr(a), v);
  }

  // ---------------------------------------------------------------------------------
  // Adding
  // ---------------------------------------------------------------------------------

  lemma {:induction false} NeatAppend(s: Store, refs: seq<Ref>, vs: seq<Value>, r: Ref, v: Value)
    requires NeatAll(s, refs, vs) && Neat(s, r, v) && Foot(s, r, v) !! FootAll(s, refs, vs)
    ensures NeatAll(s, refs + [r], vs + [v]) && FootAll(s, refs + [r], vs + [v]) == FootAll(s, refs, vs) + Foot(s, r, v)
    decreases |vs|
  {
    var all, ws := refs + [r], vs + [v];
    if vs == [] {
      assert all == [r] && ws == [v] && all[1..] == [] && ws[1..] == [];
    } else {
      NeatAppend(s, refs[1..], vs[1..], r, v);
      assert all[1..] == refs[1..] + [r] && ws[1..] == vs[1..] + [v];
    }
  }

  /** Parts that are spelled, and one more made of new objects; only the object that holds them changes. */
  lemma PartAdded(s: Store, a: nat, refs: seq<Ref>, vs: seq<Value>, s': Store, s'': Store, r: Ref, x: Value)
    requires NeatAll(s, refs, vs) && a < |s| && a !in FootAll(s, refs, vs) && s <= s' && |s'| == |s''|
    requires forall y | 0 <= y < |s'| && y != a :: s''[y] == s'[y]
    requires Neat(s', r, x) && (forall y | y in Foot(s', r, x) :: |s| <= y)
    ensures NeatAll(s'', refs + [r], vs + [x]) && Foot(s'', r, x) == Foot(s', r, x)
    ensures FootAll(s'', refs + [r], vs + [x]) == FootAll(s, refs, vs) + Foot(s'', r, x)
  {
    FootAllIsOld(s, refs, vs);
    FootIsOld(s', r, x);
    assert forall y | 0 <= y < |s| && y != a :: s''[y] == s[y];
    FramedAll(s, s'', refs, vs);
    Framed(s', s'', r, x);
    NeatAppend(s'', refs, vs, r, x);
  }

  lemma KeyAdded(s: Store, a: nat, t: Value, k: string, s': Store, r: Ref, x: Value)
    requires Neat(s, Ptr(a), t) && t.Table? && a < |s| && s <= s' && s'[a] == s[a]
    requires Neat(s', r, x) && (forall y | y in Foot(s', r, x) :: |s| <= y)
    ensures Becomes(s, Ptr(a), t, WithKey(s', a, k, r), Table(t.keys + [k], t.values + [x]))
  {
    PartAdded(s, a, s[a].slots, t.values, s', WithKey(s', a, k, r), r, x);
    FootIsOld(s, Ptr(a), t);
  }

  lemma ItemAdded(s: Store, a: nat, v: Value, s': Store, r: Ref, x: Value)
    requires Neat(s, Ptr(a), v) && v.Array? && a < |s| && s <= s' && s'[a] == s[a]
    requires Neat(s', r, x) && (forall y | y in Foot(s', r, x) :: |s| <= y)
    ensures Becomes(s, Ptr(a), v, WithItem(s', a, r), Array(v.items + [x]))
  {
    PartAdded(s, a, s[a].slots, v.items, s', WithItem(s', a, r), r, x);
    FootIsOld(s, Ptr(a), v);
  }

  lemma {:induction false} InstallIsNeat(s: Store, v: Value)
    requires WellFormed(v)
    ensures Neat(Install(s, v).0, Install(s, v).1, v)
    ensures forall x | x in Foot(Install(s, v).0, Install(s, v).1, v) :: |s| <= x
    decreases v, 1
  {
    if v.Array? || v.Table? {
      var (s', refs) := InstallAll(s, Parts(v));
      InstallAllIsNeat(s, Parts(v));
      FootAllIsOld(s', refs, Parts(v));
      FramedAll(s', Install(s, v).0, refs, Parts(v));
    }
  }

  lemma {:induction false} InstallAllIsNeat(s: Store, vs: seq<Value>)
    requires AllWellFormed(vs)
    ensures NeatAll(InstallAll(s, vs).0, InstallAll(s, vs).1, vs)
    ensures forall x | x in FootAll(InstallAll(s, vs).0, InstallAll(s, vs).1, vs) :: |s| <= x
    decreases vs, 0
  {
    if vs != [] {
      var (s', r) := Install(s, vs[0]);
      InstallIsNeat(s, vs[0]);
      InstallAllIsNeat(s', vs[1..]);
      FootIsOld(s', r, vs[0]);
      Framed(s', InstallAll(s, vs).0, r, vs[0]);
    }
  }

  // ---------------------------------------------------------------------------------
  // Looking up
  // ---------------------------------------------------------------------------------

  lemma KindIs(s: Store, r: Ref, v: Value)
    requires Neat(s, r, v)
    ensures (IsDict(s, r) <==> v.Table?) && (IsList(s, r) <==> v.Array?)
  {
  }

  lemma SlotIs(s: Store, a: nat, t: Value, k: string)
    requires Neat(s, Ptr(a), t) && t.Table?
    ensures a < |s| && s[a].Dict? && |s[a].slots| == |t.values|
    ensures var i := Index(t.keys, k);
            && (i == |t.keys| ==> Slot(s[a], k).None?)
            && (i < |t.keys| ==> i < |t.values| && Slot(s[a], k) == Some(s[a].slots[i]) && Neat(s, s[a].slots[i], t.values[i]))
  {
    if Index(t.keys, k) < |t.keys| { PartIsNeat(s, s[a].slots, t.values, Index(t.keys, k)); }
  }

  /** The table a header walks into, from a slot. */
  function EnterRef(s: Store, r: Ref): Option<nat> {
    if IsDict(s, r) then Some(r.address) else if IsList(s, r) then LastTable(s, s[r.address]) else None
  }

  lemma EnterIs(s: Store, r: Ref, v: Value)
    requires Neat(s, r, v)
    ensures Inner(v).Some? <==> EnterRef(s, r).Some?
    ensures EnterRef(s, r).Some? ==> Neat(s, Ptr(EnterRef(s, r).value), Inner(v).value) && Inner(v).value.Table?
  {
    KindIs(s, r, v);
    if v.Array? && v.items != [] {
      var last := |v.items| - 1;
      PartIsNeat(s, s[r.address].slots, v.items, last);
      KindIs(s, s[r.address].slots[last], v.items[last]);
    }
  }

  lemma BackBecomes(s: Store, r: Ref, v: Value, b: nat, s': Store, c: Value)
    requires Neat(s, r, v) && Inner(v).Some? && EnterRef(s, r) == Some(b) && c.Table?
    requires Becomes(s, Ptr(b), Inner(v).value, s', c)
    ensures Becomes(s, r, v, s', Back(v, c)) && EnterRef(s', r) == Some(b)
  {
    KindIs(s, r, v);
    if v.Array? {
      WholeBecomes(s, r.address, v, |v.items| - 1, s', c);
    }
  }

  /** The address at a path, the last element of each list on it. */
  function At(s: Store, a: nat, base: seq<string>): Option<nat>
    decreases |base|
  {
    if a >= |s| then None
    else if base == [] then Some(a)
    else
      match Slot(s[a], base[0])
      case None => None
      case Some(r) => match EnterRef(s, r) case None => None case Some(b) => At(s, b, base[1..])
  }

  lemma {:induction false} AtIs(s: Store, a: nat, t: Value, base: seq<string>)
    requires Neat(s, Ptr(a), t) && t.Table? && WellFormed(t)
    ensures Focus(t, base).Some? <==> At(s, a, base).Some?
    decreases |base|
  {
    if base != [] {
      var i := Index(t.keys, base[0]);
      SlotIs(s, a, t, base[0]);
      if i < |t.keys| {
        EnterIs(s, s[a].slots[i], t.values[i]);
        if Inner(t.values[i]).Some? {
          BackIsWellFormed(t.values[i], NO_KEYS);
          AtIs(s, EnterRef(s, s[a].slots[i]).value, Inner(t.values[i]).value, base[1..]);
        }
      }
    }
  }

  /** What is done in the table one step down a path is done in the whole, and the path leads there still. */
  lemma InnerBecomes(s: Store, a: nat, t: Value, path: seq<string>, s': Store, w: Value)
    requires Neat(s, Ptr(a), t) && t.Table? && WellFormed(t) && path != [] && a < |s| && w.Table?
    requires var i := Index(t.keys, path[0]);
             && i < |t.keys| && i < |s[a].slots| && Inner(t.values[i]).Some? && EnterRef(s, s[a].slots[i]).Some?
             && Becomes(s, Ptr(EnterRef(s, s[a].slots[i]).value), Inner(t.values[i]).value, s', w)
    ensures var i := Index(t.keys, path[0]);
            && Becomes(s, Ptr(a), t, s', Table(t.keys, t.values[i := Back(t.values[i], w)]))
            && At(s', a, path) == At(s', EnterRef(s, s[a].slots[i]).value, path[1..])
  {
    var i := Index(t.keys, path[0]);
    SlotIs(s, a, t, path[0]);
    BackBecomes(s, s[a].slots[i], t.values[i], EnterRef(s, s[a].slots[i]).value, s', w);
    WholeBecomes(s, a, t, i, s', Back(t.values[i], w));
  }

  // ---------------------------------------------------------------------------------
  // Assignments
  // ---------------------------------------------------------------------------------

  /** The store does what the value does, or fails alike. */
  ghost predicate Mirrors(s: Store, r: Ref, v: Value, out: Result<Store, Fault>, means: Result<Value, Fault>) {
    match means
    case Err(f) => out == Err(f)
    case Ok(w) => out.Ok? && Becomes(s, r, v, out.value, w)
  }

  lemma NewTable(s: Store, a: nat, t: Value, k: string)
    requires Neat(s, Ptr(a), t) && t.Table? && a < |s| && s[a].Dict?
    ensures Becomes(s, Ptr(a), t, WithTable(s, a, k), Table(t.keys + [k], t.values + [NO_KEYS]))
    ensures Neat(WithTable(s, a, k), Ptr(|s|), NO_KEYS) && WithTable(s, a, k)[a].slots == s[a].slots + [Ptr(|s|)]
  {
    KeyAdded(s, a, t, k, s + [Dict([], [])], Ptr(|s|), NO_KEYS);
  }

  /** What is done in a table just made is done in a table that was there. */
  lemma NewTableBecomes(s: Store, a: nat, t: Value, k: string, s': Store, c: Value)
    requires Neat(s, Ptr(a), t) && t.Table? && a < |s| && s[a].Dict?
    requires Becomes(WithTable(s, a, k), Ptr(|s|), NO_KEYS, s', c)
    ensures Becomes(s, Ptr(a), t, s', Table(t.keys + [k], t.values + [c])) && s'[a] == WithTable(s, a, k)[a]
  {
    var s1, t1, n := WithTable(s, a, k), Table(t.keys + [k], t.values + [NO_KEYS]), |t.values|;
    NewTable(s, a, t, k);
    SlotIs(s, a, t, k);
    WholeBecomes(s1, a, t1, n, s', c);
    assert (t.values + [NO_KEYS])[n := c] == t.values + [c];
    BecomesThen(s, Ptr(a), t, s1, t1, s', WithPart(t1, n, c));
  }

  /** Assigning in place refines assigning in a nested table. */
  lemma {:induction false} AssignRefines(s: Store, a: nat, t: Value, path: seq<string>, x: Value)
    requires Neat(s, Ptr(a), t) && t.Table? && WellFormed(t) && WellFormed(x) && path != []
    ensures a < |s| && s[a].Dict? && Mirrors(s, Ptr(a), t, AssignAt(s, a, path, x), Assign(t, path, x))
    decreases |path|
  {
    var k, i := path[0], Index(t.keys, path[0]);
    SlotIs(s, a, t, k);
    if |path| == 1 {
      if i == |t.keys| {
        InstallIsNeat(s, x);
        KeyAdded(s, a, t, k, Install(s, x).0, Install(s, x).1, x);
        assert path == [k];
      }
    } else if i == |t.keys| {
      NewTable(s, a, t, k);
      AssignRefines(WithTable(s, a, k), |s|, NO_KEYS, path[1..], x);
      if Assign(NO_KEYS, path[1..], x).Ok? {
        NewTableBecomes(s, a, t, k, AssignAt(s, a, path, x).value, Assign(NO_KEYS, path[1..], x).value);
      }
    } else {
      KindIs(s, s[a].slots[i], t.values[i]);
      if t.values[i].Table? {
        AssignRefines(s, s[a].slots[i].address, t.values[i], path[1..], x);
        if Assign(t.values[i], path[1..], x).Ok? {
          WholeBecomes(s, a, t, i, AssignAt(s, a, path, x).value, Assign(t.values[i], path[1..], x).value);
        }
      }
    }
  }

  /** So does assigning through the reference to the current table. */
  lemma {:induction false} EditRefines(s: Store, a: nat, t: Value, base: seq<string>, path: seq<string>, x: Value)
    requires Neat(s, Ptr(a), t) && t.Table? && WellFormed(t) && WellFormed(x) && path != [] && Focus(t, base).Some?
    ensures At(s, a, base).Some?
    ensures var b := At(s, a, base).value;
            && b < |s| && s[b].Dict? && Mirrors(s, Ptr(a), t, AssignAt(s, b, path, x), Edit(t, base, path, x))
            && (Edit(t, base, path, x).Ok? ==> At(AssignAt(s, b, path, x).value, a, base) == Some(b))
    decreases |base|
  {
    if base == [] {
      AssignRefines(s, a, t, path, x);
    } else {
      var i := Index(t.keys, base[0]);
      SlotIs(s, a, t, base[0]);
      var r, v := s[a].slots[i], t.values[i];
      EnterIs(s, r, v);
      BackIsWellFormed(v, NO_KEYS);
      var c := EnterRef(s, r).value;
      EditRefines(s, c, Inner(v).value, base[1..], path, x);
      if Edit(t, base, path, x).Ok? {
        var s' := AssignAt(s, At(s, a, base).value, path, x).value;
        InnerBecomes(s, a, t, base, s', Edit(Inner(v).value, base[1..], path, x).value);
      }
    }
  }

  // ---------------------------------------------------------------------------------
  // Headers
  // ---------------------------------------------------------------------------------

  function SeenBy(d: Doc): Seen {
    Seen(d.explicitTables, d.arrayTables)
  }

  /** The document does what the header means, from the table at `a` with the parts that remain, or fails alike. */
  ghost predicate Opens(d: Doc, s: Store, a: nat, t: Value, parts: seq<string>, path: seq<string>, isArray: bool,
                        out: Result<Doc, Fault>, means: Result<Value, Fault>) {
    match means
    case Err(f) => out == Err(f)
    case Ok(w) =>
      && out.Ok? && Becomes(s, Ptr(a), t, out.value.store, w) && At(out.value.store, a, parts) == Some(out.value.current)
      && SeenBy(out.value) == SeenAfter(SeenBy(d), path, isArray)
  }

  lemma NewArray(s: Store, a: nat, t: Value, k: string)
    requires Neat(s, Ptr(a), t) && t.Table? && a < |s| && s[a].Dict?
    ensures var s' := s + [Dict([], []), List([Ptr(|s|)])];
            Becomes(s, Ptr(a), t, WithKey(s', a, k, Ptr(|s| + 1)), Table(t.keys + [k], t.values + [Array([NO_KEYS])]))
  {
    var s' := s + [Dict([], []), List([Ptr(|s|)])];
    var v := Array([NO_KEYS]);
    assert s'[|s|] == Dict([], []) && s'[|s| + 1] == List([Ptr(|s|)]);
    assert Neat(s', Ptr(|s|), NO_KEYS) && Foot(s', Ptr(|s|), NO_KEYS) == {|s|};
    assert [Ptr(|s|)][1..] == [] && [NO_KEYS][1..] == [];
    assert NeatAll(s', [Ptr(|s|)], [NO_KEYS]) && FootAll(s', [Ptr(|s|)], [NO_KEYS]) == {|s|};
    assert Neat(s', Ptr(|s| + 1), v) && Foot(s', Ptr(|s| + 1), v) == {|s|, |s| + 1};
    KeyAdded(s, a, t, k, s', Ptr(|s| + 1), v);
  }

  /** A key just added is found. */
  lemma AddedIsFound(s: Store, a: nat, k: string, r: Ref)
    requires a < |s| && s[a].Dict? && |s[a].keys| == |s[a].slots| && k !in s[a].keys
    ensures WithKey(s, a, k, r)[a].Dict? && Slot(WithKey(s, a, k, r)[a], k) == Some(r)
  {
    var keys := s[a].keys + [k];
    assert keys[|s[a].keys|] == k;
    assert forall j | 0 <= j < |s[a].keys| :: keys[j] == s[a].keys[j];
  }

  lemma OneStep(s: Store, a: nat, k: string, r: Ref, b: nat)
    requires a < |s| && b < |s| && Slot(s[a], k) == Some(r) && EnterRef(s, r) == Some(b)
    ensures At(s, a, [k]) == Some(b)
  {
    assert [k][1..] == [];
  }

  lemma OpenNew(d: Doc, s: Store, a: nat, t: Value, path: seq<string>, isArray: bool)
    requires Neat(s, Ptr(a), t) && t.Table? && WellFormed(t) && path != [] && a < |s| && s[a].Dict?
    requires var name := path[|path| - 1]; Index(t.keys, name) == |t.keys|
    ensures var name := path[|path| - 1];
            Opens(d, s, a, t, [name], path, isArray, OpenIn(d, s, a, path, isArray), OpenHere(t, SeenBy(d), path, isArray))
  {
    var name := path[|path| - 1];
    SlotIs(s, a, t, name);
    if isArray {
      var s' := s + [Dict([], []), List([Ptr(|s|)])];
      NewArray(s, a, t, name);
      AddedIsFound(s', a, name, Ptr(|s| + 1));
      OneStep(WithKey(s', a, name, Ptr(|s| + 1)), a, name, Ptr(|s| + 1), |s|);
    } else {
      NewTable(s, a, t, name);
      AddedIsFound(s + [Dict([], [])], a, name, Ptr(|s|));
      OneStep(WithTable(s, a, name), a, name, Ptr(|s|), |s|);
    }
  }

  lemma AppendTable(s: Store, a: nat, t: Value, i: nat, b: nat)
    requires Neat(s, Ptr(a), t) && t.Table? && a < |s| && i < |t.values| && i < |s[a].slots|
    requires s[a].slots[i] == Ptr(b) && t.values[i].Array? && b < |s| && s[b].List?
    ensures var s' := WithItem(s + [Dict([], [])], b, Ptr(|s|));
            && Becomes(s, Ptr(a), t, s', Table(t.keys, t.values[i := Array(t.values[i].items + [NO_KEYS])]))
            && s'[a] == s[a] && EnterRef(s', Ptr(b)) == Some(|s|)
  {
    PartIsNeat(s, s[a].slots, t.values, i);
    var s1 := s + [Dict([], [])];
    assert Neat(s1, Ptr(|s|), NO_KEYS);
    ItemAdded(s, b, t.values[i], s1, Ptr(|s|), NO_KEYS);
    WholeBecomes(s, a, t, i, WithItem(s1, b, Ptr(|s|)), Array(t.values[i].items + [NO_KEYS]));
  }

  lemma OpenOld(d: Doc, s: Store, a: nat, t: Value, path: seq<string>, isArray: bool)
    requires Neat(s, Ptr(a), t) && t.Table? && WellFormed(t) && path != [] && a < |s| && s[a].Dict?
    requires var name := path[|path| - 1]; Index(t.keys, name) < |t.keys|
    ensures var name := path[|path| - 1];
            Opens(d, s, a, t, [name], path, isArray, OpenIn(d, s, a, path, isArray), OpenHere(t, SeenBy(d), path, isArray))
  {
    var name := path[|path| - 1];
    var i := Index(t.keys, name);
    SlotIs(s, a, t, name);
    var r := s[a].slots[i];
    KindIs(s, r, t.values[i]);
    if isArray && t.values[i].Array? && path in d.arrayTables {
      AppendTable(s, a, t, i, r.address);
      assert d.arrayTables + {path} == d.arrayTables;
      OneStep(WithItem(s + [Dict([], [])], r.address, Ptr(|s|)), a, name, r, |s|);
    } else if !isArray && t.values[i].Table? {
      OneStep(s, a, name, r, r.address);
    }
  }

  /** The walk along a header's path and what is done at its end, from the table at `a`. */
  function OpenFrom(d: Doc, s: Store, walked: seq<string>, a: nat, parts: seq<string>, isArray: bool): Result<Doc, Fault>
    requires a < |s| && s[a].Dict? && parts != []
  {
    match Descend(s, d.arrayTables, walked, a, parts[..|parts| - 1])
    case Err(f) => Err(f)
    case Ok(at) => OpenIn(d, at.0, at.1, walked + parts, isArray)
  }

  lemma OpenUnfolds(d: Doc, s: Store, walked: seq<string>, a: nat, parts: seq<string>, isArray: bool)
    requires a < |s| && s[a].Dict? && |parts| > 1
    ensures var here := walked + [parts[0]];
            && (WalkStep(s, d.arrayTables, here, a).Create? ==>
                  OpenFrom(d, s, walked, a, parts, isArray) == OpenFrom(d, WithTable(s, a, parts[0]), here, |s|, parts[1..], isArray))
            && (WalkStep(s, d.arrayTables, here, a).Enter? ==>
                  OpenFrom(d, s, walked, a, parts, isArray) ==
                  OpenFrom(d, s, here, WalkStep(s, d.arrayTables, here, a).address, parts[1..], isArray))
            && (WalkStep(s, d.arrayTables, here, a).Stuck? ==>
                  OpenFrom(d, s, walked, a, parts, isArray) == Err(WalkStep(s, d.arrayTables, here, a).fault))
  {
    var front, here := parts[..|parts| - 1], walked + [parts[0]];
    assert front[0] == parts[0] && front[1..] == parts[1..][..|parts| - 2];
    assert here + parts[1..] == walked + parts;
  }

  /** Opening a table in place refines opening it in a nested table. */
  lemma {:induction false} OpenRefines(d: Doc, s: Store, walked: seq<string>, a: nat, t: Value, parts: seq<string>, isArray: bool)
    requires Neat(s, Ptr(a), t) && t.Table? && WellFormed(t) && parts != [] && a < |s| && s[a].Dict?
    ensures Opens(d, s, a, t, parts, walked + parts, isArray, OpenFrom(d, s, walked, a, parts, isArray),
                  Open(t, SeenBy(d), walked, parts, isArray))
    decreases |parts|
  {
    var k, i, here := parts[0], Index(t.keys, parts[0]), walked + [parts[0]];
    if |parts| == 1 {
      assert parts == [k] && walked + parts == here && parts[..0] == [] && here[|here| - 1] == k;
      if i == |t.keys| { OpenNew(d, s, a, t, here, isArray); } else { OpenOld(d, s, a, t, here, isArray); }
    } else {
      SlotIs(s, a, t, k);
      OpenUnfolds(d, s, walked, a, parts, isArray);
      assert here + parts[1..] == walked + parts && here[|here| - 1] == k;
      if i == |t.keys| {
        OpenInNew(d, s, walked, a, t, parts, isArray);
      } else {
        EnterIs(s, s[a].slots[i], t.values[i]);
        KindIs(s, s[a].slots[i], t.values[i]);
        if Inner(t.values[i]).Some? && (t.values[i].Array? ==> here in d.arrayTables) {
          OpenInOld(d, s, walked, a, t, parts, isArray);
        }
      }
    }
  }

  lemma {:induction false} OpenInNew(d: Doc, s: Store, walked: seq<string>, a: nat, t: Value, parts: seq<string>, isArray: bool)
    requires Neat(s, Ptr(a), t) && t.Table? && WellFormed(t) && |parts| > 1 && a < |s| && s[a].Dict?
    requires Index(t.keys, parts[0]) == |t.keys|
    ensures Opens(d, s, a, t, parts, walked + parts, isArray, OpenFrom(d, s, walked, a, parts, isArray),
                  Open(t, SeenBy(d), walked, parts, isArray))
    decreases |parts|, 0
  {
    var k, here := parts[0], walked + [parts[0]];
    SlotIs(s, a, t, k);
    OpenUnfolds(d, s, walked, a, parts, isArray);
    assert here + parts[1..] == walked + parts && here[|here| - 1] == k;
    var s1 := WithTable(s, a, k);
    NewTable(s, a, t, k);
    OpenRefines(d, s1, here, |s|, NO_KEYS, parts[1..], isArray);
    var means := Open(NO_KEYS, SeenBy(d), here, parts[1..], isArray);
    if means.Ok? {
      var d' := OpenFrom(d, s1, here, |s|, parts[1..], isArray).value;
      NewTableBecomes(s, a, t, k, d'.store, means.value);
      AddedIsFound(s + [Dict([], [])], a, k, Ptr(|s|));
      KindIs(d'.store, Ptr(|s|), means.value);
    }
  }

  lemma {:induction false} OpenInOld(d: Doc, s: Store, walked: seq<string>, a: nat, t: Value, parts: seq<string>, isArray: bool)
    requires Neat(s, Ptr(a), t) && t.Table? && WellFormed(t) && |parts| > 1 && a < |s| && s[a].Dict?
    requires var i := Index(t.keys, parts[0]);
             && i < |t.keys| && Inner(t.values[i]).Some?
             && (t.values[i].Array? ==> walked + [parts[0]] in d.arrayTables)
    ensures Opens(d, s, a, t, parts, walked + parts, isArray, OpenFrom(d, s, walked, a, parts, isArray),
                  Open(t, SeenBy(d), walked, parts, isArray))
    decreases |parts|, 0
  {
    var k, i, here := parts[0], Index(t.keys, parts[0]), walked + [parts[0]];
    SlotIs(s, a, t, k);
    OpenUnfolds(d, s, walked, a, parts, isArray);
    assert here + parts[1..] == walked + parts && here[|here| - 1] == k;
    var r, v := s[a].slots[i], t.values[i];
    EnterIs(s, r, v);
    KindIs(s, r, v);
    BackIsWellFormed(v, NO_KEYS);
    var c := EnterRef(s, r).value;
    OpenRefines(d, s, here, c, Inner(v).value, parts[1..], isArray);
    var means := Open(Inner(v).value, SeenBy(d), here, parts[1..], isArray);
    if means.Ok? {
      InnerBecomes(s, a, t, parts, OpenFrom(d, s, here, c, parts[1..], isArray).value.store, means.value);
    }
  }

  // ---------------------------------------------------------------------------------
  // Whole documents
  // ---------------------------------------------------------------------------------

  /** The objects of the document spell the table of the draft, and its current table is where the draft edits. */
  ghost predicate Refines(d: Doc, m: Draft) {
    && Editable(m) && Neat(d.store, Ptr(0), m.root) && At(d.store, 0, m.base) == Some(d.current) && SeenBy(d) == m.seen
  }

  ghost predicate Agree(out: Result<Doc, Fault>, means: Result<Draft, Fault>) {
    match means
    case Err(f) => out == Err(f)
    case Ok(m) => out.Ok? && Refines(out.value, m)
  }

  lemma RefinesIsRunnable(d: Doc, m: Draft)
    requires Refines(d, m)
    ensures Runnable(d)
  {
    CurrentIsTable(d.store, 0, m.root, m.base);
  }

  lemma {:induction false} CurrentIsTable(s: Store, a: nat, t: Value, base: seq<string>)
    requires Neat(s, Ptr(a), t) && t.Table? && WellFormed(t) && At(s, a, base).Some?
    ensures At(s, a, base).value < |s| && s[At(s, a, base).value].Dict?
    decreases |base|
  {
    if base != [] {
      var i := Index(t.keys, base[0]);
      SlotIs(s, a, t, base[0]);
      EnterIs(s, s[a].slots[i], t.values[i]);
      BackIsWellFormed(t.values[i], NO_KEYS);
      CurrentIsTable(s, EnterRef(s, s[a].slots[i]).value, Inner(t.values[i]).value, base[1..]);
    }
  }

  /** Every statement, run on the objects, does what it means, or is refused for the same reason. */
  lemma StatementRefines(d: Doc, m: Draft, stmt: Stmt)
    requires Refines(d, m) && stmt.path != [] && (stmt.KeyValue? ==> WellFormed(stmt.value))
    ensures Runnable(d) && Agree(Exec(d, stmt), Perform(m, stmt))
  {
    RefinesIsRunnable(d, m);
    match stmt
    case KeyValue(path, x) =>
      EditRefines(d.store, 0, m.root, m.base, path, x);
    case Header(path, isArray) =>
      OpenRefines(d, d.store, [], 0, m.root, path, isArray);
      assert [] + path == path;
  }

  lemma {:induction false} RunRefines(d: Doc, m: Draft, stmts: seq<Stmt>)
    requires Refines(d, m) && Legal(stmts)
    ensures Runnable(d) && Agree(RunAll(d, stmts), Performed(m, stmts))
    decreases |stmts|
  {
    RefinesIsRunnable(d, m);
    if stmts != [] {
      StatementRefines(d, m, stmts[0]);
      if Perform(m, stmts[0]).Ok? { RunRefines(Exec(d, stmts[0]).value, Perform(m, stmts[0]).value, stmts[1..]); }
    }
  }

  lemma BlankRefines()
    ensures Refines(EMPTY, BLANK)
  {
    assert Neat(EMPTY.store, Ptr(0), NO_KEYS);
  }

  lemma {:induction false} NeatSpells(s: Store, r: Ref, v: Value)
    requires Neat(s, r, v)
    ensures Spells(s, r, v)
    decreases v, 1
  {
    if v.Array? || v.Table? {
      forall i | 0 <= i < |Parts(v)| ensures Spells(s, s[r.address].slots[i], Parts(v)[i]) {
        PartIsNeat(s, s[r.address].slots, Parts(v), i);
        NeatSpells(s, s[r.address].slots[i], Parts(v)[i]);
      }
    }
  }
}
