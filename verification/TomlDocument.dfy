/**
  The document that scripts/toml_reader.py builds in place.  Dictionaries and lists are
  objects at addresses, a slot holds a scalar or a reference, and the reader keeps a
  reference to the current table; so aliasing is part of the model.  Over every run the
  document only grows and stays a tree in which the current table can be reached.
 */
module TomlDocument {
  import opened TomlText
  import opened TomlValue

  datatype Ref = Leaf(value: Value) | Ptr(address: nat)

  datatype Obj = Dict(keys: seq<string>, slots: seq<Ref>) | List(slots: seq<Ref>)

  type Store = seq<Obj>

  /** The root is the object at address 0. */
  datatype Doc = Doc(
    store: Store,
    current: nat,
    explicitTables: set<seq<string>>,
    arrayTables: set<seq<string>>
  )

  const EMPTY: Doc := Doc([Dict([], [])], 0, {}, {})

  datatype Stmt = KeyValue(path: seq<string>, value: Value) | Header(path: seq<string>, isArray: bool)

  // ---------------------------------------------------------------------------------
  // Trees of objects
  // ---------------------------------------------------------------------------------

  predicate Points(s: Store, a: nat, i: nat, t: nat) {
    a < |s| && i < |s[a].slots| && s[a].slots[i] == Ptr(t)
  }

  ghost predicate Distinct(keys: seq<string>) {
    forall i, j | 0 <= i < j < |keys| :: keys[i] != keys[j]
  }

  ghost predicate Paired(s: Store) {
    forall a | 0 <= a < |s| :: s[a].Dict? ==> |s[a].keys| == |s[a].slots| && Distinct(s[a].keys)
  }

  ghost predicate InBounds(s: Store) {
    forall a: nat, i: nat, t: nat | Points(s, a, i, t) :: t < |s|
  }

  /** No object is held by two slots. */
  ghost predicate Unshared(s: Store) {
    forall a: nat, i: nat, b: nat, j: nat, t: nat | Points(s, a, i, t) && Points(s, b, j, t) :: a == b && i == j
  }

  ghost predicate Unheld(s: Store, t: nat) {
    forall a: nat, i: nat :: !Points(s, a, i, t)
  }

  ghost predicate Forest(s: Store) {
    Paired(s) && InBounds(s) && Unshared(s)
  }

  ghost predicate Tree(s: Store) {
    s != [] && s[0].Dict? && Forest(s) && Unheld(s, 0)
  }

  ghost predicate ObjGrows(o: Obj, o': Obj) {
    && (o.Dict? <==> o'.Dict?)
    && o.slots <= o'.slots
    && (o.Dict? ==> o.keys <= o'.keys)
  }

  /** Every object stays where it is; tables only gain keys, lists only gain trailing elements. */
  ghost predicate Grows(s: Store, s': Store) {
    |s| <= |s'| && forall a | 0 <= a < |s| :: ObjGrows(s[a], s'[a])
  }

  lemma GrowsTransitive(s: Store, t: Store, u: Store)
    requires Grows(s, t) && Grows(t, u)
    ensures Grows(s, u)
  {
    forall a | 0 <= a < |s| ensures ObjGrows(s[a], u[a]) {
      assert ObjGrows(s[a], t[a]) && ObjGrows(t[a], u[a]);
    }
  }

  // ---------------------------------------------------------------------------------
  // Adding slots and objects
  // ---------------------------------------------------------------------------------

  function WithKey(s: Store, a: nat, k: string, r: Ref): Store
    requires a < |s| && s[a].Dict?
  {
    s[a := Dict(s[a].keys + [k], s[a].slots + [r])]
  }

  function WithItem(s: Store, a: nat, r: Ref): Store
    requires a < |s| && s[a].List?
  {
    s[a := List(s[a].slots + [r])]
  }

  /** A reference that can be put into a slot without sharing: a scalar, or an object nobody holds. */
  ghost predicate Adoptable(s: Store, r: Ref) {
    r.Ptr? ==> 0 < r.address < |s| && Unheld(s, r.address)
  }

  lemma AddedSlot(s: Store, s': Store, a: nat, r: Ref)
    requires a < |s| == |s'| && s' == s[a := s'[a]] && s'[a].slots == s[a].slots + [r]
    ensures forall b: nat, i: nat, t: nat | Points(s', b, i, t) :: Points(s, b, i, t) || (b == a && i == |s[a].slots| && r == Ptr(t))
    ensures forall b: nat, i: nat, t: nat | Points(s, b, i, t) :: Points(s', b, i, t)
  {
  }

  lemma KeyKeepsTree(s: Store, a: nat, k: string, r: Ref)
    requires Tree(s) && a < |s| && s[a].Dict? && k !in s[a].keys && Adoptable(s, r)
    ensures Tree(WithKey(s, a, k, r)) && Grows(s, WithKey(s, a, k, r))
  {
    AddedSlot(s, WithKey(s, a, k, r), a, r);
  }

  lemma ItemKeepsTree(s: Store, a: nat, r: Ref)
    requires Tree(s) && a < |s| && s[a].List? && Adoptable(s, r)
    ensures Tree(WithItem(s, a, r)) && Grows(s, WithItem(s, a, r))
  {
    AddedSlot(s, WithItem(s, a, r), a, r);
  }

  ghost predicate DistinctRefs(refs: seq<Ref>) {
    forall i, j | 0 <= i < j < |refs| && refs[i].Ptr? :: refs[i] != refs[j]
  }

  /** Appending an object whose references are adoptable keeps the forest, and nobody holds it yet. */
  lemma NewObject(s: Store, o: Obj)
    requires Forest(s) && DistinctRefs(o.slots)
    requires o.Dict? ==> |o.keys| == |o.slots| && Distinct(o.keys)
    requires forall i | 0 <= i < |o.slots| :: o.slots[i].Ptr? ==> o.slots[i].address < |s| && Unheld(s, o.slots[i].address)
    ensures Forest(s + [o]) && Unheld(s + [o], |s|)
    ensures forall t: nat | Unheld(s, t) && Ptr(t) !in o.slots :: Unheld(s + [o], t)
  {
    var s' := s + [o];
    forall a: nat, i: nat, t: nat | Points(s', a, i, t) ensures if a < |s| then Points(s, a, i, t) else o.slots[i] == Ptr(t) {}
  }

  // ---------------------------------------------------------------------------------
  // Building the objects of a value
  // ---------------------------------------------------------------------------------

  function Install(s: Store, v: Value): (r: (Store, Ref))
    ensures s <= r.0
    decreases v, 1
  {
    match v
    case Array(items) =>
      var (s', refs) := InstallAll(s, items);
      (s' + [List(refs)], Ptr(|s'|))
    case Table(keys, values) =>
      var (s', refs) := InstallAll(s, values);
      (s' + [Dict(keys, refs)], Ptr(|s'|))
    case _ => (s, Leaf(v))
  }

  function InstallAll(s: Store, vs: seq<Value>): (r: (Store, seq<Ref>))
    ensures s <= r.0 && |r.1| == |vs|
    decreases vs, 0
  {
    if vs == [] then (s, [])
    else
      var (s', r) := Install(s, vs[0]);
      var (s'', rs) := InstallAll(s', vs[1..]);
      (s'', [r] + rs)
  }

  /** `s'` adds objects to `s` that refer to added objects only. */
  ghost predicate Fresh(s: Store, s': Store) {
    s <= s' && forall a: nat, i: nat, t: nat | |s| <= a && Points(s', a, i, t) :: |s| <= t
  }

  ghost predicate FreshRef(s: Store, s': Store, r: Ref) {
    r.Ptr? ==> |s| <= r.address < |s'| && Unheld(s', r.address)
  }

  lemma FreshKeepsUnheld(s: Store, s': Store, t: nat)
    requires Fresh(s, s') && t < |s| && Unheld(s, t)
    ensures Unheld(s', t)
  {
    forall a: nat, i: nat ensures !Points(s', a, i, t) {
      if a < |s| {
        assert s'[a] == s[a];
        assert !Points(s, a, i, t);
      }
    }
  }

  lemma FreshTransitive(s: Store, t: Store, u: Store)
    requires Fresh(s, t) && Fresh(t, u)
    ensures Fresh(s, u)
  {
    forall a: nat, i: nat, x: nat | |s| <= a && Points(u, a, i, x) ensures |s| <= x {
      if a < |t| { assert u[a] == t[a]; assert Points(t, a, i, x); }
    }
  }

  lemma FreshGrows(s: Store, s': Store)
    requires Fresh(s, s')
    ensures Grows(s, s')
  {
    forall a | 0 <= a < |s| ensures ObjGrows(s[a], s'[a]) { assert s'[a] == s[a]; }
  }

  lemma {:induction false} InstallIsFresh(s: Store, v: Value)
    requires Forest(s) && WellFormed(v)
    ensures Forest(Install(s, v).0) && Fresh(s, Install(s, v).0) && FreshRef(s, Install(s, v).0, Install(s, v).1)
    decreases v, 1
  {
    match v
    case Array(items) =>
      InstallAllIsFresh(s, items);
      AppendFresh(s, InstallAll(s, items).0, List(InstallAll(s, items).1));
    case Table(keys, values) =>
      InstallAllIsFresh(s, values);
      AppendFresh(s, InstallAll(s, values).0, Dict(keys, InstallAll(s, values).1));
    case _ =>
  }

  lemma AppendFresh(s: Store, s': Store, o: Obj)
    requires Forest(s') && Fresh(s, s') && DistinctRefs(o.slots)
    requires o.Dict? ==> |o.keys| == |o.slots| && Distinct(o.keys)
    requires forall i | 0 <= i < |o.slots| :: FreshRef(s, s', o.slots[i])
    ensures Forest(s' + [o]) && Fresh(s, s' + [o]) && FreshRef(s, s' + [o], Ptr(|s'|))
  {
    forall i | 0 <= i < |o.slots| && o.slots[i].Ptr? ensures o.slots[i].address < |s'| && Unheld(s', o.slots[i].address) {
      assert FreshRef(s, s', o.slots[i]);
    }
    NewObject(s', o);
    forall a: nat, i: nat, t: nat | |s| <= a && Points(s' + [o], a, i, t) ensures |s| <= t {
      if a < |s'| { assert Points(s', a, i, t); } else { assert FreshRef(s, s', o.slots[i]); }
    }
  }

  lemma {:induction false} InstallAllIsFresh(s: Store, vs: seq<Value>)
    requires Forest(s) && AllWellFormed(vs)
    ensures Forest(InstallAll(s, vs).0) && Fresh(s, InstallAll(s, vs).0)
    ensures DistinctRefs(InstallAll(s, vs).1)
    ensures forall i | 0 <= i < |vs| :: FreshRef(s, InstallAll(s, vs).0, InstallAll(s, vs).1[i])
    decreases vs, 0
  {
    if vs != [] {
      InstallIsFresh(s, vs[0]);
      var (s', r) := Install(s, vs[0]);
      InstallAllIsFresh(s', vs[1..]);
      var (s'', rs) := InstallAll(s', vs[1..]);
      FreshTransitive(s, s', s'');
      if r.Ptr? { FreshKeepsUnheld(s', s'', r.address); }
      forall i | 0 <= i < |rs| ensures FreshRef(s, s'', rs[i]) && (r.Ptr? ==> r != rs[i]) {
        assert FreshRef(s', s'', rs[i]);
      }
    }
  }

  // ---------------------------------------------------------------------------------
  // Reading values back
  // ---------------------------------------------------------------------------------

  /** The objects at `r` spell out `v`; later additions to lists and tables do not count. */
  ghost predicate Holds(s: Store, r: Ref, v: Value)
    decreases v
  {
    match v
    case Array(items) =>
      && r.Ptr? && r.address < |s| && s[r.address].List?
      && |items| <= |s[r.address].slots|
      && forall i | 0 <= i < |items| :: Holds(s, s[r.address].slots[i], items[i])
    case Table(keys, values) =>
      && r.Ptr? && r.address < |s| && s[r.address].Dict?
      && keys <= s[r.address].keys && |values| <= |s[r.address].slots|
      && forall i | 0 <= i < |values| :: Holds(s, s[r.address].slots[i], values[i])
    case _ => r == Leaf(v)
  }

  lemma {:induction false} HoldsGrows(s: Store, s': Store, r: Ref, v: Value)
    requires Grows(s, s') && Holds(s, r, v)
    ensures Holds(s', r, v)
    decreases v
  {
    match v
    case Array(items) =>
      assert ObjGrows(s[r.address], s'[r.address]);
      forall i | 0 <= i < |items| ensures Holds(s', s'[r.address].slots[i], items[i]) {
        HoldsGrows(s, s', s[r.address].slots[i], items[i]);
      }
    case Table(keys, values) =>
      assert ObjGrows(s[r.address], s'[r.address]);
      forall i | 0 <= i < |values| ensures Holds(s', s'[r.address].slots[i], values[i]) {
        HoldsGrows(s, s', s[r.address].slots[i], values[i]);
      }
    case _ =>
  }

  lemma {:induction false} InstallHolds(s: Store, v: Value)
    requires Forest(s) && WellFormed(v)
    ensures Holds(Install(s, v).0, Install(s, v).1, v)
    decreases v, 1
  {
    match v
    case Array(items) =>
      InstallAllHolds(s, items);
      var (s', refs) := InstallAll(s, items);
      ListHolds(s', refs, items);
    case Table(keys, values) =>
      InstallAllHolds(s, values);
      var (s', refs) := InstallAll(s, values);
      DictHolds(s', keys, refs, values);
    case _ =>
  }

  lemma ListHolds(s: Store, refs: seq<Ref>, items: seq<Value>)
    requires |refs| == |items| && forall i | 0 <= i < |items| :: Holds(s, refs[i], items[i])
    ensures Holds(s + [List(refs)], Ptr(|s|), Array(items))
  {
    var s' := s + [List(refs)];
    assert Grows(s, s');
    forall i | 0 <= i < |items| ensures Holds(s', refs[i], items[i]) { HoldsGrows(s, s', refs[i], items[i]); }
  }

  lemma DictHolds(s: Store, keys: seq<string>, refs: seq<Ref>, values: seq<Value>)
    requires |refs| == |values| && forall i | 0 <= i < |values| :: Holds(s, refs[i], values[i])
    ensures Holds(s + [Dict(keys, refs)], Ptr(|s|), Table(keys, values))
  {
    var s' := s + [Dict(keys, refs)];
    assert Grows(s, s');
    forall i | 0 <= i < |values| ensures Holds(s', refs[i], values[i]) { HoldsGrows(s, s', refs[i], values[i]); }
  }

  lemma {:induction false} InstallAllHolds(s: Store, vs: seq<Value>)
    requires Forest(s) && AllWellFormed(vs)
    ensures forall i | 0 <= i < |vs| :: Holds(InstallAll(s, vs).0, InstallAll(s, vs).1[i], vs[i])
    decreases vs, 0
  {
    if vs != [] {
      InstallHolds(s, vs[0]);
      InstallIsFresh(s, vs[0]);
      var (s', r) := Install(s, vs[0]);
      InstallAllHolds(s', vs[1..]);
      InstallAllIsFresh(s', vs[1..]);
      var (s'', rs) := InstallAll(s', vs[1..]);
      FreshGrows(s', s'');
      HoldsGrows(s', s'', r, vs[0]);
    }
  }
}
