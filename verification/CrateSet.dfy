/**
  The crate package set: the manifest `build_manifest` writes in
  scripts/release/canonical-crate-set.py and the independent reader `validate` in
  scripts/release/crate_package_set.py.
 */
module CrateSet {
  import opened Wrappers
  import opened TextOrder
  import opened CrateOrder

  const REPOSITORY_ID: int := 1239918790
  const MANIFEST_FILE: string := "crate-package-set.json"

  /** A regular file, as far as either script looks at it. */
  datatype File = File(size: int, sha256: string)

  datatype Entry = Entry(
    name: string, version: string, file: string, size: int, sha256: string, dependencies: seq<string>)

  datatype Manifest = Manifest(
    schemaVersion: int,
    repositoryId: int,
    sourceSha: string,
    version: string,
    publishOrder: seq<string>,
    packageCount: int,
    packages: seq<Entry>
  )

  datatype Refusal = Identity | BadEntry | OrderDiffers | FilesDiffer | OrderViolated

  function Elems(s: seq<string>): set<string> {
    set n | n in s
  }

  function FileName(name: string, version: string): string {
    name + "-" + version + ".crate"
  }

  function CratePath(name: string, version: string): string {
    "crates/" + FileName(name, version)
  }

  lemma FileNamesDiffer(a: string, b: string, version: string)
    requires FileName(a, version) == FileName(b, version)
    ensures a == b
  {
    var suffix := "-" + version + ".crate";
    assert FileName(a, version) == a + suffix && FileName(b, version) == b + suffix;
    assert (a + suffix)[..|a|] == a && (b + suffix)[..|b|] == b;
  }

  lemma CratePathsDiffer(a: string, b: string, version: string)
    requires CratePath(a, version) == CratePath(b, version)
    ensures a == b
  {
    assert CratePath(a, version)[7..] == FileName(a, version) && CratePath(b, version)[7..] == FileName(b, version);
    FileNamesDiffer(a, b, version);
  }

  // ---------------------------------------------------------------------------------
  // Writing
  // ---------------------------------------------------------------------------------

  function EntryFor(name: string, version: string, deps: map<string, seq<string>>, crates: map<string, File>): Entry
    requires name in deps && FileName(name, version) in crates
  {
    var f := crates[FileName(name, version)];
    Entry(name, version, FileName(name, version), f.size, f.sha256, deps[name])
  }

  /** Exactly one nonempty crate file per name. */
  predicate Packed(version: string, order: seq<string>, crates: map<string, File>) {
    && crates.Keys == (set n | n in order :: FileName(n, version))
    && forall f | f in crates :: crates[f].size > 0
  }

  function EntriesFor(order: seq<string>, version: string, deps: map<string, seq<string>>, crates: map<string, File>):
    (entries: seq<Entry>)
    requires forall n | n in order :: n in deps && FileName(n, version) in crates
    ensures |entries| == |order|
    ensures forall i | 0 <= i < |order| :: entries[i] == EntryFor(order[i], version, deps, crates)
  {
    seq(|order|, i requires 0 <= i < |order| => EntryFor(order[i], version, deps, crates))
  }

  /** The archive members: every crate file under `crates/`, and nothing else. */
  ghost predicate Carries(payloads: map<string, File>, order: seq<string>, version: string, crates: map<string, File>) {
    && payloads.Keys == (set n | n in order :: CratePath(n, version))
    && forall n | n in order ::
         FileName(n, version) in crates && payloads[CratePath(n, version)] == crates[FileName(n, version)]
  }

  lemma CarriesOneMore(payloads: map<string, File>, order: seq<string>, name: string, version: string, crates: map<string, File>)
    requires Carries(payloads, order, version, crates) && FileName(name, version) in crates
    ensures Carries(payloads[CratePath(name, version) := crates[FileName(name, version)]], order + [name], version, crates)
  {
    var more := payloads[CratePath(name, version) := crates[FileName(name, version)]];
    assert (set n | n in order + [name] :: CratePath(n, version)) ==
           (set n | n in order :: CratePath(n, version)) + {CratePath(name, version)};
    forall n | n in order + [name]
      ensures FileName(n, version) in crates && more[CratePath(n, version)] == crates[FileName(n, version)]
    {
      if CratePath(n, version) == CratePath(name, version) { CratePathsDiffer(n, name, version); }
    }
  }

  /** The loop over the publish order; `crates` is the output directory of the packaging step. */
  method BuildManifest(sourceSha: string, version: string, order: seq<string>, deps: map<string, seq<string>>,
                       crates: map<string, File>)
    returns (r: Result<(Manifest, map<string, File>), Refusal>)
    requires forall n | n in order :: n in deps
    ensures r.Ok? <==> Packed(version, order, crates)
    ensures r.Ok? ==> forall n | n in order :: FileName(n, version) in crates
    ensures r.Ok? ==> r.value.0 == Manifest(1, REPOSITORY_ID, sourceSha, version, order, |order|,
                                            EntriesFor(order, version, deps, crates))
    ensures r.Ok? ==> Carries(r.value.1, order, version, crates)
  {
    var expected := set n | n in order :: FileName(n, version);
    if crates.Keys != expected {
      return Err(FilesDiffer);
    }
    assert forall n | n in order :: FileName(n, version) in crates;
    var entries: seq<Entry> := [];
    var payloads: map<string, File> := map[];
    var i := 0;
    while i < |order|
      invariant 0 <= i <= |order|
      invariant entries == EntriesFor(order[..i], version, deps, crates)
      invariant forall n | n in order[..i] :: crates[FileName(n, version)].size > 0
      invariant Carries(payloads, order[..i], version, crates)
    {
      var name := order[i];
      var file := FileName(name, version);
      if crates[file].size <= 0 {
        return Err(FilesDiffer);
      }
      assert order[..i + 1] == order[..i] + [name];
      CarriesOneMore(payloads, order[..i], name, version, crates);
      payloads := payloads[CratePath(name, version) := crates[file]];
      entries := entries + [EntryFor(name, version, deps, crates)];
      i := i + 1;
    }
    assert order[..i] == order;
    forall f | f in crates ensures crates[f].size > 0 {
      var n :| n in order && f == FileName(n, version);
    }
    return Ok((Manifest(1, REPOSITORY_ID, sourceSha, version, order, |order|, entries), payloads));
  }

  // ---------------------------------------------------------------------------------
  // Reading
  // ---------------------------------------------------------------------------------

  predicate Identified(m: Manifest, sourceSha: string, version: string) {
    && m.schemaVersion == 1
    && m.repositoryId == REPOSITORY_ID
    && m.sourceSha == sourceSha
    && m.version == version
    && m.packageCount == |m.packages|
  }

  predicate Canonical(e: Entry, version: string, files: map<string, File>) {
    && e.name != ""
    && e.version == version
    && e.file == FileName(e.name, version)
    && Ascending(e.dependencies)
    && "crates/" + e.file in files
    && files["crates/" + e.file] == File(e.size, e.sha256)
  }

  ghost predicate DistinctEntries(es: seq<Entry>) {
    forall i, j | 0 <= i < j < |es| :: es[i].name != es[j].name
  }

  /** The dependency graph a list of entries declares. */
  ghost function EntryGraph(es: seq<Entry>): Graph {
    if es == [] then map[]
    else
      var last := es[|es| - 1];
      EntryGraph(es[..|es| - 1])[last.name := Elems(last.dependencies)]
  }

  ghost function ExpectedFiles(es: seq<Entry>): set<string> {
    {MANIFEST_FILE} + set e | e in es :: "crates/" + e.file
  }

  ghost predicate EntriesCanonical(es: seq<Entry>, version: string, files: map<string, File>) {
    && (forall e | e in es :: Canonical(e, version, files))
    && DistinctEntries(es)
  }

  /** The manifests the reader accepts for an extracted file tree. */
  ghost predicate Acceptable(m: Manifest, files: map<string, File>, symlinks: bool, sourceSha: string, version: string) {
    && Identified(m, sourceSha, version)
    && EntriesCanonical(m.packages, version, files)
    && Topological(EntryGraph(m.packages), m.publishOrder)
    && !symlinks
    && files.Keys == ExpectedFiles(m.packages)
  }

  function EntryNames(es: seq<Entry>): (names: seq<string>)
    ensures |names| == |es| && forall i | 0 <= i < |es| :: names[i] == es[i].name
  {
    seq(|es|, i requires 0 <= i < |es| => es[i].name)
  }

  lemma {:induction false} EntryGraphKeys(es: seq<Entry>)
    ensures EntryGraph(es).Keys == Elems(EntryNames(es))
  {
    if es != [] {
      var init, last := es[..|es| - 1], es[|es| - 1];
      EntryGraphKeys(init);
      assert EntryNames(es) == EntryNames(init) + [last.name];
      assert Elems(EntryNames(es)) == Elems(EntryNames(init)) + {last.name};
    }
  }

  lemma {:induction false} EntryGraphAt(es: seq<Entry>, i: nat)
    requires DistinctEntries(es) && i < |es|
    ensures es[i].name in EntryGraph(es) && EntryGraph(es)[es[i].name] == Elems(es[i].dependencies)
  {
    if i < |es| - 1 {
      var init := es[..|es| - 1];
      EntryGraphAt(init, i);
      assert init[i] == es[i] && es[i].name != es[|es| - 1].name;
    }
  }

  /** The order of a manifest on its entries: each name once, and every dependency of an entry before it. */
  ghost predicate ListedInOrder(es: seq<Entry>, order: seq<string>) {
    && (forall i, j | 0 <= i < j < |order| :: order[i] != order[j])
    && (forall n :: n in order <==> exists i :: 0 <= i < |es| && es[i].name == n)
    && (forall i, k, d | 0 <= i < |order| && 0 <= k < |es| && es[k].name == order[i] && d in es[k].dependencies :: d in order[..i])
  }

  lemma TopologicalIffListed(es: seq<Entry>, order: seq<string>)
    requires DistinctEntries(es)
    ensures Topological(EntryGraph(es), order) <==> ListedInOrder(es, order)
  {
    var g := EntryGraph(es);
    EntryGraphKeys(es);
    forall n ensures n in g <==> exists i :: 0 <= i < |es| && es[i].name == n {
      if n in g {
        var i :| 0 <= i < |es| && EntryNames(es)[i] == n;
        assert es[i].name == n;
      }
      if i :| 0 <= i < |es| && es[i].name == n { assert EntryNames(es)[i] in EntryNames(es); }
    }
    forall i | 0 <= i < |es| ensures g[es[i].name] == Elems(es[i].dependencies) { EntryGraphAt(es, i); }
    if Topological(g, order) {
      forall i, k, d | 0 <= i < |order| && 0 <= k < |es| && es[k].name == order[i] && d in es[k].dependencies
        ensures d in order[..i]
      {
        assert Prepared(g, order, i);
      }
    }
    if ListedInOrder(es, order) {
      forall i | 0 <= i < |order| ensures Prepared(g, order, i) {
        assert order[i] in order;
        var k :| 0 <= k < |es| && es[k].name == order[i];
      }
    }
  }

  method Validate(m: Manifest, files: map<string, File>, symlinks: bool, sourceSha: string, version: string)
    returns (r: Result<seq<Entry>, Refusal>)
    ensures r.Ok? <==> Acceptable(m, files, symlinks, sourceSha, version)
    ensures r.Ok? ==>
              && |r.value| == |m.publishOrder| == |m.packages|
              && forall i | 0 <= i < |r.value| :: r.value[i] in m.packages && r.value[i].name == m.publishOrder[i]
  {
    if !Identified(m, sourceSha, version) {
      return Err(Identity);
    }
    var indexed := IndexEntries(m.packages, version, files);
    if indexed.Err? {
      return Err(indexed.error);
    }
    var (byName, expectedFiles) := indexed.value;
    var order := m.publishOrder;
    ghost var g := EntryGraph(m.packages);
    IndexedGraph(byName, m.packages);
    if |order| != |Elems(order)| || Elems(order) != byName.Keys {
      NotAPermutation(order, g);
      return Err(OrderDiffers);
    }
    if symlinks || files.Keys != expectedFiles {
      return Err(FilesDiffer);
    }
    DistinctBySize(order);
    r := ReplayOrder(order, byName, g);
    if r.Ok? { SameLength(order, m.packages); }
  }

  method IndexEntries(packages: seq<Entry>, version: string, files: map<string, File>)
    returns (r: Result<(map<string, Entry>, set<string>), Refusal>)
    ensures r.Ok? <==> EntriesCanonical(packages, version, files)
    ensures r.Ok? ==> r.value.1 == ExpectedFiles(packages)
    ensures r.Ok? ==> Indexes(r.value.0, packages)
  {
    var byName: map<string, Entry> := map[];
    var expectedFiles := {MANIFEST_FILE};
    var i := 0;
    while i < |packages|
      invariant 0 <= i <= |packages|
      invariant EntriesCanonical(packages[..i], version, files)
      invariant expectedFiles == ExpectedFiles(packages[..i])
      invariant Indexes(byName, packages[..i])
    {
      var e := packages[i];
      if !Canonical(e, version, files) {
        assert e in packages;
        return Err(BadEntry);
      }
      if e.name in byName {
        NameIsRepeated(packages, i, byName);
        return Err(BadEntry);
      }
      OneMoreEntry(packages, i, version, files, byName);
      expectedFiles := expectedFiles + {"crates/" + e.file};
      byName := byName[e.name := e];
      i := i + 1;
    }
    assert packages[..i] == packages;
    return Ok((byName, expectedFiles));
  }

  lemma NameIsRepeated(es: seq<Entry>, i: nat, byName: map<string, Entry>)
    requires i < |es| && Indexes(byName, es[..i]) && es[i].name in byName
    ensures !DistinctEntries(es)
  {
    var k :| 0 <= k < i && es[..i][k] == byName[es[i].name];
    assert es[k].name == es[i].name;
  }

  lemma OneMoreEntry(packages: seq<Entry>, k: nat, version: string, files: map<string, File>, byName: map<string, Entry>)
    requires k < |packages| && EntriesCanonical(packages[..k], version, files) && Indexes(byName, packages[..k])
    requires Canonical(packages[k], version, files) && packages[k].name !in byName
    ensures EntriesCanonical(packages[..k + 1], version, files)
    ensures Indexes(byName[packages[k].name := packages[k]], packages[..k + 1])
    ensures ExpectedFiles(packages[..k + 1]) == ExpectedFiles(packages[..k]) + {"crates/" + packages[k].file}
  {
    var es, e := packages[..k], packages[k];
    var all := packages[..k + 1];
    assert all == es + [e];
    assert DistinctEntries(all) by {
      forall i, j | 0 <= i < j < |all| ensures all[i].name != all[j].name {
        assert i < |es| && all[i] == es[i] && es[i] in es;
      }
    }
    assert forall x :: x in all <==> x in es || x == e;
  }

  /** `byName` holds every entry under its name, and nothing else. */
  ghost predicate Indexes(byName: map<string, Entry>, es: seq<Entry>) {
    && (forall n | n in byName :: byName[n] in es && byName[n].name == n)
    && (forall e | e in es :: e.name in byName)
  }

  lemma IndexedGraph(byName: map<string, Entry>, es: seq<Entry>)
    requires DistinctEntries(es) && Indexes(byName, es)
    ensures EntryGraph(es).Keys == byName.Keys
    ensures forall n | n in byName :: EntryGraph(es)[n] == Elems(byName[n].dependencies)
  {
    EntryGraphKeys(es);
    forall n | n in byName ensures n in EntryGraph(es) && EntryGraph(es)[n] == Elems(byName[n].dependencies) {
      var i :| 0 <= i < |es| && es[i] == byName[n];
      EntryGraphAt(es, i);
    }
    forall n | n in EntryGraph(es) ensures n in byName {
      var i :| 0 <= i < |es| && EntryNames(es)[i] == n;
      assert es[i] in es;
    }
  }

  method ReplayOrder(order: seq<string>, byName: map<string, Entry>, ghost g: Graph)
    returns (r: Result<seq<Entry>, Refusal>)
    requires g.Keys == byName.Keys == Elems(order)
    requires forall n | n in byName :: g[n] == Elems(byName[n].dependencies)
    requires forall i, j | 0 <= i < j < |order| :: order[i] != order[j]
    ensures r.Ok? <==> Topological(g, order)
    ensures r.Ok? ==>
              |r.value| == |order| && forall i | 0 <= i < |order| :: order[i] in byName && r.value[i] == byName[order[i]]
  {
    var published: set<string> := {};
    var ordered: seq<Entry> := [];
    var i := 0;
    while i < |order|
      invariant 0 <= i <= |order|
      invariant |ordered| == i && published == Elems(order[..i])
      invariant forall k | 0 <= k < i :: order[k] in byName && ordered[k] == byName[order[k]]
      invariant forall k | 0 <= k < i :: Prepared(g, order, k)
    {
      var name := order[i];
      assert name in Elems(order);
      var package := byName[name];
      if !(Elems(package.dependencies) <= published) {
        assert !Prepared(g, order, i);
        return Err(OrderViolated);
      }
      assert order[..i + 1] == order[..i] + [name];
      ordered := ordered + [package];
      published := published + {name};
      i := i + 1;
    }
    assert forall n :: n in order <==> n in Elems(order);
    return Ok(ordered);
  }

  lemma {:induction false} DistinctBySize(s: seq<string>)
    requires |s| == |Elems(s)|
    ensures forall i, j | 0 <= i < j < |s| :: s[i] != s[j]
  {
    if s != [] {
      var init, last := s[..|s| - 1], s[|s| - 1];
      assert s == init + [last];
      var names := Elems(init);
      assert Elems(s) == names + {last};
      SetSize(init);
      assert last !in names;
      DistinctBySize(init);
    }
  }

  lemma {:induction false} SetSize(s: seq<string>)
    ensures |Elems(s)| <= |s|
  {
    if s != [] {
      SetSize(s[..|s| - 1]);
      assert s == s[..|s| - 1] + [s[|s| - 1]];
      assert Elems(s) == Elems(s[..|s| - 1]) + {s[|s| - 1]};
    }
  }

  lemma {:induction false} SizeOfDistinct(s: seq<string>)
    requires forall i, j | 0 <= i < j < |s| :: s[i] != s[j]
    ensures |Elems(s)| == |s|
  {
    if s != [] {
      SizeOfDistinct(s[..|s| - 1]);
      assert s == s[..|s| - 1] + [s[|s| - 1]];
      assert Elems(s) == Elems(s[..|s| - 1]) + {s[|s| - 1]};
    }
  }

  lemma NotAPermutation(order: seq<string>, g: Graph)
    requires |order| != |Elems(order)| || Elems(order) != g.Keys
    ensures !Topological(g, order)
  {
    if forall i, j | 0 <= i < j < |order| :: order[i] != order[j] { SizeOfDistinct(order); }
    if forall n :: n in order <==> n in g { assert Elems(order) == g.Keys; }
  }

  lemma SameLength(order: seq<string>, packages: seq<Entry>)
    requires DistinctEntries(packages) && Topological(EntryGraph(packages), order)
    ensures |order| == |packages|
  {
    EntryGraphKeys(packages);
    SizeOfDistinct(EntryNames(packages));
    SizeOfDistinct(order);
    assert Elems(order) == EntryGraph(packages).Keys;
  }

  // ---------------------------------------------------------------------------------
  // Writer and reader together
  // ---------------------------------------------------------------------------------

  /** No accepted manifest declares a cycle. */
  lemma AcceptedIsAcyclic(m: Manifest, files: map<string, File>, symlinks: bool, sourceSha: string, version: string)
    requires Acceptable(m, files, symlinks, sourceSha, version)
    ensures !Cyclic(EntryGraph(m.packages))
  {
    TopologicalIsAcyclic(EntryGraph(m.packages), m.publishOrder);
  }

  /** What the packaging run leaves on disk once the manifest is written beside the crates. */
  ghost predicate Extracted(files: map<string, File>, payloads: map<string, File>) {
    files.Keys == payloads.Keys + {MANIFEST_FILE} && forall f | f in payloads :: files[f] == payloads[f]
  }

  lemma {:induction false} WrittenGraph(g: Graph, order: seq<string>, version: string,
                                        deps: map<string, seq<string>>, crates: map<string, File>)
    requires Topological(g, order) && deps.Keys == g.Keys && forall n | n in g :: deps[n] == Sorted(g[n])
    requires forall n | n in order :: n in deps && FileName(n, version) in crates
    ensures var es := EntriesFor(order, version, deps, crates); DistinctEntries(es) && EntryGraph(es) == g
  {
    var es := EntriesFor(order, version, deps, crates);
    assert EntryNames(es) == order;
    EntryGraphKeys(es);
    assert Elems(order) == g.Keys;
    forall n | n in g ensures EntryGraph(es)[n] == g[n] {
      assert n in order;
      var i :| 0 <= i < |order| && order[i] == n;
      WrittenAt(g, order, version, deps, crates, i);
    }
  }

  lemma WrittenAt(g: Graph, order: seq<string>, version: string, deps: map<string, seq<string>>, crates: map<string, File>, i: nat)
    requires Topological(g, order) && i < |order| && order[i] in g
    requires forall n | n in order :: n in deps && FileName(n, version) in crates
    requires deps[order[i]] == Sorted(g[order[i]])
    ensures var es := EntriesFor(order, version, deps, crates);
            DistinctEntries(es) ==> order[i] in EntryGraph(es) && EntryGraph(es)[order[i]] == g[order[i]]
  {
    var es := EntriesFor(order, version, deps, crates);
    if DistinctEntries(es) {
      EntryGraphAt(es, i);
    }
    assert Elems(Sorted(g[order[i]])) == g[order[i]];
  }

  /** Every manifest written from a computed publish order is accepted by the reader. */
  lemma WrittenIsAccepted(packages: seq<Package>, order: seq<string>, sourceSha: string, version: string,
                          deps: map<string, seq<string>>, crates: map<string, File>,
                          payloads: map<string, File>, files: map<string, File>)
    requires "" !in Names(packages) && LayerOrder(GraphOf(packages)) == Ok(order)
    requires deps.Keys == GraphOf(packages).Keys
    requires forall n | n in deps :: deps[n] == Sorted(GraphOf(packages)[n])
    requires forall n | n in order :: n in deps && FileName(n, version) in crates
    requires Carries(payloads, order, version, crates) && Extracted(files, payloads)
    ensures Acceptable(Manifest(1, REPOSITORY_ID, sourceSha, version, order, |order|,
                                EntriesFor(order, version, deps, crates)),
                       files, false, sourceSha, version)
  {
    var g := GraphOf(packages);
    GraphIsClosed(packages);
    LayersAreTopological(g);
    WrittenGraph(g, order, version, deps, crates);
    assert "" !in order;
    WrittenFiles(order, version, deps, crates, payloads, files);
  }

  lemma WrittenFiles(order: seq<string>, version: string, deps: map<string, seq<string>>, crates: map<string, File>,
                     payloads: map<string, File>, files: map<string, File>)
    requires forall n | n in order :: n in deps && FileName(n, version) in crates
    requires forall n | n in order :: n != "" && Ascending(deps[n])
    requires Carries(payloads, order, version, crates) && Extracted(files, payloads)
    ensures var es := EntriesFor(order, version, deps, crates);
            && (forall e | e in es :: Canonical(e, version, files))
            && files.Keys == ExpectedFiles(es)
  {
    var es := EntriesFor(order, version, deps, crates);
    forall e | e in es ensures Canonical(e, version, files) {
      var i :| 0 <= i < |es| && es[i] == e;
      assert order[i] in order && "crates/" + e.file == CratePath(order[i], version);
    }
    forall f | f in payloads ensures f in ExpectedFiles(es) {
      var n :| n in order && f == CratePath(n, version);
      var i :| 0 <= i < |order| && order[i] == n;
      assert es[i] in es && "crates/" + es[i].file == f;
    }
    forall e | e in es ensures "crates/" + e.file in files {}
  }
}
