/**
  The publish order of the workspace crates, `dependency_order` in
  scripts/release/canonical-crate-set.py: a layered topological sort that fails exactly
  on cyclic graphs and does not depend on the order packages are listed in.
 */
module CrateOrder {
  import opened Wrappers
  import opened TextOrder

  datatype Dependency = Dependency(name: string, isDev: bool, hasPath: bool)

  datatype Package = Package(name: string, dependencies: seq<Dependency>)

  datatype Error = Cycle

  /** Each crate's workspace dependencies. */
  type Graph = map<string, set<string>>

  predicate Closed(g: Graph) {
    forall n | n in g :: g[n] <= g.Keys
  }

  // ---------------------------------------------------------------------------------
  // Sorting a set of names
  // ---------------------------------------------------------------------------------

  predicate IsLeast(s: set<string>, m: string) {
    m in s && forall x | x in s && x != m :: Less(m, x)
  }

  lemma {:induction false} LeastExists(s: set<string>)
    requires s != {}
    ensures exists m :: IsLeast(s, m)
  {
    var x :| x in s;
    var rest := s - {x};
    if rest == {} {
      assert s == {x};
      assert IsLeast(s, x);
    } else {
      LeastExists(rest);
      var m :| IsLeast(rest, m);
      LessIsTotal(x, m);
      if Less(x, m) {
        forall y | y in s && y != x ensures Less(x, y) {
          if y != m { LessIsTransitive(x, m, y); }
        }
        assert IsLeast(s, x);
      } else {
        assert IsLeast(s, m);
      }
    }
  }

  lemma LeastUnique(s: set<string>)
    ensures forall m, m' | IsLeast(s, m) && IsLeast(s, m') :: m == m'
  {
    forall m, m' | IsLeast(s, m) && IsLeast(s, m') ensures m == m' {
      if m != m' { LessIsStrict(m, m'); }
    }
  }

  function Least(s: set<string>): (m: string)
    requires s != {}
    ensures IsLeast(s, m)
  {
    LeastExists(s);
    LeastUnique(s);
    var m :| m in s && IsLeast(s, m);
    m
  }

  function Sorted(s: set<string>): (r: seq<string>)
    ensures Ascending(r)
    ensures forall x :: x in r <==> x in s
  {
    if s == {} then []
    else
      var m := Least(s);
      [m] + Sorted(s - {m})
  }

  // ---------------------------------------------------------------------------------
  // The graph
  // ---------------------------------------------------------------------------------

  function Names(packages: seq<Package>): set<string> {
    set p | p in packages :: p.name
  }

  function Local(names: set<string>, p: Package): set<string> {
    set d | d in p.dependencies && !d.isDev && d.hasPath && d.name in names :: d.name
  }

  function GraphFrom(names: set<string>, packages: seq<Package>): Graph {
    if packages == [] then map[]
    else
      var last := packages[|packages| - 1];
      GraphFrom(names, packages[..|packages| - 1])[last.name := Local(names, last)]
  }

  function GraphOf(packages: seq<Package>): Graph {
    GraphFrom(Names(packages), packages)
  }

  predicate DistinctNames(packages: seq<Package>) {
    forall i, j | 0 <= i < j < |packages| :: packages[i].name != packages[j].name
  }

  lemma {:induction false} GraphFromKeys(names: set<string>, packages: seq<Package>)
    ensures GraphFrom(names, packages).Keys == Names(packages)
    ensures forall n | n in GraphFrom(names, packages) :: GraphFrom(names, packages)[n] <= names
    ensures DistinctNames(packages) ==>
              forall p | p in packages :: GraphFrom(names, packages)[p.name] == Local(names, p)
  {
    if packages != [] {
      var init, last := packages[..|packages| - 1], packages[|packages| - 1];
      GraphFromKeys(names, init);
      assert packages == init + [last];
      assert Names(packages) == Names(init) + {last.name};
      if DistinctNames(packages) {
        forall p | p in packages ensures GraphFrom(names, packages)[p.name] == Local(names, p) {
          if p in init {
            var i :| 0 <= i < |init| && init[i] == p;
            assert packages[i] == p;
          }
        }
      }
    }
  }

  lemma GraphIsClosed(packages: seq<Package>)
    ensures Closed(GraphOf(packages)) && GraphOf(packages).Keys == Names(packages)
  {
    GraphFromKeys(Names(packages), packages);
  }

  /** The graph, and with it the order, depends on the set of packages only. */
  lemma GraphIgnoresListing(a: seq<Package>, b: seq<Package>)
    requires DistinctNames(a) && DistinctNames(b) && forall p :: p in a <==> p in b
    ensures GraphOf(a) == GraphOf(b)
  {
    assert Names(a) == Names(b);
    GraphFromKeys(Names(a), a);
    GraphFromKeys(Names(b), b);
    forall n | n in GraphOf(a) ensures GraphOf(a)[n] == GraphOf(b)[n] {
      var p :| p in a && p.name == n;
    }
  }

  // ---------------------------------------------------------------------------------
  // Layers
  // ---------------------------------------------------------------------------------

  function Ready(g: Graph): set<string> {
    set n | n in g && g[n] == {}
  }

  function Without(g: Graph, ready: set<string>): (rest: Graph)
    ensures rest.Keys == g.Keys - ready
  {
    map n | n in g && n !in ready :: g[n] - ready
  }

  lemma {:induction false} Fewer(g: Graph, ready: set<string>)
    requires ready != {} && ready <= g.Keys
    ensures |Without(g, ready)| < |g|
  {
    var n :| n in ready;
    var keys := g.Keys - ready;
    SubsetSize(keys, g.Keys - {n});
    assert |g.Keys - {n}| == |g.Keys| - 1;
    assert |Without(g, ready)| == |keys|;
  }

  lemma {:induction false} SubsetSize<T>(a: set<T>, b: set<T>)
    requires a <= b
    ensures |a| <= |b|
  {
    assert b == a + (b - a);
  }

  function Onto(layer: seq<string>, r: Result<seq<string>, Error>): Result<seq<string>, Error> {
    match r
    case Ok(order) => Ok(layer + order)
    case Err(e) => Err(e)
  }

  function LayerOrder(g: Graph): Result<seq<string>, Error>
    decreases |g|
  {
    if g == map[] then Ok([])
    else if Ready(g) == {} then Err(Cycle)
    else
      Fewer(g, Ready(g));
      Onto(Sorted(Ready(g)), LayerOrder(Without(g, Ready(g))))
  }

  method DependencyOrder(packages: seq<Package>)
    returns (r: Result<(seq<string>, map<string, seq<string>>), Error>)
    ensures r.Err? <==> LayerOrder(GraphOf(packages)).Err?
    ensures r.Ok? ==> LayerOrder(GraphOf(packages)) == Ok(r.value.0)
    ensures r.Ok? ==> r.value.1.Keys == GraphOf(packages).Keys
    ensures r.Ok? ==> forall n | n in r.value.1 :: r.value.1[n] == Sorted(GraphOf(packages)[n])
    ensures DistinctNames(packages) ==> (r.Err? <==> exists w :: ClosedWalk(packages, w))
    ensures DistinctNames(packages) && r.Ok? ==> Published(packages, r.value.0) && Declares(packages, r.value.1)
  {
    if DistinctNames(packages) { PackagesInOrder(packages); }
    var dependencies := WorkspaceDependencies(packages);
    var remaining: Graph := map n | n in dependencies :: set d | d in dependencies[n];
    assert forall n | n in remaining :: remaining[n] == GraphOf(packages)[n];
    assert remaining == GraphOf(packages);
    var order := Layers(remaining);
    if order.Err? {
      return Err(order.error);
    }
    return Ok((order.value, dependencies));
  }

  /** The outer loop, from the dependency sets on. */
  method Layers(g: Graph) returns (r: Result<seq<string>, Error>)
    ensures r == LayerOrder(g)
  {
    var remaining := g;
    var order: seq<string> := [];
    OntoNothing(LayerOrder(g));
    while remaining != map[]
      invariant LayerOrder(g) == Onto(order, LayerOrder(remaining))
      decreases |remaining|
    {
      var ready := Sorted(Ready(remaining));
      if ready == [] {
        assert Ready(remaining) == {};
        return Err(Cycle);
      }
      assert ready[0] in Ready(remaining);
      Fewer(remaining, Ready(remaining));
      OntoOnto(order, ready, LayerOrder(Without(remaining, Ready(remaining))));
      order := order + ready;
      var layer := Ready(remaining);
      remaining := DropLayer(remaining, ready, layer);
    }
    assert order + [] == order;
    return Ok(order);
  }

  method WorkspaceDependencies(packages: seq<Package>) returns (dependencies: map<string, seq<string>>)
    ensures dependencies.Keys == GraphOf(packages).Keys
    ensures forall n | n in dependencies :: dependencies[n] == Sorted(GraphOf(packages)[n])
    ensures DistinctNames(packages) ==> Declares(packages, dependencies)
  {
    var names := Names(packages);
    dependencies := map[];
    var i := 0;
    while i < |packages|
      invariant 0 <= i <= |packages|
      invariant dependencies.Keys == GraphFrom(names, packages[..i]).Keys
      invariant forall n | n in dependencies :: dependencies[n] == Sorted(GraphFrom(names, packages[..i])[n])
    {
      assert packages[..i + 1][..i] == packages[..i];
      var p := packages[i];
      dependencies := dependencies[p.name := Sorted(Local(names, p))];
      i := i + 1;
    }
    assert packages[..i] == packages;
    if DistinctNames(packages) { DeclaresGraph(packages); }
  }

  /** The two inner loops: delete the layer, then take it out of every remaining set. */
  method DropLayer(g: Graph, ready: seq<string>, ghost layer: set<string>) returns (remaining: Graph)
    requires forall n :: n in ready <==> n in layer
    ensures remaining == Without(g, layer)
  {
    remaining := g;
    var i := 0;
    while i < |ready|
      invariant 0 <= i <= |ready|
      invariant remaining == map n | n in g && n !in ready[..i] :: g[n]
    {
      assert ready[..i + 1] == ready[..i] + [ready[i]];
      remaining := remaining - {ready[i]};
      i := i + 1;
    }
    assert ready[..i] == ready;
    var todo := remaining.Keys;
    while todo != {}
      invariant todo <= remaining.Keys == g.Keys - layer
      invariant forall n | n in remaining :: remaining[n] == if n in todo then g[n] else g[n] - layer
    {
      var n :| n in todo;
      remaining := remaining[n := remaining[n] - (set d | d in ready)];
      todo := todo - {n};
    }
  }

  lemma OntoNothing(r: Result<seq<string>, Error>)
    ensures Onto([], r) == r
  {
    if r.Ok? { assert [] + r.value == r.value; }
  }

  lemma OntoOnto(a: seq<string>, b: seq<string>, r: Result<seq<string>, Error>)
    ensures Onto(a, Onto(b, r)) == Onto(a + b, r)
  {
    if r.Ok? { assert a + (b + r.value) == a + b + r.value; }
  }

  // ---------------------------------------------------------------------------------
  // Orders and cycles
  // ---------------------------------------------------------------------------------

  /** A listing of all crates, once each, with every dependency before its dependants. */
  ghost predicate Topological(g: Graph, order: seq<string>) {
    && (forall i, j | 0 <= i < j < |order| :: order[i] != order[j])
    && (forall n :: n in order <==> n in g)
    && (forall i | 0 <= i < |order| :: Prepared(g, order, i))
  }

  ghost predicate Prepared(g: Graph, order: seq<string>, i: nat)
    requires i < |order|
  {
    order[i] in g && forall d | d in g[order[i]] :: d in order[..i]
  }

  /** A closed walk along dependencies; a crate that depends on itself is the shortest one. */
  ghost predicate IsCycle(g: Graph, p: seq<string>) {
    && |p| >= 2 && p[0] == p[|p| - 1]
    && IsWalk(g, p)
  }

  ghost predicate IsWalk(g: Graph, p: seq<string>) {
    forall i | 0 <= i < |p| - 1 :: p[i] in g && p[i + 1] in g[p[i]]
  }

  ghost predicate Cyclic(g: Graph) {
    exists p :: IsCycle(g, p)
  }

  lemma {:induction false} LayersAreTopological(g: Graph)
    requires Closed(g) && LayerOrder(g).Ok?
    ensures Topological(g, LayerOrder(g).value)
    decreases |g|
  {
    if g != map[] {
      var ready := Ready(g);
      Fewer(g, ready);
      var rest := Without(g, ready);
      LayersAreTopological(rest);
      LayerOnTop(g, Sorted(ready), LayerOrder(rest).value);
    }
  }

  lemma LayerOnTop(g: Graph, layer: seq<string>, order: seq<string>)
    requires Closed(g) && Ascending(layer)
    requires forall n :: n in layer <==> n in Ready(g)
    requires Topological(Without(g, Ready(g)), order)
    ensures Topological(g, layer + order)
  {
    OnceEach(g, layer, order);
    forall i | 0 <= i < |layer + order| ensures Prepared(g, layer + order, i) {
      PreparedOnTop(g, layer, order, i);
    }
  }

  lemma PreparedOnTop(g: Graph, layer: seq<string>, order: seq<string>, i: nat)
    requires i < |layer + order| && forall n :: n in layer <==> n in Ready(g)
    requires Topological(Without(g, Ready(g)), order)
    ensures Prepared(g, layer + order, i)
  {
    var all := layer + order;
    if i < |layer| {
      assert all[i] in layer;
    } else {
      EarlierInRest(g, layer, order, i - |layer|);
      assert all[..i] == layer + order[..i - |layer|];
    }
  }

  lemma OnceEach(g: Graph, layer: seq<string>, order: seq<string>)
    requires Ascending(layer) && forall n :: n in layer <==> n in Ready(g)
    requires Topological(Without(g, Ready(g)), order)
    ensures forall i, j | 0 <= i < j < |layer + order| :: (layer + order)[i] != (layer + order)[j]
    ensures forall n :: n in layer + order <==> n in g
  {
    AscendingDistinct(layer);
    assert forall i | 0 <= i < |layer| :: layer[i] in layer;
    assert forall j | 0 <= j < |order| :: order[j] in order;
  }

  lemma EarlierInRest(g: Graph, layer: seq<string>, order: seq<string>, k: nat)
    requires k < |order| && forall n :: n in layer <==> n in Ready(g)
    requires Topological(Without(g, Ready(g)), order)
    ensures order[k] in g && forall d | d in g[order[k]] :: d in layer || d in order[..k]
  {
    var rest := Without(g, Ready(g));
    assert order[k] in order && order[k] in rest && Prepared(rest, order, k);
    assert rest[order[k]] == g[order[k]] - Ready(g);
  }

  /** Along a walk in a topological order, positions go down by at least one each step. */
  lemma {:induction false} WalkDescends(g: Graph, order: seq<string>, p: seq<string>, at: nat) returns (k: nat)
    requires Topological(g, order) && IsWalk(g, p) && p != []
    requires at < |order| && order[at] == p[0]
    ensures k < |order| && order[k] == p[|p| - 1] && k + |p| - 1 <= at
    decreases |p|
  {
    if |p| == 1 {
      k := at;
    } else {
      assert p[1] in g[p[0]] && Prepared(g, order, at);
      var before :| 0 <= before < at && order[before] == p[1];
      assert IsWalk(g, p[1..]) by {
        forall i | 0 <= i < |p[1..]| - 1 ensures p[1..][i] in g && p[1..][i + 1] in g[p[1..][i]] {
          assert p[i + 1] in g && p[i + 1 + 1] in g[p[i + 1]];
        }
      }
      k := WalkDescends(g, order, p[1..], before);
    }
  }

  lemma TopologicalIsAcyclic(g: Graph, order: seq<string>)
    requires Topological(g, order)
    ensures !Cyclic(g)
  {
    if Cyclic(g) {
      var p :| IsCycle(g, p);
      assert p[0] in g;
      var at :| 0 <= at < |order| && order[at] == p[0];
      var k := WalkDescends(g, order, p, at);
      assert false;
    }
  }

  /** A walk that always steps to the least dependency. */
  function Walk(g: Graph, n: string, steps: nat): (p: seq<string>)
    requires Closed(g) && Ready(g) == {} && n in g
    ensures |p| == steps + 1 && p[0] == n
    ensures forall i | 0 <= i < |p| :: p[i] in g
    ensures forall i | 0 <= i < |p| - 1 :: p[i + 1] in g[p[i]]
    decreases steps
  {
    if steps == 0 then [n]
    else
      assert n !in Ready(g);
      [n] + Walk(g, Least(g[n]), steps - 1)
  }

  lemma {:induction false} Pigeonhole(p: seq<string>, s: set<string>) returns (i: nat, j: nat)
    requires |p| > |s| && forall k | 0 <= k < |p| :: p[k] in s
    ensures i < j < |p| && p[i] == p[j]
    decreases |p|
  {
    var x := p[0];
    if k :| 0 < k < |p| && p[k] == x {
      i, j := 0, k;
    } else {
      var rest := s - {x};
      assert |rest| == |s| - 1;
      forall k | 0 <= k < |p[1..]| ensures p[1..][k] in rest { assert p[k + 1] != x; }
      i, j := Pigeonhole(p[1..], rest);
      i, j := i + 1, j + 1;
    }
  }

  lemma StuckIsCyclic(g: Graph)
    requires Closed(g) && g != map[] && Ready(g) == {}
    ensures Cyclic(g)
  {
    var n :| n in g;
    var p := Walk(g, n, |g.Keys|);
    var i, j := Pigeonhole(p, g.Keys);
    var c := p[i..j + 1];
    forall k | 0 <= k < |c| - 1 ensures c[k] in g && c[k + 1] in g[c[k]] {
      assert p[i + k + 1] in g[p[i + k]];
    }
    assert IsCycle(g, c);
  }

  lemma {:induction false} FailureIsCyclic(g: Graph)
    requires Closed(g) && LayerOrder(g).Err?
    ensures Cyclic(g)
    decreases |g|
  {
    if Ready(g) == {} {
      StuckIsCyclic(g);
    } else {
      Fewer(g, Ready(g));
      var rest := Without(g, Ready(g));
      FailureIsCyclic(rest);
      var p :| IsCycle(rest, p);
      forall i | 0 <= i < |p| - 1 ensures p[i] in g && p[i + 1] in g[p[i]] {
        assert p[i] in rest && p[i + 1] in rest[p[i]];
      }
      assert IsCycle(g, p);
    }
  }

  /** The sort fails exactly on a cycle, and otherwise lists dependencies first. */
  lemma OrderOrCycle(g: Graph)
    requires Closed(g)
    ensures LayerOrder(g).Err? <==> Cyclic(g)
    ensures LayerOrder(g).Ok? ==> Topological(g, LayerOrder(g).value)
  {
    if LayerOrder(g).Ok? {
      LayersAreTopological(g);
      TopologicalIsAcyclic(g, LayerOrder(g).value);
    } else {
      FailureIsCyclic(g);
    }
  }

  // ---------------------------------------------------------------------------------
  // Layers by height
  // ---------------------------------------------------------------------------------

  /** A walk of `k` steps from `n`. */
  ghost predicate Climbs(g: Graph, p: seq<string>, n: string, k: nat) {
    |p| == k + 1 && p[0] == n && IsWalk(g, p)
  }

  /** The longest walk from `n` has `k` steps. */
  ghost predicate HasHeight(g: Graph, n: string, k: nat) {
    (exists p :: Climbs(g, p, n, k)) && forall p, m: nat | Climbs(g, p, n, m) :: m <= k
  }

  lemma FirstStep(g: Graph, p: seq<string>, n: string, m: nat)
    requires Climbs(g, p, n, m) && m > 0
    ensures n in g && n !in Ready(g)
  {
    assert p[0] in g && p[0 + 1] in g[p[0]];
  }

  lemma ReadyHeight(g: Graph, n: string)
    requires n in Ready(g)
    ensures HasHeight(g, n, 0)
  {
    assert Climbs(g, [n], n, 0);
    forall p, m: nat | Climbs(g, p, n, m) ensures m <= 0 {
      if m > 0 { FirstStep(g, p, n, m); }
    }
  }

  /** Taking the layer out lowers every other crate by one step. */
  lemma LowerByOne(g: Graph, n: string, k: nat)
    requires Closed(g) && n in g && n !in Ready(g) && HasHeight(Without(g, Ready(g)), n, k)
    ensures HasHeight(g, n, k + 1)
  {
    var rest := Without(g, Ready(g));
    var p :| Climbs(rest, p, n, k);
    var q := LongerWalk(g, p, n, k);
    forall w, m: nat | Climbs(g, w, n, m) ensures m <= k + 1 {
      if m > 0 { ShorterWalk(g, w, n, m); }
    }
  }

  lemma LongerWalk(g: Graph, p: seq<string>, n: string, k: nat) returns (q: seq<string>)
    requires n in g && n !in Ready(g) && Climbs(Without(g, Ready(g)), p, n, k) && Closed(g)
    ensures Climbs(g, q, n, k + 1)
  {
    var rest, m := Without(g, Ready(g)), p[k];
    assert m in g && m !in Ready(g) by {
      if k > 0 { assert p[k - 1] in rest && p[k - 1 + 1] in rest[p[k - 1]]; }
    }
    var d :| d in g[m];
    q := p + [d];
    forall i | 0 <= i < |q| - 1 ensures q[i] in g && q[i + 1] in g[q[i]] {
      if i < k { assert p[i] in rest && p[i + 1] in rest[p[i]]; }
    }
  }

  lemma ShorterWalk(g: Graph, w: seq<string>, n: string, m: nat)
    requires m > 0 && Climbs(g, w, n, m)
    ensures Climbs(Without(g, Ready(g)), w[..m], n, m - 1)
  {
    var rest, p := Without(g, Ready(g)), w[..m];
    forall i | 0 <= i < |p| - 1 ensures p[i] in rest && p[i + 1] in rest[p[i]] {
      assert w[i + 1] in g[w[i]] && w[i + 1 + 1] in g[w[i + 1]];
    }
  }

  /** Lower crates first, and crates of one height by name. */
  ghost predicate ByHeight(g: Graph, order: seq<string>, i: nat, j: nat)
    requires i < j < |order|
  {
    exists a: nat, b: nat :: HasHeight(g, order[i], a) && HasHeight(g, order[j], b) && (a < b || (a == b && Less(order[i], order[j])))
  }

  lemma {:induction false} LayersByHeight(g: Graph)
    requires Closed(g) && LayerOrder(g).Ok?
    ensures forall i, j | 0 <= i < j < |LayerOrder(g).value| :: ByHeight(g, LayerOrder(g).value, i, j)
    ensures forall n | n in g :: exists k: nat :: HasHeight(g, n, k)
    decreases |g|
  {
    if g != map[] {
      var ready := Ready(g);
      Fewer(g, ready);
      var rest := Without(g, ready);
      LayersByHeight(rest);
      LayersAreTopological(rest);
      var layer, later := Sorted(ready), LayerOrder(rest).value;
      forall i, j | 0 <= i < j < |layer + later| ensures ByHeight(g, layer + later, i, j) {
        HeightOnTop(g, layer, later, i, j);
      }
      forall n | n in g ensures exists k: nat :: HasHeight(g, n, k) { var k := HeightOf(g, n); }
    }
  }

  lemma HeightOf(g: Graph, n: string) returns (k: nat)
    requires Closed(g) && n in g
    requires forall n | n in Without(g, Ready(g)) :: exists k: nat :: HasHeight(Without(g, Ready(g)), n, k)
    ensures HasHeight(g, n, k) && (k == 0 <==> n in Ready(g))
  {
    if n in Ready(g) {
      k := 0;
      ReadyHeight(g, n);
    } else {
      assert n in Without(g, Ready(g));
      var h: nat :| HasHeight(Without(g, Ready(g)), n, h);
      k := h + 1;
      LowerByOne(g, n, h);
    }
  }

  lemma HeightOnTop(g: Graph, layer: seq<string>, later: seq<string>, i: nat, j: nat)
    requires Closed(g) && i < j < |layer + later| && Ascending(layer) && forall n :: n in layer <==> n in Ready(g)
    requires Topological(Without(g, Ready(g)), later)
    requires forall n | n in Without(g, Ready(g)) :: exists k: nat :: HasHeight(Without(g, Ready(g)), n, k)
    requires forall i, j | 0 <= i < j < |later| :: ByHeight(Without(g, Ready(g)), later, i, j)
    ensures ByHeight(g, layer + later, i, j)
  {
    var rest, all := Without(g, Ready(g)), layer + later;
    if j < |layer| {
      assert all[i] in layer && all[j] in layer;
      ReadyHeight(g, all[i]);
      ReadyHeight(g, all[j]);
    } else if i < |layer| {
      assert all[i] in layer && all[j] in later;
      ReadyHeight(g, all[i]);
      var k := HeightOf(g, all[j]);
    } else {
      var x, y := i - |layer|, j - |layer|;
      assert later[x] in later && later[y] in later && ByHeight(rest, later, x, y);
      var a: nat, b: nat :| HasHeight(rest, later[x], a) && HasHeight(rest, later[y], b) && (a < b || (a == b && Less(later[x], later[y])));
      LowerByOne(g, later[x], a);
      LowerByOne(g, later[y], b);
    }
  }

  // ---------------------------------------------------------------------------------
  // The order of the packages themselves
  // ---------------------------------------------------------------------------------

  /** A normal or build dependency with a path, on a listed package. */
  predicate Counts(packages: seq<Package>, d: Dependency) {
    !d.isDev && d.hasPath && exists p | p in packages :: p.name == d.name
  }

  ghost predicate DependsOn(packages: seq<Package>, a: string, b: string) {
    exists p, d :: p in packages && d in p.dependencies && p.name == a && d.name == b && Counts(packages, d)
  }

  ghost predicate Chain(packages: seq<Package>, w: seq<string>) {
    forall i | 0 <= i < |w| - 1 :: DependsOn(packages, w[i], w[i + 1])
  }

  ghost predicate ClosedWalk(packages: seq<Package>, w: seq<string>) {
    |w| >= 2 && w[0] == w[|w| - 1] && Chain(packages, w)
  }

  /** The longest chain of dependencies from the package has `k` steps. */
  ghost predicate Depth(packages: seq<Package>, n: string, k: nat) {
    && (exists w :: |w| == k + 1 && w[0] == n && Chain(packages, w))
    && forall w | w != [] && w[0] == n && Chain(packages, w) :: |w| <= k + 1
  }

  /** Every package once, its dependencies earlier; by depth and then by name. */
  ghost predicate Published(packages: seq<Package>, order: seq<string>) {
    && (forall i, j | 0 <= i < j < |order| :: order[i] != order[j])
    && (forall n :: n in order <==> exists p | p in packages :: p.name == n)
    && (forall i, b | 0 <= i < |order| && DependsOn(packages, order[i], b) :: b in order[..i])
    && (forall i, j | 0 <= i < j < |order| :: DeeperLater(packages, order[i], order[j]))
  }

  ghost predicate DeeperLater(packages: seq<Package>, x: string, y: string) {
    exists a: nat, b: nat :: Depth(packages, x, a) && Depth(packages, y, b) && (a < b || (a == b && Less(x, y)))
  }

  /** Each package's dependencies, ascending. */
  ghost predicate Declares(packages: seq<Package>, dependencies: map<string, seq<string>>) {
    && (forall n :: n in dependencies <==> exists p | p in packages :: p.name == n)
    && (forall n | n in dependencies :: Ascending(dependencies[n]))
    && (forall n, b | n in dependencies :: b in dependencies[n] <==> DependsOn(packages, n, b))
  }

  lemma EdgeIff(packages: seq<Package>, a: string, b: string)
    requires DistinctNames(packages)
    ensures a in GraphOf(packages) && b in GraphOf(packages)[a] <==> DependsOn(packages, a, b)
  {
    var names := Names(packages);
    GraphFromKeys(names, packages);
    if DependsOn(packages, a, b) {
      var p, d :| p in packages && d in p.dependencies && p.name == a && d.name == b && Counts(packages, d);
      assert b in Local(names, p);
    }
    if a in GraphOf(packages) && b in GraphOf(packages)[a] {
      var p :| p in packages && p.name == a;
      assert b in Local(names, p);
      var d :| d in p.dependencies && !d.isDev && d.hasPath && d.name in names && d.name == b;
      assert Counts(packages, d);
    }
  }

  lemma WalkIsChain(packages: seq<Package>, w: seq<string>)
    requires DistinctNames(packages)
    ensures IsWalk(GraphOf(packages), w) <==> Chain(packages, w)
  {
    var g := GraphOf(packages);
    if IsWalk(g, w) {
      forall i | 0 <= i < |w| - 1 ensures DependsOn(packages, w[i], w[i + 1]) {
        assert w[i] in g && w[i + 1] in g[w[i]];
        EdgeIff(packages, w[i], w[i + 1]);
      }
    }
    if Chain(packages, w) {
      forall i | 0 <= i < |w| - 1 ensures w[i] in g && w[i + 1] in g[w[i]] {
        EdgeIff(packages, w[i], w[i + 1]);
      }
    }
  }

  lemma HeightIsDepth(packages: seq<Package>, n: string, k: nat)
    requires DistinctNames(packages) && HasHeight(GraphOf(packages), n, k)
    ensures Depth(packages, n, k)
  {
    var g := GraphOf(packages);
    var p :| Climbs(g, p, n, k);
    WalkIsChain(packages, p);
    forall w | w != [] && w[0] == n && Chain(packages, w) ensures |w| <= k + 1 {
      WalkIsChain(packages, w);
      assert Climbs(g, w, n, |w| - 1);
    }
  }

  lemma DeclaresGraph(packages: seq<Package>)
    requires DistinctNames(packages)
    ensures forall ds: map<string, seq<string>> |
              ds.Keys == GraphOf(packages).Keys && (forall n | n in ds :: ds[n] == Sorted(GraphOf(packages)[n])) ::
              Declares(packages, ds)
  {
    var g := GraphOf(packages);
    GraphIsClosed(packages);
    forall ds: map<string, seq<string>> | ds.Keys == g.Keys && (forall n | n in ds :: ds[n] == Sorted(g[n]))
      ensures Declares(packages, ds)
    {
      forall n, b | n in ds ensures b in ds[n] <==> DependsOn(packages, n, b) { EdgeIff(packages, n, b); }
    }
  }

  /**
    The publish order on the packages: it fails exactly on a closed walk of dependencies between listed packages
    that are not for development and have a path, and otherwise lists every package after those it depends on.
   */
  lemma PackagesInOrder(packages: seq<Package>)
    requires DistinctNames(packages)
    ensures LayerOrder(GraphOf(packages)).Err? <==> exists w :: ClosedWalk(packages, w)
    ensures LayerOrder(GraphOf(packages)).Ok? ==> Published(packages, LayerOrder(GraphOf(packages)).value)
  {
    var g := GraphOf(packages);
    GraphIsClosed(packages);
    OrderOrCycle(g);
    CycleIsClosedWalk(packages);
    if LayerOrder(g).Ok? {
      LayersByHeight(g);
      OrderIsPublished(packages, LayerOrder(g).value);
    }
  }

  lemma CycleIsClosedWalk(packages: seq<Package>)
    requires DistinctNames(packages)
    ensures Cyclic(GraphOf(packages)) <==> exists w :: ClosedWalk(packages, w)
  {
    if w :| IsCycle(GraphOf(packages), w) {
      WalkIsChain(packages, w);
      assert ClosedWalk(packages, w);
    }
    if w :| ClosedWalk(packages, w) {
      WalkIsChain(packages, w);
      assert IsCycle(GraphOf(packages), w);
    }
  }

  lemma OrderIsPublished(packages: seq<Package>, order: seq<string>)
    requires DistinctNames(packages) && Topological(GraphOf(packages), order)
    requires forall i, j | 0 <= i < j < |order| :: ByHeight(GraphOf(packages), order, i, j)
    ensures Published(packages, order)
  {
    var g := GraphOf(packages);
    GraphIsClosed(packages);
    forall i, b | 0 <= i < |order| && DependsOn(packages, order[i], b) ensures b in order[..i] {
      EdgeIff(packages, order[i], b);
      assert Prepared(g, order, i);
    }
    forall i, j | 0 <= i < j < |order| ensures DeeperLater(packages, order[i], order[j]) {
      assert ByHeight(g, order, i, j);
      var a: nat, b: nat :| HasHeight(g, order[i], a) && HasHeight(g, order[j], b) && (a < b || (a == b && Less(order[i], order[j])));
      HeightIsDepth(packages, order[i], a);
      HeightIsDepth(packages, order[j], b);
    }
  }

  /** Development dependencies, those without a path and those on other packages change nothing. */
  lemma OthersDoNotCount(a: seq<Package>, b: seq<Package>)
    requires |a| == |b| && forall i | 0 <= i < |a| :: a[i].name == b[i].name
    requires forall i, d | 0 <= i < |a| && Counts(a, d) :: d in a[i].dependencies <==> d in b[i].dependencies
    ensures LayerOrder(GraphOf(a)) == LayerOrder(GraphOf(b)) && GraphOf(a) == GraphOf(b)
  {
    SameNames(a, b);
    forall i | 0 <= i < |a| ensures Local(Names(a), a[i]) == Local(Names(a), b[i]) {
      SameLocal(a, a[i], b[i]);
      SameLocal(a, b[i], a[i]);
    }
    SameGraph(Names(a), a, b);
  }

  lemma SameNames(a: seq<Package>, b: seq<Package>)
    requires |a| == |b| && forall i | 0 <= i < |a| :: a[i].name == b[i].name
    ensures Names(a) == Names(b)
  {
    forall n | n in Names(a) ensures n in Names(b) {
      var i :| 0 <= i < |a| && a[i].name == n;
      assert b[i] in b;
    }
    forall n | n in Names(b) ensures n in Names(a) {
      var i :| 0 <= i < |b| && b[i].name == n;
      assert a[i] in a;
    }
  }

  lemma SameLocal(packages: seq<Package>, p: Package, q: Package)
    requires forall d | Counts(packages, d) :: d in p.dependencies ==> d in q.dependencies
    ensures Local(Names(packages), p) <= Local(Names(packages), q)
  {
    forall n | n in Local(Names(packages), p) ensures n in Local(Names(packages), q) {
      var d :| d in p.dependencies && !d.isDev && d.hasPath && d.name in Names(packages) && d.name == n;
      assert Counts(packages, d);
    }
  }

  lemma {:induction false} SameGraph(names: set<string>, a: seq<Package>, b: seq<Package>)
    requires |a| == |b|
    requires forall i | 0 <= i < |a| :: a[i].name == b[i].name && Local(names, a[i]) == Local(names, b[i])
    ensures GraphFrom(names, a) == GraphFrom(names, b)
    decreases |a|
  {
    if a != [] { SameGraph(names, a[..|a| - 1], b[..|b| - 1]); }
  }

  /** The same for the packages of a workspace, in whatever order they are listed. */
  lemma PublishOrder(packages: seq<Package>, listed: seq<Package>)
    requires DistinctNames(packages) && DistinctNames(listed)
    requires forall p :: p in packages <==> p in listed
    ensures LayerOrder(GraphOf(packages)) == LayerOrder(GraphOf(listed))
    ensures LayerOrder(GraphOf(packages)).Err? <==> Cyclic(GraphOf(packages))
    ensures LayerOrder(GraphOf(packages)).Ok? ==>
              Topological(GraphOf(packages), LayerOrder(GraphOf(packages)).value)
  {
    GraphIgnoresListing(packages, listed);
    GraphIsClosed(packages);
    OrderOrCycle(GraphOf(packages));
  }
}
