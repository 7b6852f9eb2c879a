/** The module graph (compiler/index.js): the order `resolveImports` puts modules in, and the require cycles that make a
    CommonJS module lazy. */
module ModuleGraph {
  /** Module u's dependencies in the order they are scanned: static imports and re-exports, dynamic imports, requires.
      Modules are numbered. */
  type Graph = seq<seq<nat>>

  predicate IsGraph(g: Graph) {
    forall u, k :: 0 <= u < |g| && 0 <= k < |g[u]| ==> g[u][k] < |g|
  }

  predicate Edge(g: Graph, u: nat, v: nat) {
    u < |g| && v < |g| && v in g[u]
  }

  /** A path of one or more modules, each depending on the next. */
  predicate IsPath(g: Graph, p: seq<nat>) {
    p != [] && p[0] < |g| && forall i :: 0 <= i < |p| - 1 ==> Edge(g, p[i], p[i + 1])
  }

  ghost predicate Reaches(g: Graph, u: nat, v: nat) {
    exists p :: IsPath(g, p) && p[0] == u && p[|p| - 1] == v
  }

  lemma ReachesSelf(g: Graph, u: nat)
    requires u < |g|
    ensures Reaches(g, u, u)
  {
    assert IsPath(g, [u]);
  }

  lemma ReachesOn(g: Graph, u: nat, v: nat, w: nat)
    requires Reaches(g, u, v) && Edge(g, v, w)
    ensures Reaches(g, u, w)
  {
    var p :| IsPath(g, p) && p[0] == u && p[|p| - 1] == v;
    assert IsPath(g, p + [w]);
  }

  lemma ReachesFirst(g: Graph, u: nat, v: nat, w: nat)
    requires Edge(g, u, v) && Reaches(g, v, w)
    ensures Reaches(g, u, w)
  {
    var p :| IsPath(g, p) && p[0] == v && p[|p| - 1] == w;
    var q := [u] + p;
    assert forall i :: 0 <= i < |q| - 1 ==> q[i + 1] == p[i];
    assert IsPath(g, q);
  }

  lemma {:induction false} ReachesTrans(g: Graph, u: nat, p: seq<nat>)
    requires IsPath(g, p) && Reaches(g, u, p[0])
    ensures Reaches(g, u, p[|p| - 1])
    decreases |p|
  {
    if |p| > 1 {
      ReachesOn(g, u, p[0], p[1]);
      assert forall i :: 0 <= i < |p[1..]| ==> p[1..][i] == p[i + 1];
      ReachesTrans(g, u, p[1..]);
    }
  }

  /** A set that a path cannot leave. */
  ghost predicate Closed(g: Graph, s: set<nat>) {
    forall u, v :: u in s && Edge(g, u, v) ==> v in s
  }

  lemma {:induction false} PathStays(g: Graph, s: set<nat>, p: seq<nat>)
    requires Closed(g, s) && IsPath(g, p) && p[0] in s
    ensures p[|p| - 1] in s
    decreases |p|
  {
    if |p| > 1 {
      assert Edge(g, p[0], p[1]);
      assert forall i :: 0 <= i < |p[1..]| ==> p[1..][i] == p[i + 1];
      PathStays(g, s, p[1..]);
    }
  }

  lemma ClosedContains(g: Graph, s: set<nat>, u: nat, v: nat)
    requires Closed(g, s) && u in s && Reaches(g, u, v)
    ensures v in s
  {
    var p :| IsPath(g, p) && p[0] == u && p[|p| - 1] == v;
    PathStays(g, s, p);
  }

  // ---------- the order of modules ----------

  function Elems(s: seq<nat>): set<nat> {
    set x | x in s
  }

  function Below(n: nat): (s: set<nat>)
    ensures forall u: nat :: u in s <==> u < n
  {
    if n == 0 then {} else Below(n - 1) + {n - 1}
  }

  function Nodes(g: Graph): set<nat> {
    Below(|g|)
  }

  predicate Distinct(s: seq<nat>) {
    forall i, j :: 0 <= i < j < |s| ==> s[i] != s[j]
  }

  /** Every dependency of a module in the order comes before it, unless it leads back to the module. */
  ghost predicate DependenciesFirst(g: Graph, order: seq<nat>) {
    forall i, v :: 0 <= i < |order| && Edge(g, order[i], v) ==> v in order[..i] || Reaches(g, v, order[i])
  }

  class Compiler {
    const g: Graph
    var compiledFiles: set<nat>
    var moduleOrder: seq<nat>

    constructor (g: Graph)
      requires IsGraph(g)
      ensures this.g == g && Valid() && compiledFiles == {} && moduleOrder == []
    {
      this.g := g;
      compiledFiles, moduleOrder := {}, [];
    }

    /** Modules entered but not yet in the order. */
    ghost function Open(): set<nat>
      reads this
    {
      compiledFiles - Elems(moduleOrder)
    }

    ghost predicate Valid()
      reads this
    {
      && IsGraph(g) && compiledFiles <= Nodes(g) && Elems(moduleOrder) <= compiledFiles
      && Distinct(moduleOrder) && DependenciesFirst(g, moduleOrder)
      && (forall u, v :: u in moduleOrder && Edge(g, u, v) ==> v in compiledFiles)
    }

    /** Everything open leads to u. */
    ghost predicate Leads(u: nat)
      reads this
    {
      forall w :: w in Open() ==> Reaches(g, w, u)
    }

    /** u has been entered: its dependencies are entered and resolved in turn, then u takes its place. */
    method ResolveImports(u: nat)
      requires Valid() && u in Open() && Leads(u)
      modifies this`compiledFiles, this`moduleOrder
      ensures Valid() && u in moduleOrder && Open() == old(Open()) - {u}
      ensures old(compiledFiles) <= compiledFiles && old(moduleOrder) <= moduleOrder
      ensures forall w :: w in compiledFiles - old(compiledFiles) ==> Reaches(g, u, w)
      decreases Nodes(g) - compiledFiles
    {
      var k := 0;
      ReachesSelf(g, u);
      while k < |g[u]|
        invariant k <= |g[u]|
        invariant Valid() && Open() == old(Open()) && old(compiledFiles) <= compiledFiles
        invariant old(moduleOrder) <= moduleOrder
        invariant forall j :: 0 <= j < k ==> g[u][j] in compiledFiles
        invariant forall w :: w in compiledFiles - old(compiledFiles) ==> Reaches(g, u, w)
      {
        var v := g[u][k];
        if v !in compiledFiles {
          ghost var was := compiledFiles;
          compiledFiles := compiledFiles + {v};
          EdgeLeads(u, v, was);
          ResolveImports(v);
          forall w | w in compiledFiles - old(compiledFiles) ensures Reaches(g, u, w) {
            if w !in was {
              if w == v { ReachesSelf(g, v); }
              ReachesFirst(g, u, v, w);
            }
          }
        }
        k := k + 1;
      }
      if u !in moduleOrder {
        LastPlace(g, moduleOrder, u);
        assert Elems(moduleOrder + [u]) == Elems(moduleOrder) + {u};
        moduleOrder := moduleOrder + [u];
      }
    }

    /** Entering a dependency of u: what led to u leads to it. */
    lemma EdgeLeads(u: nat, v: nat, was: set<nat>)
      requires compiledFiles == was + {v} && v !in was && Edge(g, u, v) && v < |g|
      requires forall w :: w in was - Elems(moduleOrder) ==> Reaches(g, w, u)
      ensures Leads(v)
    {
      forall w | w in Open() ensures Reaches(g, w, v) {
        if w == v { ReachesSelf(g, v); } else { ReachesOn(g, w, u, v); }
      }
    }
  }

  lemma LastPlace(g: Graph, order: seq<nat>, u: nat)
    requires DependenciesFirst(g, order) && u !in order
    requires forall v :: Edge(g, u, v) && v !in order ==> Reaches(g, v, u)
    ensures DependenciesFirst(g, order + [u])
  {
    var now := order + [u];
    forall i, v | 0 <= i < |now| && Edge(g, now[i], v) ensures v in now[..i] || Reaches(g, v, now[i]) {
      if i < |order| { assert now[..i] == order[..i]; } else { assert now[..i] == order; }
    }
  }

  /** The order holds every module reachable from the entry module once, and nothing else, ... */
  method OrderModules(g: Graph, entry: nat) returns (order: seq<nat>)
    requires IsGraph(g) && entry < |g|
    ensures Distinct(order)
    ensures forall v :: v in order <==> Reaches(g, entry, v)
    ensures forall i, j :: 0 <= i < |order| && 0 <= j < |order| && Edge(g, order[i], order[j]) && !Reaches(g, order[j],
      order[i]) ==> j < i
  {
    var c := new Compiler(g);
    c.compiledFiles := {entry};
    ReachesSelf(g, entry);
    c.ResolveImports(entry);
    order := c.moduleOrder;
    assert c.Open() == {};
    assert Elems(order) == c.compiledFiles;
    forall v | Reaches(g, entry, v) ensures v in order {
      ClosedContains(g, Elems(order), entry, v);
    }
    forall i, j | 0 <= i < |order| && 0 <= j < |order| && Edge(g, order[i], order[j]) && !Reaches(g, order[j], order[i])
      ensures j < i {
      assert order[j] in order[..i];
    }
  }

  // ---------- require cycles ----------

  /** u lies on a cycle; a module that requires itself does. */
  ghost predicate OnCycle(g: Graph, u: nat) {
    exists v :: Edge(g, u, v) && Reaches(g, v, u)
  }

  /** What one search leaves in `seen`: the nodes it added have all their successors there, and target is not one of
      them. */
  ghost predicate Searched(g: Graph, seen: set<nat>, now: set<nat>, target: nat) {
    && seen <= now <= Nodes(g) && (target !in seen ==> target !in now)
    && forall u, v :: u in now - seen && Edge(g, u, v) ==> v in now
  }

  /** Depth-first search with a `seen` set shared by the whole search. */
  method Reach(g: Graph, x: nat, target: nat, seen: set<nat>) returns (found: bool, now: set<nat>)
    requires IsGraph(g) && x < |g| && seen <= Nodes(g) && target !in seen
    ensures found ==> Reaches(g, x, target)
    ensures !found ==> Searched(g, seen, now, target) && x in now
    ensures seen <= now <= Nodes(g)
    decreases Nodes(g) - seen
  {
    now := seen;
    if x == target {
      ReachesSelf(g, x);
      return true, now;
    }
    if x in seen { return false, now; }
    now := now + {x};
    var k := 0;
    while k < |g[x]|
      invariant k <= |g[x]| && x in now && seen + {x} <= now <= Nodes(g) && target !in now
      invariant forall j :: 0 <= j < k ==> g[x][j] in now
      invariant forall u, v :: u in now - seen - {x} && Edge(g, u, v) ==> v in now
    {
      assert Edge(g, x, g[x][k]);
      found, now := Reach(g, g[x][k], target, now);
      if found {
        ReachesFirst(g, x, g[x][k], target);
        return;
      }
      k := k + 1;
    }
    found := false;
  }

  method InCycle(g: Graph, start: nat) returns (b: bool)
    requires IsGraph(g) && start < |g|
    ensures b <==> OnCycle(g, start)
  {
    var k := 0;
    while k < |g[start]|
      invariant k <= |g[start]|
      invariant forall j :: 0 <= j < k ==> !Reaches(g, g[start][j], start)
    {
      var found, now := Reach(g, g[start][k], start, {});
      if found {
        assert Edge(g, start, g[start][k]);
        return true;
      }
      if Reaches(g, g[start][k], start) {
        ClosedContains(g, now, g[start][k], start);
      }
      k := k + 1;
    }
    b := false;
  }

  /** The requires between CommonJS modules. */
  function Local(g: Graph, cjs: seq<bool>): (r: Graph)
    requires |cjs| == |g|
    ensures |r| == |g| && IsGraph(r)
  {
    seq(|g|, u requires 0 <= u < |g| => if cjs[u] then Keep(g[u], cjs) else [])
  }

  lemma LocalEdges(g: Graph, cjs: seq<bool>, u: nat, v: nat)
    requires |cjs| == |g| && IsGraph(g)
    ensures Edge(Local(g, cjs), u, v) <==> Edge(g, u, v) && u < |g| && v < |g| && cjs[u] && cjs[v]
  {
  }

  /** A path of modules, all CommonJS, each requiring the next. */
  ghost predicate RequirePath(g: Graph, cjs: seq<bool>, p: seq<nat>)
    requires |cjs| == |g|
  {
    p != [] && (forall i :: 0 <= i < |p| ==> p[i] < |g| && cjs[p[i]])
    && forall i :: 0 <= i < |p| - 1 ==> Edge(g, p[i], p[i + 1])
  }

  /** CommonJS modules that require each other in a circle lead from u back to u. */
  ghost predicate OnRequireCycle(g: Graph, cjs: seq<bool>, u: nat)
    requires |cjs| == |g|
  {
    exists p :: RequirePath(g, cjs, p) && |p| >= 2 && p[0] == u == p[|p| - 1]
  }

  /** Paths in the subgraph are paths of requires. */
  lemma LocalPaths(g: Graph, cjs: seq<bool>, p: seq<nat>)
    requires IsGraph(g) && |cjs| == |g| && |p| >= 2
    ensures IsPath(Local(g, cjs), p) <==> RequirePath(g, cjs, p)
  {
    hide Local, Edge;
    forall i | 0 <= i < |p| - 1
      ensures Edge(Local(g, cjs), p[i], p[i + 1]) <==>
        Edge(g, p[i], p[i + 1]) && p[i] < |g| && p[i + 1] < |g| && cjs[p[i]] && cjs[p[i + 1]]
    {
      LocalEdges(g, cjs, p[i], p[i + 1]);
    }
    if IsPath(Local(g, cjs), p) {
      forall i | 0 <= i < |p| ensures p[i] < |g| && cjs[p[i]] {
        assert Edge(Local(g, cjs), p[if i == 0 then 0 else i - 1], p[if i == 0 then 1 else i]);
      }
    }
  }

  lemma LocalCycles(g: Graph, cjs: seq<bool>, u: nat)
    requires IsGraph(g) && |cjs| == |g|
    ensures OnCycle(Local(g, cjs), u) <==> OnRequireCycle(g, cjs, u)
  {
    var r := Local(g, cjs);
    hide Local, RequirePath;
    if OnCycle(r, u) {
      var v :| Edge(r, u, v) && Reaches(r, v, u);
      var p :| IsPath(r, p) && p[0] == v && p[|p| - 1] == u;
      var q := [u] + p;
      assert forall i :: 0 <= i < |q| - 1 ==> q[i + 1] == p[i];
      assert IsPath(r, q);
      LocalPaths(g, cjs, q);
    }
    if OnRequireCycle(g, cjs, u) {
      var p :| RequirePath(g, cjs, p) && |p| >= 2 && p[0] == u == p[|p| - 1];
      LocalPaths(g, cjs, p);
      assert Edge(r, p[0], p[1]);
      assert forall i :: 0 <= i < |p[1..]| ==> p[1..][i] == p[i + 1];
      assert IsPath(r, p[1..]);
    }
  }

  lemma CycleIsLocal(g: Graph, cjs: seq<bool>, u: nat)
    requires |cjs| == |g| && u < |g|
    ensures OnRequireCycle(g, cjs, u) ==> cjs[u]
  {
  }

  function Keep(outs: seq<nat>, cjs: seq<bool>): (r: seq<nat>)
    ensures forall v :: v in r <==> v in outs && v < |cjs| && cjs[v]
    ensures forall k :: 0 <= k < |r| ==> r[k] < |cjs|
  {
    if outs == [] then []
    else
      var rest := Keep(outs[..|outs| - 1], cjs);
      var v := outs[|outs| - 1];
      if v < |cjs| && cjs[v] && v !in rest then rest + [v] else rest
  }

  /** The subgraph the marking works on, each edge once. */
  method LocalRequires(g: Graph, cjs: seq<bool>) returns (adj: Graph)
    requires IsGraph(g) && |cjs| == |g|
    ensures adj == Local(g, cjs)
  {
    adj := [];
    var u := 0;
    while u < |g|
      invariant u <= |g| && adj == Local(g, cjs)[..u]
    {
      var outs: seq<nat> := [];
      if cjs[u] {
        var k := 0;
        while k < |g[u]|
          invariant k <= |g[u]| && outs == Keep(g[u][..k], cjs)
        {
          assert g[u][..k + 1][..k] == g[u][..k];
          if cjs[g[u][k]] && g[u][k] !in outs { outs := outs + [g[u][k]]; }
          k := k + 1;
        }
        assert g[u][..k] == g[u];
      }
      adj := adj + [outs];
      u := u + 1;
    }
  }

  /** A module becomes lazy exactly if it is a CommonJS module on a cycle of requires between CommonJS modules. */
  method MarkCjsRequireCycles(g: Graph, cjs: seq<bool>, order: seq<nat>) returns (lazy: set<nat>)
    requires IsGraph(g) && |cjs| == |g| && forall i :: 0 <= i < |order| ==> order[i] < |g|
    ensures forall p :: p in lazy <==> p in order && OnRequireCycle(g, cjs, p)
  {
    var adj := LocalRequires(g, cjs);
    hide Local, OnRequireCycle;
    lazy := {};
    var i := 0;
    while i < |order|
      invariant i <= |order|
      invariant forall p :: p in lazy <==> p in order[..i] && OnRequireCycle(g, cjs, p)
    {
      var p := order[i];
      LocalCycles(g, cjs, p);
      CycleIsLocal(g, cjs, p);
      if cjs[p] {
        var b := InCycle(adj, p);
        if b { lazy := lazy + {p}; }
      }
      assert order[..i + 1] == order[..i] + [p];
      i := i + 1;
    }
    assert order[..i] == order;
  }
}
