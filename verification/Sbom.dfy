/** The locked runtime closure of the SBOM generator (scripts/generate_sbom.py). */
module Sbom {
  import opened Prelude
  import opened Ordering

  datatype Package = Package(name: string, dependencies: seq<string>)

  type Lock = map<string, Package>

  type Edge = (string, string)

  /** `path` leads from `root` along locked dependencies to its last entry. */
  ghost predicate IsPath(lock: Lock, root: string, path: seq<string>) {
    && path != [] && path[0] == root
    && (forall i :: 0 <= i < |path| - 1 ==> path[i] in lock && path[i + 1] in lock[path[i]].dependencies)
  }

  ghost predicate Reachable(lock: Lock, root: string, name: string) {
    exists path :: IsPath(lock, root, path) && path[|path| - 1] == name
  }

  lemma RootReachable(lock: Lock, root: string)
    ensures Reachable(lock, root, root)
  {
    assert IsPath(lock, root, [root]);
  }

  lemma DependencyReachable(lock: Lock, root: string, name: string, next: string)
    requires Reachable(lock, root, name) && name in lock && next in lock[name].dependencies
    ensures Reachable(lock, root, next)
  {
    var path :| IsPath(lock, root, path) && path[|path| - 1] == name;
    var longer := path + [next];
    forall i | 0 <= i < |longer| - 1 ensures longer[i] in lock && longer[i + 1] in lock[longer[i]].dependencies {
      if i < |path| - 1 { assert path[i] in lock && path[i + 1] in lock[path[i]].dependencies; }
    }
    assert IsPath(lock, root, longer);
  }

  /** A set that holds the root and all dependencies of its members holds everything reachable. */
  lemma {:induction false} ClosedCovers(lock: Lock, root: string, closed: set<string>, path: seq<string>)
    requires root in closed && IsPath(lock, root, path)
    requires forall n, d :: n in closed && n in lock && d in lock[n].dependencies ==> d in closed
    ensures path[|path| - 1] in closed
    decreases |path|
  {
    if |path| > 1 {
      var front := path[..|path| - 1];
      assert forall i :: 0 <= i < |front| ==> front[i] == path[i];
      ClosedCovers(lock, root, closed, front);
      assert path[|path| - 2] in lock && path[|path| - 2 + 1] in lock[path[|path| - 2]].dependencies;
    }
  }

  /** Edges that leave a set of selected packages. */
  ghost predicate EdgesOf(lock: Lock, selected: set<string>, edges: set<Edge>) {
    forall n, d :: (n, d) in edges <==> n in selected && n in lock && d in lock[n].dependencies
  }

  /** What the worklist has established. */
  ghost predicate Progress(lock: Lock, root: string, selected: map<string, Package>, edges: set<Edge>,
                           pending: seq<string>) {
    && (forall n :: n in selected ==> n in lock && selected[n] == lock[n] && Reachable(lock, root, n))
    && (forall i :: 0 <= i < |pending| ==> Reachable(lock, root, pending[i]))
    && (root in selected || root in pending)
    && EdgesOf(lock, selected.Keys, edges)
    && (forall n, d :: n in selected && d in selected[n].dependencies ==> d in selected || d in pending)
  }

  datatype Closure = Closure(packages: seq<Package>, edges: seq<Edge>)

  predicate EdgeBelow(x: Edge, y: Edge) { Below(x.0, y.0) || (x.0 == y.0 && Below(x.1, y.1)) }

  /** Edges sorted by source, and those of one source by target, none twice. */
  ghost predicate InOrder(edges: seq<Edge>) {
    forall i, j :: 0 <= i < j < |edges| ==>
      Below(edges[i].0, edges[j].0) || (edges[i].0 == edges[j].0 && Below(edges[i].1, edges[j].1))
  }

  lemma AscendingEdges(edges: seq<Edge>)
    requires Ascending(EdgeBelow, edges)
    ensures InOrder(edges)
  {
  }

  lemma EdgeBelowIsStrictOrder()
    ensures StrictOrder(EdgeBelow)
  {
    BelowIsStrictOrder();
    forall x: Edge ensures !EdgeBelow(x, x) { BelowIrreflexive(x.0); BelowIrreflexive(x.1); }
    forall x: Edge, y: Edge
      ensures EdgeBelow(x, y) || x == y || EdgeBelow(y, x)
    {
      BelowTotal(x.0, y.0);
      BelowTotal(x.1, y.1);
    }
    forall x: Edge, y: Edge, z: Edge | EdgeBelow(x, y) && EdgeBelow(y, z) ensures EdgeBelow(x, z) {
      if Below(x.0, y.0) && Below(y.0, z.0) { BelowTransitive(x.0, y.0, z.0); }
      if Below(x.1, y.1) && Below(y.1, z.1) { BelowTransitive(x.1, y.1, z.1); }
    }
  }

  /** Follow one package: its edges and its dependencies at the end of the queue. */
  method Expand(package: Package, name: string, edges: set<Edge>, pending: seq<string>)
    returns (edges': set<Edge>, pending': seq<string>)
    ensures pending' == pending + package.dependencies
    ensures edges' == edges + set d | d in package.dependencies :: (name, d)
  {
    edges', pending' := edges, pending;
    for i := 0 to |package.dependencies|
      invariant pending' == pending + package.dependencies[..i]
      invariant edges' == edges + set d | d in package.dependencies[..i] :: (name, d)
    {
      var d := package.dependencies[i];
      assert package.dependencies[..i + 1] == package.dependencies[..i] + [d];
      edges' := edges' + {(name, d)};
      pending' := pending' + [d];
    }
    assert package.dependencies[..|package.dependencies|] == package.dependencies;
  }

  lemma ExpandProgress(lock: Lock, root: string, selected: map<string, Package>, edges: set<Edge>, pending: seq<string>,
                       name: string, edges': set<Edge>)
    requires pending != [] && name == pending[0] && name !in selected && name in lock
    requires Progress(lock, root, selected, edges, pending)
    requires edges' == edges + set d | d in lock[name].dependencies :: (name, d)
    ensures Progress(lock, root, selected[name := lock[name]], edges', pending[1..] + lock[name].dependencies)
  {
    var next, queue := selected[name := lock[name]], pending[1..] + lock[name].dependencies;
    forall i | 0 <= i < |queue| ensures Reachable(lock, root, queue[i]) {
      if i >= |pending| - 1 {
        assert Reachable(lock, root, pending[0]);
        DependencyReachable(lock, root, name, queue[i]);
      }
    }
    assert pending == [name] + pending[1..];
    assert forall d :: d in pending <==> d == name || d in pending[1..];
    assert forall d :: d in queue <==> d in pending[1..] || d in lock[name].dependencies;
  }

  /**
    `_locked_runtime_packages`. The worklist terminates and returns, in order and without duplicates,
    exactly the packages reachable from the root and exactly the dependency edges that leave them. It
    fails exactly when a reachable name is not locked.
   */
  method LockedRuntimePackages(lock: Lock, root: string) returns (r: Result<Closure>, ghost names: seq<string>)
    ensures r.Ok? <==> forall n :: Reachable(lock, root, n) ==> n in lock
    ensures r.Ok? ==>
              && IsNameList(lock, root, names, r.value.packages)
              && InOrder(r.value.edges)
              && (forall n, d :: (n, d) in r.value.edges <==>
                    Reachable(lock, root, n) && n in lock && d in lock[n].dependencies)
              && (forall n, d :: (n, d) in r.value.edges ==> Reachable(lock, root, d))
  {
    var selected: map<string, Package>, edges: set<Edge>, pending := map[], {}, [root];
    RootReachable(lock, root);
    while pending != []
      invariant Progress(lock, root, selected, edges, pending)
      decreases lock.Keys - selected.Keys, |pending|
    {
      var name := pending[0];
      if name in selected {
        SkipProgress(lock, root, selected, edges, pending);
        pending := pending[1..];
        continue;
      }
      if name !in lock {
        assert Reachable(lock, root, name);
        return Err(OtherFailure), [];
      }
      var package := lock[name];
      ghost var queue := pending;
      var edges', pending' := Expand(package, name, edges, pending[1..]);
      ExpandProgress(lock, root, selected, edges, queue, name, edges');
      selected, edges, pending := selected[name := package], edges', pending';
    }
    AllSelected(lock, root, selected, edges);
    r, names := Finish(lock, root, selected, edges);
  }

  lemma SkipProgress(lock: Lock, root: string, selected: map<string, Package>, edges: set<Edge>, pending: seq<string>)
    requires pending != [] && pending[0] in selected && Progress(lock, root, selected, edges, pending)
    ensures Progress(lock, root, selected, edges, pending[1..])
  {
    assert pending == [pending[0]] + pending[1..];
    assert forall d :: d in pending <==> d == pending[0] || d in pending[1..];
  }

  lemma AllSelected(lock: Lock, root: string, selected: map<string, Package>, edges: set<Edge>)
    requires Progress(lock, root, selected, edges, [])
    ensures forall n :: Reachable(lock, root, n) <==> n in selected
  {
    forall n | Reachable(lock, root, n) ensures n in selected {
      var path :| IsPath(lock, root, path) && path[|path| - 1] == n;
      ClosedCovers(lock, root, selected.Keys, path);
    }
  }

  /** `packages` are the locked entries of `names`, which list the reachable names in order. */
  ghost predicate IsNameList(lock: Lock, root: string, names: seq<string>, packages: seq<Package>) {
    && Ascending(Below, names)
    && (forall n :: n in names <==> Reachable(lock, root, n))
    && |packages| == |names|
    && (forall i :: 0 <= i < |names| ==> names[i] in lock && packages[i] == lock[names[i]])
  }

  /** The two sorted lists of the result. */
  method Finish(lock: Lock, root: string, selected: map<string, Package>, edges: set<Edge>)
    returns (r: Result<Closure>, ghost names: seq<string>)
    requires Progress(lock, root, selected, edges, [])
    requires forall n :: Reachable(lock, root, n) <==> n in selected
    ensures r.Ok? && IsNameList(lock, root, names, r.value.packages)
    ensures InOrder(r.value.edges)
    ensures forall n, d :: (n, d) in r.value.edges <==>
                             Reachable(lock, root, n) && n in lock && d in lock[n].dependencies
    ensures forall n, d :: (n, d) in r.value.edges ==> Reachable(lock, root, d)
  {
    hide StrictOrder, Reachable, Below, EdgeBelow;
    BelowIsStrictOrder();
    var list := Sorted(Below, selected.Keys);
    names := list;
    assert forall i :: 0 <= i < |list| ==> list[i] in list;
    var packages := seq(|list|, i requires 0 <= i < |list| => selected[list[i]]);
    EdgeBelowIsStrictOrder();
    var sortedEdges := Sorted(EdgeBelow, edges);
    AscendingEdges(sortedEdges);
    r := Ok(Closure(packages, sortedEdges));
  }
}
