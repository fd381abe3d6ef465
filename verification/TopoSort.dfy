/** The order in which rules are considered: a post-order walk from the kept goals. */
module TopoSort {
  import opened Basics
  import opened Digraph
  import opened CycleCheck

  /** The vector the sort appends to. */
  class VertexVector {
    var items: seq<Vertex>

    constructor ()
      ensures items == []
    {
      items := [];
    }

    method PushBack(v: Vertex)
      modifies this
      ensures items == old(items) + [v]
    {
      items := items + [v];
    }
  }

  /** Every dependency of a listed vertex is listed strictly before it. */
  ghost predicate DependenciesFirst(g: Graph, s: seq<Vertex>) {
    && (forall i :: 0 <= i < |s| ==> s[i] in g)
    && forall i, w :: 0 <= i < |s| && w in g[s[i]] ==> w in s[..i]
  }

  ghost predicate TopologicalOrder(g: Graph, s: seq<Vertex>) {
    Distinct(s) && DependenciesFirst(g, s)
  }

  /** Between and during visits: everything visited is either listed or on the walk in progress. */
  ghost predicate SortState(g: Graph, visited: set<Vertex>, sorted: seq<Vertex>, path: seq<Vertex>) {
    && TopologicalOrder(g, sorted)
    && visited <= g.Keys
    && (forall v :: v in visited ==> v in sorted || v in path)
    && (forall v :: v in sorted ==> v in visited)
    && (forall v :: v in path ==> v in visited && v !in sorted)
  }

  lemma AppendKeepsOrder(g: Graph, s: seq<Vertex>, v: Vertex)
    requires TopologicalOrder(g, s) && v in g && v !in s
    requires forall w :: w in g[v] ==> w in s
    ensures TopologicalOrder(g, s + [v])
  {
    forall i, w | 0 <= i < |s + [v]| && w in g[(s + [v])[i]]
      ensures w in (s + [v])[..i]
    {
      assert (s + [v])[..i] == s[..i];
      if i < |s| {
        assert w in s[..i];
      } else {
        assert s[..i] == s;
      }
    }
  }

  /** `after` extends `before` by vertices that `source` reaches. */
  ghost predicate GrewFrom(g: Graph, source: Vertex, before: seq<Vertex>, after: seq<Vertex>) {
    before <= after && forall v :: v in after ==> v in before || Reaches(g, source, v)
  }

  lemma GrowthComposes(g: Graph, u: Vertex, w: Vertex, a: seq<Vertex>, b: seq<Vertex>, c: seq<Vertex>)
    requires u in g && w in g[u] && GrewFrom(g, u, a, b) && GrewFrom(g, w, b, c)
    ensures GrewFrom(g, u, a, c)
    ensures forall v :: v in b ==> v in c
  {
    assert forall v :: v in b ==> v in c[..|b|];
    forall v | v in c && v !in a
      ensures Reaches(g, u, v)
    {
      if v !in b {
        ReachesStep(g, u, w, v);
      }
    }
  }

  lemma FinishVertex(g: Graph, visited: set<Vertex>, a: seq<Vertex>, b: seq<Vertex>, path: seq<Vertex>, v: Vertex)
    requires v in g && v !in path && GrewFrom(g, v, a, b) && SortState(g, visited, b, path + [v])
    requires forall w :: w in g[v] ==> w in b
    ensures GrewFrom(g, v, a, b + [v]) && SortState(g, visited, b + [v], path)
  {
    assert v in path + [v];
    AppendKeepsOrder(g, b, v);
    ReachesSelf(g, v);
  }

  method SortUtil(target: Vertex, dep: DependencyGraph, visited: VertexSet, sorted: VertexVector,
                  ghost path: seq<Vertex>)
    requires Closed(dep.adj) && target in dep.adj && target !in visited.elems
    requires !ReachesCycle(dep.adj, target) && Extends(dep.adj, path, target)
    requires SortState(dep.adj, visited.elems, sorted.items, path)
    modifies visited, sorted
    ensures SortState(dep.adj, visited.elems, sorted.items, path)
    ensures target in sorted.items && old(visited.elems) <= visited.elems
    ensures GrewFrom(dep.adj, target, old(sorted.items), sorted.items)
    decreases dep.adj.Keys - visited.elems
  {
    visited.Add(target);
    ghost var here := path + [target];
    var neighbors := dep.adj[target];
    ReachesCycleUnfolds(dep.adj, target);
    for i := 0 to |neighbors|
      invariant SortState(dep.adj, visited.elems, sorted.items, here)
      invariant old(visited.elems) + {target} <= visited.elems
      invariant GrewFrom(dep.adj, target, old(sorted.items), sorted.items)
      invariant forall j :: 0 <= j < i ==> neighbors[j] in sorted.items
    {
      var w := neighbors[i];
      if w !in visited.elems {
        ghost var before := sorted.items;
        SortUtil(w, dep, visited, sorted, here);
        GrowthComposes(dep.adj, target, w, old(sorted.items), before, sorted.items);
      } else if w in here {
        BackEdgeClosesCycle(dep.adj, here, w);
        assert false;
      }
    }
    FinishVertex(dep.adj, visited.elems, old(sorted.items), sorted.items, path, target);
    sorted.PushBack(target);
  }

  /** A vertex before its dependents: whatever a listed vertex reaches is listed too. */
  lemma {:induction false} ListedClosure(g: Graph, s: seq<Vertex>, p: seq<Vertex>)
    requires DependenciesFirst(g, s) && Walk(g, p) && p[0] in s
    ensures p[|p| - 1] in s
    decreases |p|
  {
    if |p| > 1 {
      var i :| 0 <= i < |s| && s[i] == p[0];
      assert p[1] in s[..i];
      ListedClosure(g, s, p[1..]);
    }
  }

  /** Lists each vertex reachable from a target exactly once, and nothing else, dependencies
      first. */
  method Sort(targets: seq<Vertex>, dep: DependencyGraph, sorted: VertexVector)
    requires Closed(dep.adj) && sorted.items == []
    requires forall t :: t in targets ==> t in dep.adj && !ReachesCycle(dep.adj, t)
    modifies sorted
    ensures TopologicalOrder(dep.adj, sorted.items)
    ensures forall v :: v in sorted.items <==> exists t :: t in targets && Reaches(dep.adj, t, v)
  {
    hide ReachesCycle, Walk;
    var visited := new VertexSet();
    for i := 0 to |targets|
      invariant SortState(dep.adj, visited.elems, sorted.items, [])
      invariant forall j :: 0 <= j < i ==> targets[j] in sorted.items
      invariant forall v :: v in sorted.items ==> exists t :: t in targets && Reaches(dep.adj, t, v)
    {
      ghost var before := sorted.items;
      if targets[i] !in visited.elems {
        SortUtil(targets[i], dep, visited, sorted, []);
        assert forall v :: v in before ==> v in sorted.items[..|before|];
      }
    }
    forall t, v | t in targets && Reaches(dep.adj, t, v)
      ensures v in sorted.items
    {
      var p :| WalkFromTo(dep.adj, p, t, v);
      ListedClosure(dep.adj, sorted.items, p);
    }
  }

  lemma RootUnreachable(g: Graph, t: Vertex)
    requires Rooted(g) && t in g && t != ROOT
    ensures !Reaches(g, t, ROOT)
  {
    forall p | Walk(g, p) && p[0] == t
      ensures p[|p| - 1] != ROOT
    {
      if |p| > 1 {
        assert p[|p| - 2 + 1] in g[p[|p| - 2]];
      }
    }
  }

  /** Some goal that reaches no cycle needs `v`. */
  ghost predicate Needed(g: Graph, v: Vertex)
    requires ROOT in g
  {
    exists t :: t in g[ROOT] && !ReachesCycle(g, t) && Reaches(g, t, v)
  }

  /** The two phases together: for any rooted graph, cyclic or not, what is sorted is exactly what
      the cycle-free goals need, dependencies first. */
  method PlanBuild(dep: DependencyGraph) returns (sorted: VertexVector)
    requires Rooted(dep.adj)
    modifies dep
    ensures Rooted(dep.adj) && dep.adj.Keys == old(dep.adj).Keys && fresh(sorted)
    ensures forall u :: u in dep.adj && u != ROOT ==> dep.adj[u] == old(dep.adj)[u]
    ensures (forall v :: v in sorted.items ==> v in dep.adj) && ROOT !in sorted.items
    ensures TopologicalOrder(dep.adj, sorted.items)
    ensures forall t :: t in dep.adj[ROOT] ==> t in sorted.items
    ensures forall t :: t in dep.adj[ROOT] <==> t in old(dep.adj)[ROOT] && !ReachesCycle(old(dep.adj), t)
    ensures forall v :: v in sorted.items <==> Needed(old(dep.adj), v)
  {
    ghost var g := dep.adj;
    CheckCycle(dep);
    ghost var h := dep.adj;
    forall t | t in g && t != ROOT
      ensures ReachesCycle(g, t) <==> ReachesCycle(h, t)
      ensures forall v :: Reaches(g, t, v) <==> Reaches(h, t, v)
    {
      RootEdgesInvisible(g, h, ROOT, t);
    }
    sorted := new VertexVector();
    Sort(dep.adj[ROOT], dep, sorted);
    forall t | t in h[ROOT]
      ensures t in sorted.items
    {
      ReachesSelf(h, t);
    }
    forall t | t in h[ROOT]
      ensures !Reaches(h, t, ROOT)
    {
      RootUnreachable(h, t);
    }
  }
}
