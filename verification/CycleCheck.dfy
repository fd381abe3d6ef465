/** Dropping the goals that can reach a dependency cycle: one depth-first search per goal, with the
    `visited` and `stack` sets shared by all of them.  A search that fails leaves the vertices it
    was on in `stack`, and later searches rely on finding them there. */
module CycleCheck {
  import opened Digraph

  /** The vertex whose out-edges are the goals. */
  const ROOT: Vertex := ""

  /** A mutable set of vertices, passed by reference. */
  class VertexSet {
    var elems: set<Vertex>

    constructor ()
      ensures elems == {}
    {
      elems := {};
    }

    method Add(v: Vertex)
      modifies this
      ensures elems == old(elems) + {v}
    {
      elems := elems + {v};
    }

    method Remove(v: Vertex)
      modifies this
      ensures elems == old(elems) - {v}
    {
      elems := elems - {v};
    }
  }

  function Without(s: seq<Vertex>, v: Vertex): (r: seq<Vertex>)
    ensures forall x :: x in r <==> x in s && x != v
  {
    if s == [] then [] else (if s[0] == v then [] else [s[0]]) + Without(s[1..], v)
  }

  /** The dependency graph object: edges can be removed from it. */
  class DependencyGraph {
    var adj: Graph

    constructor (g: Graph)
      ensures adj == g
    {
      adj := g;
    }

    method RemoveEdge(u: Vertex, v: Vertex)
      requires u in adj
      modifies this
      ensures adj == old(adj)[u := Without(old(adj)[u], v)]
    {
      adj := adj[u := Without(adj[u], v)];
    }
  }

  /** The root is nobody's dependency, and dependencies are vertices. */
  ghost predicate Rooted(g: Graph) {
    && Closed(g)
    && ROOT in g
    && forall u :: u in g ==> ROOT !in g[u]
  }

  /** What the two sets mean between and during searches; `path` is the walk in progress. */
  ghost predicate SearchState(g: Graph, visited: set<Vertex>, stack: set<Vertex>, path: seq<Vertex>) {
    && stack <= visited <= g.Keys - {ROOT}
    && (forall v :: v in path ==> v in stack)
    && (forall v :: v in visited && v !in stack ==> !ReachesCycle(g, v))
    && (forall v :: v in stack && v !in path ==> ReachesCycle(g, v))
  }

  /** `vertex` may be appended to the walk in progress. */
  ghost predicate Extends(g: Graph, path: seq<Vertex>, vertex: Vertex) {
    path == [] || (Walk(g, path) && vertex in g[path[|path| - 1]])
  }

  /** The depth-first search from an unvisited vertex decides whether it reaches a cycle, and keeps
      the meaning of the shared sets whichever way it ends. */
  method HasCycleUtil(dep: DependencyGraph, vertex: Vertex, vis: VertexSet, stack: VertexSet,
                      ghost path: seq<Vertex>)
    returns (found: bool)
    requires vis != stack && Rooted(dep.adj)
    requires vertex in dep.adj && vertex != ROOT && vertex !in vis.elems && Extends(dep.adj, path, vertex)
    requires SearchState(dep.adj, vis.elems, stack.elems, path)
    modifies vis, stack
    ensures found <==> ReachesCycle(dep.adj, vertex)
    ensures SearchState(dep.adj, vis.elems, stack.elems, path)
    ensures vertex in vis.elems && old(vis.elems) <= vis.elems
    ensures vertex in stack.elems <==> found
    ensures old(stack.elems) <= stack.elems
    ensures !found ==> stack.elems == old(stack.elems)
    decreases dep.adj.Keys - vis.elems
  {
    vis.Add(vertex);
    stack.Add(vertex);
    ghost var here := path + [vertex];
    var neighbors := dep.adj[vertex];
    ReachesCycleUnfolds(dep.adj, vertex);
    for i := 0 to |neighbors|
      invariant SearchState(dep.adj, vis.elems, stack.elems, here)
      invariant old(vis.elems) + {vertex} <= vis.elems
      invariant stack.elems == old(stack.elems) + {vertex}
      invariant forall j :: 0 <= j < i ==> !ReachesCycle(dep.adj, neighbors[j])
    {
      var w := neighbors[i];
      if w in stack.elems {
        if w in here {
          BackEdgeClosesCycle(dep.adj, here, w);
        }
        return true;
      }
      if w !in vis.elems {
        var below := HasCycleUtil(dep, w, vis, stack, here);
        if below {
          return true;
        }
      }
    }
    stack.Remove(vertex);
    return false;
  }

  /** `h` is `g` without the root's edges to `dropped`. */
  ghost predicate Pruned(g: Graph, h: Graph, dropped: set<Vertex>) {
    && Rooted(h) && g.Keys == h.Keys
    && (forall u :: u in g && u != ROOT ==> h[u] == g[u])
    && forall v :: v in h[ROOT] <==> v in g[ROOT] && v !in dropped
  }

  lemma PruningKeepsCycles(g: Graph, h: Graph, dropped: set<Vertex>, visited: set<Vertex>, stack: set<Vertex>)
    requires Rooted(g) && Pruned(g, h, dropped)
    ensures forall v :: v in g && v != ROOT ==> (ReachesCycle(g, v) <==> ReachesCycle(h, v))
    ensures SearchState(g, visited, stack, []) <==> SearchState(h, visited, stack, [])
  {
    forall v | v in g && v != ROOT
      ensures ReachesCycle(g, v) <==> ReachesCycle(h, v)
    {
      RootEdgesInvisible(g, h, ROOT, v);
    }
  }

  lemma PruneOneMore(g: Graph, h: Graph, dropped: set<Vertex>, v: Vertex)
    requires Rooted(g) && Pruned(g, h, dropped)
    ensures Pruned(g, h[ROOT := Without(h[ROOT], v)], dropped + {v})
  {
  }

  /** One goal's turn: it is searched unless already visited, and dropped when it reaches a cycle. */
  method CheckGoal(dep: DependencyGraph, vertex: Vertex, visited: VertexSet, stack: VertexSet)
    returns (drop: bool)
    requires Rooted(dep.adj) && vertex in dep.adj && vertex != ROOT && visited != stack
    requires SearchState(dep.adj, visited.elems, stack.elems, [])
    modifies visited, stack
    ensures drop <==> ReachesCycle(dep.adj, vertex)
    ensures SearchState(dep.adj, visited.elems, stack.elems, [])
  {
    drop := false;
    if vertex !in visited.elems {
      drop := HasCycleUtil(dep, vertex, visited, stack, []);
    } else if vertex in stack.elems {
      drop := true;
    }
  }

  /** Keeps exactly the goals that reach no cycle, and touches no other edge. */
  method CheckCycle(dep: DependencyGraph)
    requires Rooted(dep.adj)
    modifies dep
    ensures Rooted(dep.adj) && dep.adj.Keys == old(dep.adj).Keys
    ensures forall u :: u in dep.adj && u != ROOT ==> dep.adj[u] == old(dep.adj)[u]
    ensures forall v :: v in dep.adj[ROOT] <==> v in old(dep.adj)[ROOT] && !ReachesCycle(old(dep.adj), v)
  {
    ghost var g := dep.adj;
    ghost var dropped: set<Vertex> := {};
    var visited := new VertexSet();
    var stack := new VertexSet();
    var goals := dep.adj[ROOT];
    for i := 0 to |goals|
      invariant Pruned(g, dep.adj, dropped)
      invariant forall v :: v in dropped <==> v in goals[..i] && ReachesCycle(g, v)
      invariant SearchState(g, visited.elems, stack.elems, [])
    {
      var vertex := goals[i];
      PruningKeepsCycles(g, dep.adj, dropped, visited.elems, stack.elems);
      var drop := CheckGoal(dep, vertex, visited, stack);
      PruningKeepsCycles(g, dep.adj, dropped, visited.elems, stack.elems);
      if drop {
        PruneOneMore(g, dep.adj, dropped, vertex);
        dropped := dropped + {vertex};
        dep.RemoveEdge(ROOT, vertex);
      }
      assert goals[..i + 1] == goals[..i] + [vertex];
    }
    assert goals[..|goals|] == goals;
  }
}
