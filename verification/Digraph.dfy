/** Directed graphs as the make program's graph library presents them: each vertex maps to the
    vector of its out-neighbours.  Reachability is given by explicit walks. */
module Digraph {

  type Vertex = string

  type Graph = map<Vertex, seq<Vertex>>

  /** Every neighbour is itself a vertex. */
  ghost predicate Closed(g: Graph) {
    forall v, w :: v in g && w in g[v] ==> w in g
  }

  ghost predicate Walk(g: Graph, p: seq<Vertex>) {
    && p != []
    && (forall i :: 0 <= i < |p| ==> p[i] in g)
    && (forall i :: 0 <= i < |p| - 1 ==> p[i + 1] in g[p[i]])
  }

  ghost predicate WalkFromTo(g: Graph, p: seq<Vertex>, u: Vertex, v: Vertex) {
    Walk(g, p) && p[0] == u && p[|p| - 1] == v
  }

  ghost predicate Reaches(g: Graph, u: Vertex, v: Vertex) {
    exists p :: WalkFromTo(g, p, u, v)
  }

  ghost predicate OnCycle(g: Graph, v: Vertex) {
    exists p :: WalkFromTo(g, p, v, v) && |p| > 1
  }

  ghost predicate ReachesCycle(g: Graph, v: Vertex) {
    exists w :: Reaches(g, v, w) && OnCycle(g, w)
  }

  lemma ReachesSelf(g: Graph, v: Vertex)
    requires v in g
    ensures Reaches(g, v, v)
  {
    assert WalkFromTo(g, [v], v, v);
  }

  lemma ReachesStep(g: Graph, u: Vertex, v: Vertex, w: Vertex)
    requires u in g && v in g[u] && Reaches(g, v, w)
    ensures Reaches(g, u, w)
  {
    var p :| WalkFromTo(g, p, v, w);
    assert WalkFromTo(g, [u] + p, u, w);
  }

  /** A vertex reaches another exactly when it is that vertex or one of its neighbours reaches it. */
  lemma ReachesUnfolds(g: Graph, u: Vertex, w: Vertex)
    requires u in g
    ensures Reaches(g, u, w) <==> u == w || exists v :: v in g[u] && Reaches(g, v, w)
  {
    if Reaches(g, u, w) && u != w {
      var p :| WalkFromTo(g, p, u, w);
      assert WalkFromTo(g, p[1..], p[1], w);
    }
    if u == w {
      ReachesSelf(g, u);
    }
    forall v | v in g[u] && Reaches(g, v, w)
      ensures Reaches(g, u, w)
    {
      ReachesStep(g, u, v, w);
    }
  }

  /** The local law a depth-first search relies on: a vertex reaches a cycle exactly when one of
      its neighbours does. */
  lemma ReachesCycleUnfolds(g: Graph, u: Vertex)
    requires u in g
    ensures ReachesCycle(g, u) <==> exists v :: v in g[u] && ReachesCycle(g, v)
  {
    if ReachesCycle(g, u) {
      var w :| Reaches(g, u, w) && OnCycle(g, w);
      ReachesUnfolds(g, u, w);
      if u == w {
        var p :| WalkFromTo(g, p, u, u) && |p| > 1;
        assert WalkFromTo(g, p[1..], p[1], u);
        assert p[1] in g[u] && ReachesCycle(g, p[1]);
      }
    }
    forall v | v in g[u] && ReachesCycle(g, v)
      ensures ReachesCycle(g, u)
    {
      var w :| Reaches(g, v, w) && OnCycle(g, w);
      ReachesStep(g, u, v, w);
    }
  }

  /** A walk whose last vertex has an edge back into the walk closes a cycle, which every vertex of the
      walk reaches. */
  lemma BackEdgeClosesCycle(g: Graph, path: seq<Vertex>, w: Vertex)
    requires Walk(g, path) && w in path && w in g[path[|path| - 1]]
    ensures forall v :: v in path ==> ReachesCycle(g, v)
  {
    var i :| 0 <= i < |path| && path[i] == w;
    var last := path[|path| - 1];
    assert WalkFromTo(g, [last] + path[i..], last, last);
    assert OnCycle(g, last);
    forall v | v in path ensures ReachesCycle(g, v) {
      var j :| 0 <= j < |path| && path[j] == v;
      assert WalkFromTo(g, path[j..], v, last);
      assert Reaches(g, v, last);
    }
  }

  lemma WalksAgree(g: Graph, h: Graph, root: Vertex)
    requires g.Keys == h.Keys
    requires forall u :: u in g ==> root !in g[u]
    requires forall u :: u in g && u != root ==> g[u] == h[u]
    ensures forall p :: Walk(g, p) && p[0] != root ==> Walk(h, p)
  {
    forall p | Walk(g, p) && p[0] != root
      ensures Walk(h, p)
    {
      forall i | 0 <= i < |p|
        ensures p[i] != root
      {
        if i > 0 { assert p[i - 1 + 1] in g[p[i - 1]]; }
      }
    }
  }

  /** Graphs that differ only in the out-edges of a vertex nobody points to have the same walks
      from every other vertex. */
  lemma RootEdgesInvisible(g: Graph, h: Graph, root: Vertex, v: Vertex)
    requires g.Keys == h.Keys && v in g && v != root
    requires forall u :: u in g ==> root !in g[u] && root !in h[u]
    requires forall u :: u in g && u != root ==> g[u] == h[u]
    ensures forall w :: Reaches(g, v, w) <==> Reaches(h, v, w)
    ensures ReachesCycle(g, v) <==> ReachesCycle(h, v)
  {
    WalksAgree(g, h, root);
    WalksAgree(h, g, root);
    forall w | Reaches(g, v, w) ensures Reaches(h, v, w) {
      var p :| WalkFromTo(g, p, v, w);
      assert WalkFromTo(h, p, v, w);
    }
    forall w | Reaches(h, v, w) ensures Reaches(g, v, w) {
      var p :| WalkFromTo(h, p, v, w);
      assert WalkFromTo(g, p, v, w);
    }
    forall w | Reaches(g, v, w) ensures OnCycle(g, w) <==> OnCycle(h, w) {
      var q :| WalkFromTo(g, q, v, w);
      assert w != root by {
        if |q| > 1 { assert q[|q| - 2 + 1] in g[q[|q| - 2]]; }
      }
      if OnCycle(g, w) {
        var p :| WalkFromTo(g, p, w, w) && |p| > 1;
        assert WalkFromTo(h, p, w, w);
      }
      if OnCycle(h, w) {
        var p :| WalkFromTo(h, p, w, w) && |p| > 1;
        assert WalkFromTo(g, p, w, w);
      }
    }
  }
}
