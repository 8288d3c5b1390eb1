/**
 * `graph.PathFinder.dijkstra`: the search over the vertices' own fields, with `MinVertexPQ` as
 * the queue. As written, the relaxation compares and adds the vertices' cost fields, but only
 * the queue's cost table is ever given a new value; every vertex keeps the +infinity of the
 * reset, so no edge is ever relaxed. `DijkstraAsWritten` models the code as it stands and
 * `AsWrittenNeverRelaxes` exhibits a graph where it misses a reachable vertex; `Dijkstra` is
 * the corrected search, in which a vertex's cost is the cost the queue recorded for it.
 */
module GraphPathFinder {
  import opened Costs
  import opened Paths
  import opened QueueContents
  import opened DijkstraCore
  import opened PriorityQueues
  import opened VertexSearch
  import opened Graphs

  /** No vertex has a finite cost field: the state the reset leaves behind. */
  ghost predicate NeverReached(cost: map<Key, Cost>)
  {
    forall v :: CostOf(cost, v) == Inf
  }

  /**
   * The loop of `dijkstra` as written, run on vertex cost fields `cost` that it reads but never
   * writes. Whatever the cost fields hold, each vertex is expanded at most once; when none of
   * them is finite (after the reset) the guard `v.cost > u.cost + w` never holds, so only the
   * source is visited and no parent is set.
   */
  method RunAsWritten(adj: Adj, source: Key, cost: map<Key, Cost>)
    returns (parent: map<Key, Key>, visited: set<Key>)
    requires WellFormed(adj) && source in adj
    ensures visited <= adj.Keys && source in visited
    ensures NeverReached(cost) ==> parent == map[] && visited == {source}
  {
    parent, visited := map[], {};
    var q := new MinVertexPQ();
    q.Update(source, Fin(0.0));
    while !q.IsEmpty()
      invariant q.Valid() && Elems(q.q) <= adj.Keys && visited <= adj.Keys
      invariant source in visited || q.q == [source]
      invariant NeverReached(cost) ==> parent == map[] && (q.q == [] || visited == {})
      invariant NeverReached(cost) ==> visited <= {source}
      decreases |adj.Keys - visited|, |q.q|
    {
      var min := q.ExtractMinCostVertex();
      var u := min.value;
      if u !in visited {
        assert adj.Keys - (visited + {u}) < adj.Keys - visited;
        visited := visited + {u};
        var edges := adj[u];
        var i := 0;
        while i < |edges|
          invariant i <= |edges|
          invariant q.Valid() && Elems(q.q) <= adj.Keys
          invariant NeverReached(cost) ==> parent == map[] && q.q == []
        {
          var v := edges[i].to;
          var altCost := Plus(CostOf(cost, u), edges[i].cost);
          if Below(altCost, CostOf(cost, v)) {
            q.Update(v, altCost);
            parent := parent[v := u];
          }
          i := i + 1;
        }
      }
    }
  }

  /**
   * `dijkstra(map, source)` as written: every vertex is reset to cost +infinity, no parent and
   * unvisited, and the loop above runs on those fields. The source keeps cost +infinity, it
   * is the only vertex visited, and no vertex gets a parent.
   */
  method DijkstraAsWritten<P>(g: Graph<P>, source: Key)
    requires g.Valid() && source in g.vertexByKey && WellFormed(g.adjacency)
    modifies g`cost, g`parent, g`visited
    ensures g.Valid()
    ensures g.cost == map k | k in g.vertexByKey :: Inf
    ensures g.parent == map[] && g.visited == {source}
  {
    g.cost := map k | k in g.vertexByKey :: Inf;
    g.parent := map[];
    g.visited := {};
    var parent, visited := RunAsWritten(g.adjacency, source, g.cost);
    g.parent, g.visited := parent, visited;
  }

  /** The two-vertex road map `s -> t` with one edge of weight 1. */
  function OneEdge(): Adj
  {
    map["s" := [Edge("s", "t", 1.0)], "t" := []]
  }

  /**
   * The outcome of `DijkstraAsWritten` is wrong on `OneEdge()`: `t` is reachable at distance 1,
   * yet it is not visited, has no parent and keeps cost +infinity, and even the source is left
   * at +infinity instead of 0.
   */
  lemma AsWrittenNeverRelaxes(cost: map<Key, Cost>, parent: map<Key, Key>, visited: set<Key>)
    requires NeverReached(cost) && parent == map[] && visited == {"s"}
    ensures WellFormed(OneEdge()) && NonNegative(OneEdge())
    ensures Reachable(OneEdge(), "s", "t") && "t" !in visited && "t" !in parent
    ensures !IsShortestDistance(OneEdge(), "s", "t", CostOf(cost, "t"))
    ensures !IsShortestDistance(OneEdge(), "s", "s", CostOf(cost, "s"))
    ensures !ShortestPathTree(OneEdge(), "s", cost, parent)
  {
    var g := OneEdge();
    var e := Edge("s", "t", 1.0);
    assert IsPath(g, [e][1..], "t", "t");
    assert IsPath(g, [e], "s", "t");
    assert IsPath(g, [], "s", "s");
  }

  /**
   * `dijkstra(map, source)` as evidently intended: each improvement also writes the new cost
   * into the vertex, so the vertex cost and the queue's recorded cost agree. Every vertex ends
   * with its shortest distance and a parent link realising it; exactly the reachable vertices
   * are visited. The reset to +infinity, no parent and unvisited is part of the values written
   * at the end: a vertex the search never reaches keeps exactly those.
   */
  method Dijkstra<P>(g: Graph<P>, source: Key)
    requires g.Valid() && source in g.vertexByKey
    requires WellFormed(g.adjacency) && NonNegative(g.adjacency)
    modifies g`cost, g`parent, g`visited
    ensures g.Valid()
    ensures ShortestPathTree(g.adjacency, source, g.cost, g.parent)
    ensures forall v :: v in g.visited <==> v in g.adjacency && Reachable(g.adjacency, source, v)
  {
    var cost, parent, visited := SearchVertices(g.adjacency, source, g.vertexByKey.Keys);
    g.cost, g.parent, g.visited := cost, parent, visited;
  }

  /**
   * The search of the corrected `dijkstra` on the adjacency `adj`, with the vertex fields as
   * values: the cost of each vertex of `keys` is the cost the queue recorded for it.
   */
  method SearchVertices(adj: Adj, source: Key, keys: set<Key>)
    returns (cost: map<Key, Cost>, parent: map<Key, Key>, visited: set<Key>)
    requires WellFormed(adj) && NonNegative(adj) && source in adj && keys == adj.Keys
    ensures cost.Keys == keys
    ensures ShortestPathTree(adj, source, cost, parent)
    ensures forall v :: v in visited <==> v in adj && Reachable(adj, source, v)
  {
    var q := new MinVertexPQ();
    ghost var rank;
    parent, visited, rank := MinVertexSearch(adj, source, q);
    var recorded := q.vertexCost;
    cost := map k | k in keys :: CostOf(recorded, k);
    TreeKeepsCosts(adj, source, recorded, cost, parent);
  }
}
