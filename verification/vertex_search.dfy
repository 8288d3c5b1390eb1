/**
 * Dijkstra's search driven by `MinVertexPQ`, the queue that keeps its own cost table: the
 * tentative cost of a vertex is the cost the queue recorded for it (`q.cost(v)`), +infinity
 * for a vertex never passed to `update`. The expansion check uses a visited set.
 */
module VertexSearch {
  import opened Costs
  import opened Paths
  import opened QueueContents
  import opened DijkstraCore
  import opened PriorityQueues
  import opened Relaxation

  /**
   * One step of the edge scan of `u`, on its `i`-th edge `(u, v)`: when `cost(u) + w < cost(v)`
   * the queue records the new cost of `v` and requeues it (`q.update`), and `u` becomes the
   * parent of `v`; otherwise nothing changes.
   */
  method RelaxVertexEdge(adj: Adj, ghost source: Key, q: MinVertexPQ, u: Key, i: nat,
                         parent0: map<Key, Key>, ghost st0: Search)
    returns (parent: map<Key, Key>, ghost st: Search, improved: bool)
    requires WellFormed(adj) && NonNegative(adj) && u in adj && i < |adj[u]|
    requires q.Valid() && st0 == State(q.vertexCost, parent0, st0.settled, q.q, st0.rank)
    requires Expanding(adj, source, st0, u, i)
    modifies q
    ensures q.Valid() && st == State(q.vertexCost, parent, st0.settled, q.q, st.rank)
    ensures Expanding(adj, source, st, u, i + 1)
    ensures !improved ==> q.vertexCost == old(q.vertexCost) && parent == parent0
    ensures improved ==>
      && Below(Plus(CostOf(old(q.vertexCost), u), adj[u][i].cost), CostOf(old(q.vertexCost), adj[u][i].to))
      && adj[u][i].to !in st0.settled
      && q.vertexCost == old(q.vertexCost)[adj[u][i].to := Plus(CostOf(old(q.vertexCost), u), adj[u][i].cost)]
      && parent == parent0[adj[u][i].to := u]
  {
    parent, st := parent0, st0;
    var edge := adj[u][i];
    var v := edge.to;
    var altCost := Plus(q.Cost(u), edge.cost);
    if Below(altCost, q.Cost(v)) {
      ImproveStep(adj, source, st0, q.q, u, i);
      q.Update(v, altCost);
      parent := parent[v := u];
      st := Improve(st0, u, edge);
      improved := true;
    } else {
      RelaxSkips(adj, source, st0, u, i);
      improved := false;
    }
  }

  /** Scans every outgoing edge of the expanded vertex `u`, in order. */
  method ExpandVertexEdges(adj: Adj, ghost source: Key, q: MinVertexPQ, u: Key,
                           parent0: map<Key, Key>, ghost st0: Search)
    returns (parent: map<Key, Key>, ghost st: Search)
    requires WellFormed(adj) && NonNegative(adj) && u in adj
    requires q.Valid() && st0 == State(q.vertexCost, parent0, st0.settled, q.q, st0.rank)
    requires Expanding(adj, source, st0, u, 0)
    modifies q
    ensures q.Valid() && st == State(q.vertexCost, parent, st0.settled, q.q, st.rank)
    ensures Expanding(adj, source, st, u, |adj[u]|)
  {
    parent, st := parent0, st0;
    var edges := adj[u];
    var i := 0;
    while i < |edges|
      invariant i <= |edges|
      invariant q.Valid() && st == State(q.vertexCost, parent, st0.settled, q.q, st.rank)
      invariant Expanding(adj, source, st, u, i)
    {
      var improved;
      parent, st, improved := RelaxVertexEdge(adj, source, q, u, i, parent, st);
      i := i + 1;
    }
  }

  /**
   * One turn of the search loop: poll a vertex of least recorded cost and, unless it is in the
   * visited set, mark it visited and scan its edges. Either the visited set grows or the
   * queue shrinks.
   */
  method PollVertex(adj: Adj, ghost source: Key, q: MinVertexPQ,
                    parent0: map<Key, Key>, visited0: set<Key>, ghost st0: Search)
    returns (parent: map<Key, Key>, visited: set<Key>, ghost st: Search)
    requires WellFormed(adj) && NonNegative(adj) && !q.IsEmpty()
    requires q.Valid() && st0 == State(q.vertexCost, parent0, visited0, q.q, st0.rank)
    requires Inv(adj, source, st0)
    modifies q
    ensures q.Valid() && st == State(q.vertexCost, parent, visited, q.q, st.rank)
    ensures Inv(adj, source, st)
    ensures visited <= adj.Keys
    ensures |adj.Keys - visited| < |adj.Keys - visited0| || (visited == visited0 && |q.q| < |old(q.q)|)
  {
    ghost var pq := q.q;
    var min := q.ExtractMinCostVertex();
    var u := min.value;
    SettleStep(adj, source, st0, pq, u);
    parent, visited, st := parent0, visited0, st0;
    if u !in visited {
      assert adj.Keys - (visited + {u}) < adj.Keys - visited;
      visited := visited + {u};
      st := Settle(st0, u);
      parent, st := ExpandVertexEdges(adj, source, q, u, parent, st);
      ExpansionDone(adj, source, st, u);
    }
  }

  /** Polls until the queue is empty; then the search is complete. */
  method PollUntilEmpty(adj: Adj, ghost source: Key, q: MinVertexPQ,
                        parent0: map<Key, Key>, visited0: set<Key>, ghost st0: Search)
    returns (parent: map<Key, Key>, visited: set<Key>, ghost st: Search)
    requires WellFormed(adj) && NonNegative(adj) && visited0 <= adj.Keys
    requires q.Valid() && st0 == State(q.vertexCost, parent0, visited0, q.q, st0.rank)
    requires Inv(adj, source, st0)
    modifies q
    ensures q.Valid() && st == State(q.vertexCost, parent, visited, q.q, st.rank)
    ensures Inv(adj, source, st) && q.q == []
  {
    parent, visited, st := parent0, visited0, st0;
    while !q.IsEmpty()
      invariant q.Valid() && st == State(q.vertexCost, parent, visited, q.q, st.rank)
      invariant Inv(adj, source, st) && visited <= adj.Keys
      decreases |adj.Keys - visited|, |q.q|
    {
      parent, visited, st := PollVertex(adj, source, q, parent, visited, st);
    }
  }

  /**
   * The search over a fresh `MinVertexPQ`: the source is recorded at cost 0, and each polled
   * vertex is expanded unless it is in the visited set. At the end the queue's cost table
   * holds the shortest distances and `parent` a tree realising them.
   */
  method MinVertexSearch(adj: Adj, source: Key, q: MinVertexPQ)
    returns (parent: map<Key, Key>, visited: set<Key>, ghost rank: map<Key, nat>)
    requires WellFormed(adj) && NonNegative(adj) && source in adj
    requires q.q == [] && q.vertexCost == map[]
    modifies q
    ensures q.Valid()
    ensures ShortestPathTree(adj, source, q.vertexCost, parent)
    ensures forall v :: v in visited <==> v in adj && Reachable(adj, source, v)
    ensures Ranked(parent, rank)
  {
    q.Update(source, Fin(0.0));
    SeedStep(adj, source, q.vertexCost);
    ghost var st := State(q.vertexCost, map[], {}, q.q, map[source := 0]);
    parent, visited, st := PollUntilEmpty(adj, source, q, map[], {}, st);
    Finished(adj, source, st);
    rank := st.rank;
  }
}
