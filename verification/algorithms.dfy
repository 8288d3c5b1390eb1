/**
 * `Algorithms.computeShortestPathsFrom`: Dijkstra's search over a graph whose vertices carry
 * their own search fields (cost, parent, visited). The queue orders vertices by their cost;
 * it is the search-node queue keyed by the cost table. The search runs on the field values
 * and stores them back into the graph when it ends.
 */
module Algorithms {
  import opened Wrappers
  import opened Costs
  import opened Paths
  import opened QueueContents
  import opened DijkstraCore
  import opened PriorityQueues
  import opened Relaxation
  import opened Graphs

  /**
   * One step of the edge scan of the expanded vertex `u`, on its `i`-th edge `(u, v)`: on a
   * strict improvement it removes `v` from the queue, lowers its cost, makes `u` its parent,
   * queues it again and returns the new path for the callback; otherwise nothing changes.
   * Only a vertex that is not expanded yet is improved.
   */
  method RelaxEdge(adj: Adj, ghost source: Key, q: SearchNodePQ, u: Key, i: nat,
                   d0: map<Key, Cost>, parent0: map<Key, Key>, ghost st0: Search)
    returns (d: map<Key, Cost>, parent: map<Key, Key>, ghost st: Search, found: Option<PathFound>)
    requires WellFormed(adj) && NonNegative(adj) && u in adj && i < |adj[u]|
    requires NoDup(q.pq) && st0 == State(d0, parent0, st0.settled, q.pq, st0.rank)
    requires Expanding(adj, source, st0, u, i)
    modifies q
    ensures NoDup(q.pq) && st == State(d, parent, st0.settled, q.pq, st.rank)
    ensures Expanding(adj, source, st, u, i + 1)
    ensures found.None? ==> d == d0 && parent == parent0
    ensures found.Some? ==>
      && Below(Plus(CostOf(d0, u), adj[u][i].cost), CostOf(d0, adj[u][i].to))
      && adj[u][i].to !in st0.settled
      && d == d0[adj[u][i].to := Plus(CostOf(d0, u), adj[u][i].cost)]
      && parent == parent0[adj[u][i].to := u]
      && found.value == PathFound(adj[u][i], CostOf(d0, u).km + adj[u][i].cost)
      && Reported(adj, source, found.value)
  {
    var edge := adj[u][i];
    if Below(Plus(CostOf(d0, u), edge.cost), CostOf(d0, edge.to)) {
      var path;
      d, parent, st, path := LowerCost(adj, source, q, u, i, d0, parent0, st0);
      found := Some(path);
    } else {
      d, parent, st, found := d0, parent0, st0, None;
      RelaxSkips(adj, source, st0, u, i);
    }
  }

  /**
   * The improving branch of `RelaxEdge`: the target of the `i`-th edge of `u` is taken out of
   * the queue, gets the lower cost and `u` as its parent, and is queued again at the end.
   * (A proof helper split out of `RelaxEdge`.)
   */
  method LowerCost(adj: Adj, ghost source: Key, q: SearchNodePQ, u: Key, i: nat,
                   d0: map<Key, Cost>, parent0: map<Key, Key>, ghost st0: Search)
    returns (d: map<Key, Cost>, parent: map<Key, Key>, ghost st: Search, found: PathFound)
    requires WellFormed(adj) && NonNegative(adj) && u in adj && i < |adj[u]|
    requires NoDup(q.pq) && st0 == State(d0, parent0, st0.settled, q.pq, st0.rank)
    requires Expanding(adj, source, st0, u, i)
    requires Below(Plus(CostOf(d0, u), adj[u][i].cost), CostOf(d0, adj[u][i].to))
    modifies q
    ensures NoDup(q.pq) && st == State(d, parent, st0.settled, q.pq, st.rank)
    ensures Expanding(adj, source, st, u, i + 1)
    ensures adj[u][i].to !in st0.settled
    ensures d == d0[adj[u][i].to := Plus(CostOf(d0, u), adj[u][i].cost)]
    ensures parent == parent0[adj[u][i].to := u]
    ensures found == PathFound(adj[u][i], CostOf(d0, u).km + adj[u][i].cost) && Reported(adj, source, found)
  {
    var edge := adj[u][i];
    var v := edge.to;
    var altCost := Plus(CostOf(d0, u), edge.cost);
    ImproveStep(adj, source, st0, q.pq, u, i);
    found := PathFound(edge, altCost.km);
    var removed := q.Remove(v);
    d := d0[v := altCost];
    parent := parent0[v := u];
    q.Insert(v);
    st := Improve(st0, u, edge);
  }

  /**
   * Scans every outgoing edge of the expanded vertex `u`, in order, reporting each
   * improvement: afterwards every edge out of an expanded vertex is relaxed.
   */
  method ExpandVertex(adj: Adj, ghost source: Key, q: SearchNodePQ, u: Key,
                      d0: map<Key, Cost>, parent0: map<Key, Key>, ghost st0: Search, trace0: seq<PathFound>)
    returns (d: map<Key, Cost>, parent: map<Key, Key>, ghost st: Search, trace: seq<PathFound>)
    requires WellFormed(adj) && NonNegative(adj) && u in adj
    requires NoDup(q.pq) && st0 == State(d0, parent0, st0.settled, q.pq, st0.rank)
    requires Expanding(adj, source, st0, u, 0)
    requires TraceSound(adj, source, trace0)
    modifies q
    ensures NoDup(q.pq) && st == State(d, parent, st0.settled, q.pq, st.rank)
    ensures Expanding(adj, source, st, u, |adj[u]|)
    ensures TraceSound(adj, source, trace)
  {
    d, parent, st, trace := d0, parent0, st0, trace0;
    var edges := adj[u];
    var i := 0;
    while i < |edges|
      invariant i <= |edges|
      invariant NoDup(q.pq) && st == State(d, parent, st0.settled, q.pq, st.rank)
      invariant Expanding(adj, source, st, u, i)
      invariant TraceSound(adj, source, trace)
    {
      var found;
      d, parent, st, found := RelaxEdge(adj, source, q, u, i, d, parent, st);
      if found.Some? {
        trace := trace + [found.value];
      }
      i := i + 1;
    }
  }

  /**
   * The search loop of `computeShortestPathsFrom`, run on the search fields after the reset:
   * the source at cost 0 and alone in the queue, every other vertex at +infinity, no parent
   * and nothing visited.
   */
  method Search(adj: Adj, source: Key, d0: map<Key, Cost>)
    returns (d: map<Key, Cost>, parent: map<Key, Key>, visited: set<Key>, ghost rank: map<Key, nat>, trace: seq<PathFound>)
    requires WellFormed(adj) && NonNegative(adj) && source in adj
    requires CostOf(d0, source) == Fin(0.0) && forall v | v != source :: CostOf(d0, v) == Inf
    ensures ShortestPathTree(adj, source, d, parent) && Ranked(parent, rank)
    ensures forall v :: v in visited <==> v in adj && Reachable(adj, source, v)
    ensures forall k | CostOf(d, k).Fin? || k in parent :: k in visited
    ensures TraceSound(adj, source, trace)
  {
    d, parent, visited, trace := d0, map[], {}, [];
    var q := new SearchNodePQ();
    q.Insert(source);
    SeedStep(adj, source, d);
    ghost var st := State(d, parent, visited, q.pq, map[source := 0]);
    while !q.IsEmpty()
      invariant NoDup(q.pq) && st == State(d, parent, visited, q.pq, st.rank)
      invariant Inv(adj, source, st)
      invariant TraceSound(adj, source, trace)
      decreases |adj.Keys - visited|, |q.pq|
    {
      ghost var pq := q.pq;
      var min := q.ExtractMin(d);
      var u := min.value;
      SettleStep(adj, source, st, pq, u);
      if u !in visited {
        assert adj.Keys - (visited + {u}) < adj.Keys - visited;
        visited := visited + {u};
        st := Settle(st, u);
        d, parent, st, trace := ExpandVertex(adj, source, q, u, d, parent, st, trace);
        ExpansionDone(adj, source, st, u);
      }
    }
    Finished(adj, source, st);
    rank := st.rank;
  }

  /**
   * `computeShortestPathsFrom(g, source, onNewPathFound)`: resets every vertex to cost
   * +infinity, no parent and unvisited, seeds the source at cost 0 and runs the search. With
   * non-negative weights every vertex ends with its shortest distance and a parent link that
   * realises it, exactly the reachable vertices are visited, and the paths reported to the
   * callback are real paths.
   */
  method ComputeShortestPathsFrom<P>(g: Graph<P>, source: Key) returns (trace: seq<PathFound>, ghost rank: map<Key, nat>)
    requires g.Valid() && source in g.vertexByKey
    requires WellFormed(g.adjacency) && NonNegative(g.adjacency)
    modifies g`cost, g`parent, g`visited
    ensures g.Valid()
    ensures ShortestPathTree(g.adjacency, source, g.cost, g.parent) && Ranked(g.parent, rank)
    ensures forall v :: v in g.visited <==> v in g.adjacency && Reachable(g.adjacency, source, v)
    ensures TraceSound(g.adjacency, source, trace)
  {
    g.cost := map k | k in g.vertexByKey :: Inf;
    g.parent := map[];
    g.visited := {};
    g.cost := g.cost[source := Fin(0.0)];
    var d, parent, visited;
    d, parent, visited, rank, trace := Search(g.adjacency, source, g.cost);
    g.cost, g.parent, g.visited := d, parent, visited;
  }

  /** `computeShortestPathsFrom(g, source)`: the same search with a callback that does nothing. */
  method ComputeShortestPathsFromSilently<P>(g: Graph<P>, source: Key) returns (ghost rank: map<Key, nat>)
    requires g.Valid() && source in g.vertexByKey
    requires WellFormed(g.adjacency) && NonNegative(g.adjacency)
    modifies g`cost, g`parent, g`visited
    ensures g.Valid()
    ensures ShortestPathTree(g.adjacency, source, g.cost, g.parent) && Ranked(g.parent, rank)
    ensures forall v :: v in g.visited <==> v in g.adjacency && Reachable(g.adjacency, source, v)
  {
    var _, r := ComputeShortestPathsFrom(g, source);
    rank := r;
  }
}
