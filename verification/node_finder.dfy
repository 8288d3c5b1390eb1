/**
 * `graph.search.PathFinder`: Dijkstra's search over search nodes created on demand. A run
 * starts from an empty node table; `node(v)` creates the node of `v` on first access. A node
 * is marked visited only after its edges are scanned, and each improvement is reported to
 * `onNewPathFound` (the trace).
 */
module NodeFinder {
  import opened Wrappers
  import opened Costs
  import opened Paths
  import opened QueueContents
  import opened DijkstraCore
  import opened PriorityQueues
  import opened Relaxation
  import opened Algorithms
  import opened Routes
  import opened Planner
  import opened SearchNodes

  /**
   * One turn of the loop of `computeAllPaths`: poll a node of least cost; unless it is
   * visited, scan its edges and then mark it visited.
   */
  method PollNode(adj: Adj, ghost source: Key, q: SearchNodePQ,
                  d0: map<Key, Cost>, parent0: map<Key, Key>, visited0: set<Key>, ghost st0: Search, trace0: seq<PathFound>)
    returns (d: map<Key, Cost>, parent: map<Key, Key>, visited: set<Key>, ghost st: Search, trace: seq<PathFound>)
    requires WellFormed(adj) && NonNegative(adj) && !q.IsEmpty() && visited0 <= adj.Keys
    requires NoDup(q.pq) && st0 == State(d0, parent0, visited0, q.pq, st0.rank)
    requires Inv(adj, source, st0) && TraceSound(adj, source, trace0)
    modifies q
    ensures NoDup(q.pq) && st == State(d, parent, visited, q.pq, st.rank)
    ensures Inv(adj, source, st) && TraceSound(adj, source, trace)
    ensures visited <= adj.Keys
    ensures |adj.Keys - visited| < |adj.Keys - visited0| || (visited == visited0 && |q.pq| < |old(q.pq)|)
  {
    ghost var pq := q.pq;
    var min := q.ExtractMin(d0);
    var u := min.value;
    SettleStep(adj, source, st0, pq, u);
    d, parent, visited, st, trace := d0, parent0, visited0, st0, trace0;
    if u !in visited {
      assert adj.Keys - (visited + {u}) < adj.Keys - visited;
      st := Settle(st0, u);
      d, parent, st, trace := ExpandVertex(adj, source, q, u, d, parent, st, trace);
      ExpansionDone(adj, source, st, u);
      visited := visited + {u};
    }
  }

  /**
   * The search of `computeAllPaths` on tables that start empty (every node fresh): the source
   * at cost 0 is inserted, then nodes are polled until the queue is empty.
   */
  method NodeSearch(adj: Adj, source: Key)
    returns (d: map<Key, Cost>, parent: map<Key, Key>, visited: set<Key>, ghost rank: map<Key, nat>, trace: seq<PathFound>)
    requires WellFormed(adj) && NonNegative(adj) && source in adj
    ensures ShortestPathTree(adj, source, d, parent) && Ranked(parent, rank)
    ensures forall v :: v in visited <==> v in adj && Reachable(adj, source, v)
    ensures forall k | CostOf(d, k).Fin? || k in parent :: k in visited
    ensures TraceSound(adj, source, trace)
  {
    d, parent, visited, trace := map[source := Fin(0.0)], map[], {}, [];
    var open := new SearchNodePQ();
    open.Insert(source);
    SeedStep(adj, source, d);
    ghost var st := State(d, parent, visited, open.pq, map[source := 0]);
    while !open.IsEmpty()
      invariant NoDup(open.pq) && st == State(d, parent, visited, open.pq, st.rank)
      invariant Inv(adj, source, st) && TraceSound(adj, source, trace) && visited <= adj.Keys
      decreases |adj.Keys - visited|, |open.pq|
    {
      d, parent, visited, st, trace := PollNode(adj, source, open, d, parent, visited, st, trace);
    }
    Finished(adj, source, st);
    rank := st.rank;
  }

  /**
   * The node table a run of `computeAllPaths` leaves behind: a node for each vertex the search
   * reached, holding its cost, its parent and its visited flag.
   */
  method SearchTable(adj: Adj, source: Key)
    returns (nodes: map<Key, SearchNode>, ghost rank: map<Key, nat>, trace: seq<PathFound>)
    requires WellFormed(adj) && NonNegative(adj) && source in adj
    ensures ShortestPathTree(adj, source, NodeCosts(nodes), Parents(nodes)) && Ranked(Parents(nodes), rank)
    ensures forall v :: v in nodes <==> v in adj && Reachable(adj, source, v)
    ensures forall v | v in nodes :: nodes[v].visited
    ensures TraceSound(adj, source, trace)
  {
    var d, parent, visited;
    d, parent, visited, rank, trace := NodeSearch(adj, source);
    NodeTableKeepsTree(adj, source, visited, d, parent, visited);
    nodes := NodeTable(visited, d, parent, visited);
  }

  class PathFinder {
    var nodes: map<Key, SearchNode>
    var currentSource: Option<Key>
    /** The adjacency and source of the last search, and the hop counts of its parent links. */
    ghost var searched: Adj
    ghost var treeSource: Option<Key>
    ghost var rank: map<Key, nat>

    /** The node table is the shortest-path tree of the last search. */
    ghost predicate TreeValid()
      reads this
    {
      treeSource.Some? ==>
        && WellFormed(searched) && NonNegative(searched) && treeSource.value in searched
        && ShortestPathTree(searched, treeSource.value, NodeCosts(nodes), Parents(nodes))
        && Ranked(Parents(nodes), rank)
    }

    /** ... and it belongs to the cached source. */
    ghost predicate Valid()
      reads this
    {
      TreeValid() && (currentSource.Some? ==> treeSource == currentSource)
    }

    constructor ()
      ensures Valid() && nodes == map[] && currentSource == None
    {
      nodes := map[];
      currentSource := None;
      treeSource := None;
    }

    /**
     * `node(v)`: the node of `v`, created fresh on first access and the same one afterwards.
     * The table exists only once a search has run (before that the source dereferences null).
     */
    method Node(v: Key) returns (n: SearchNode)
      requires Valid() && treeSource.Some?
      modifies this`nodes
      ensures Valid()
      ensures v in old(nodes) ==> n == old(nodes)[v]
      ensures v !in old(nodes) ==> n == Fresh
      ensures nodes == old(nodes)[v := n]
      ensures NodeCosts(nodes) == NodeCosts(old(nodes))[v := n.cost] && Parents(nodes) == Parents(old(nodes))
      ensures forall k :: CostOf(NodeCosts(nodes), k) == CostOf(NodeCosts(old(nodes)), k)
    {
      if v in nodes {
        n := nodes[v];
      } else {
        FreshNodeKeepsTree(nodes, v);
        n := Fresh;
        nodes := nodes[v := n];
        if treeSource.Some? {
          TreeKeepsCosts(searched, treeSource.value, NodeCosts(old(nodes)), NodeCosts(nodes), Parents(nodes));
        }
      }
    }

    /**
     * `computeAllPaths(g, source)`: discards the previous node table and runs the search. The
     * new table has a node for exactly the reachable vertices, all of them visited, and is a
     * shortest-path tree from `source`; the paths reported to `onNewPathFound` are real.
     */
    method ComputeAllPaths(adj: Adj, source: Key) returns (trace: seq<PathFound>)
      requires WellFormed(adj) && NonNegative(adj) && source in adj
      modifies this`nodes, this`searched, this`treeSource, this`rank
      ensures TreeValid() && searched == adj && treeSource == Some(source)
      ensures forall v :: v in nodes <==> v in adj && Reachable(adj, source, v)
      ensures forall v | v in nodes :: nodes[v].visited
      ensures TraceSound(adj, source, trace)
    {
      var table;
      ghost var r;
      table, r, trace := SearchTable(adj, source);
      nodes := table;
      searched, treeSource, rank := adj, Some(source), r;
    }

    /**
     * `findPath(g, source, goal)`: empty when either is missing; the search reruns only for a
     * new source; the route is the parent walk from the goal's node, which is a shortest path
     * when the goal is reachable and `[goal]` otherwise (the goal then gets a fresh node).
     */
    method FindPath(adj: Adj, source: Option<Key>, goal: Option<Key>) returns (route: seq<Key>)
      requires Valid() && WellFormed(adj) && NonNegative(adj) && (source.Some? ==> source.value in adj)
      modifies this
      ensures Valid()
      ensures source.None? || goal.None? ==> route == [] && unchanged(this)
      ensures source.Some? && goal.Some? ==> currentSource == source && treeSource == source
      ensures source.Some? && goal.Some? && source != old(currentSource) ==> searched == adj
      ensures source == old(currentSource) ==>
        searched == old(searched) && Parents(nodes) == Parents(old(nodes)) &&
        forall k :: CostOf(NodeCosts(nodes), k) == CostOf(NodeCosts(old(nodes)), k)
      ensures source.Some? && goal.Some? ==> ParentWalk(Parents(nodes), route, goal.value)
      ensures source.Some? && goal.Some? && goal.value in searched && Reachable(searched, source.value, goal.value) ==>
        route[0] == source.value &&
        exists p :: IsPath(searched, p, source.value, goal.value) && Follows(p, route) &&
          PathCost(p) == CostOf(NodeCosts(nodes), goal.value).km
      ensures source.Some? && goal.Some? && !(goal.value in searched && Reachable(searched, source.value, goal.value)) ==>
        route == [goal.value]
    {
      if source.None? || goal.None? {
        return [];
      }
      if source != currentSource {
        currentSource := source;
        var _ := ComputeAllPaths(adj, source.value);
      }
      var goalNode := Node(goal.value);
      route := BuildRoute(Parents(nodes), rank, goal.value);
      WalkOfTree(searched, source.value, NodeCosts(nodes), Parents(nodes), route, goal.value);
    }
  }
}
