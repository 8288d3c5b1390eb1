/**
 * `graph.search.ShortestPathFinder`: every run builds a node for each vertex of the graph and
 * then runs the same loop as `Algorithms.computeShortestPathsFrom` on those nodes (visited
 * set on extraction; on an improvement the node leaves the queue before its cost changes).
 * Each improvement is passed to the `onNewPathFound` callback; the finder records those
 * calls of its last run.
 */
module ShortestPaths {
  import opened Wrappers
  import opened Costs
  import opened Paths
  import opened DijkstraCore
  import opened Relaxation
  import opened Algorithms
  import opened Routes
  import opened Planner
  import opened SearchNodes

  /**
   * The node table of a run from `source`: a node for every vertex, all at +infinity but the
   * source at 0 before the search; afterwards it carries the shortest-path tree, and exactly
   * the reachable nodes are visited.
   */
  method SearchAllNodes(adj: Adj, source: Key)
    returns (nodes: map<Key, SearchNode>, ghost rank: map<Key, nat>, trace: seq<PathFound>)
    requires WellFormed(adj) && NonNegative(adj) && source in adj
    ensures nodes.Keys == adj.Keys
    ensures ShortestPathTree(adj, source, NodeCosts(nodes), Parents(nodes)) && Ranked(Parents(nodes), rank)
    ensures forall v | v in nodes :: nodes[v].visited <==> Reachable(adj, source, v)
    ensures TraceSound(adj, source, trace)
  {
    var d0 := (map k | k in adj :: Inf)[source := Fin(0.0)];
    var d, parent, visited;
    d, parent, visited, rank, trace := Algorithms.Search(adj, source, d0);
    NodeTableKeepsTree(adj, source, adj.Keys, d, parent, visited);
    nodes := NodeTable(adj.Keys, d, parent, visited);
    assert forall v | v in nodes :: nodes[v] == NodeOf(d, parent, visited, v);
  }

  class ShortestPathFinder {
    var nodes: map<Key, SearchNode>
    var currentSource: Option<Key>
    /** The calls made to `onNewPathFound` during the last run. */
    var reported: seq<PathFound>
    /** The adjacency and source of the last run, and the hop counts of its parent links. */
    ghost var searched: Adj
    ghost var treeSource: Option<Key>
    ghost var rank: map<Key, nat>
    /** How many searches this finder has run. */
    ghost var runs: nat

    /** The node table is the shortest-path tree of the last run, and the reports were real paths. */
    ghost predicate TreeValid()
      reads this
    {
      treeSource.Some? ==>
        && WellFormed(searched) && NonNegative(searched) && treeSource.value in searched
        && nodes.Keys == searched.Keys
        && ShortestPathTree(searched, treeSource.value, NodeCosts(nodes), Parents(nodes))
        && Ranked(Parents(nodes), rank)
        && TraceSound(searched, treeSource.value, reported)
    }

    /** ... and it belongs to the cached source. */
    ghost predicate Valid()
      reads this
    {
      TreeValid() && (currentSource.Some? ==> treeSource == currentSource)
    }

    constructor ()
      ensures Valid() && nodes == map[] && currentSource == None && reported == [] && runs == 0
    {
      runs := 0;
      nodes := map[];
      currentSource := None;
      reported := [];
      treeSource := None;
    }

    /**
     * `node(v)`: the node of `v`, or `None` (null) for a key without one. The table exists only
     * once a search has run (before that the source dereferences null). After a run every
     * vertex has a node holding its shortest distance from the source.
     */
    function Node(v: Key): (n: Option<SearchNode>)
      requires treeSource.Some?
      reads this
      ensures n.Some? <==> v in nodes
      ensures TreeValid() && v in searched ==>
        n.Some? && IsShortestDistance(searched, treeSource.value, v, n.value.cost)
    {
      if v in nodes then Some(nodes[v]) else None
    }

    /** `computeShortestPathsFrom(g, source)`: a fresh node per vertex, then the search. */
    method ComputeShortestPathsFrom(adj: Adj, source: Key)
      requires WellFormed(adj) && NonNegative(adj) && source in adj
      modifies this`nodes, this`reported, this`searched, this`treeSource, this`rank, this`runs
      ensures TreeValid() && searched == adj && treeSource == Some(source) && runs == old(runs) + 1
      ensures forall v | v in nodes :: nodes[v].visited <==> Reachable(adj, source, v)
    {
      var table, trace;
      ghost var r;
      table, r, trace := SearchAllNodes(adj, source);
      nodes, reported := table, trace;
      searched, treeSource, rank := adj, Some(source), r;
      runs := runs + 1;
    }

    /**
     * `computeRoute(g, source, goal)`: empty when either is missing or when the goal has no
     * node; the search reruns only for a new source; otherwise the parent walk from the goal,
     * a shortest path when the goal is reachable and `[goal]` when it is not.
     */
    method ComputeRoute(adj: Adj, source: Option<Key>, goal: Option<Key>) returns (route: seq<Key>)
      requires Valid() && WellFormed(adj) && NonNegative(adj) && (source.Some? ==> source.value in adj)
      modifies this
      ensures Valid()
      ensures source.None? || goal.None? ==> route == [] && unchanged(this)
      ensures source == old(currentSource) ==> unchanged(this)
      ensures source.Some? && goal.Some? ==> currentSource == source && treeSource == source
      ensures source.Some? && goal.Some? && source != old(currentSource) ==> searched == adj && runs == old(runs) + 1
      ensures source.Some? && goal.Some? && goal.value !in nodes ==> route == []
      ensures source.Some? && goal.Some? && goal.value in nodes ==> ParentWalk(Parents(nodes), route, goal.value)
      ensures source.Some? && goal.Some? && goal.value in searched && Reachable(searched, source.value, goal.value) ==>
        route[0] == source.value &&
        exists p :: IsPath(searched, p, source.value, goal.value) && Follows(p, route) &&
          PathCost(p) == nodes[goal.value].cost.km
      ensures source.Some? && goal.Some? && goal.value in searched && !Reachable(searched, source.value, goal.value) ==>
        route == [goal.value]
    {
      if source.None? || goal.None? {
        return [];
      }
      if source != currentSource {
        currentSource := source;
        ComputeShortestPathsFrom(adj, source.value);
      }
      if goal.value !in nodes {
        return [];
      }
      route := BuildRoute(Parents(nodes), rank, goal.value);
      WalkOfTree(searched, source.value, NodeCosts(nodes), Parents(nodes), route, goal.value);
    }
  }
}
