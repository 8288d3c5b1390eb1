/**
 * `schule.RoutePlanner`: the school version of the route facade. Costs and parents are two
 * tables of the planner, rebuilt by every search; the queue is a local priority queue
 * ordered by the cost table, and there is no visited set: every polled location has its
 * edges scanned. With non-negative weights a polled location is never queued again, so each
 * location is still expanded at most once.
 */
module SchoolPlanner {
  import opened Wrappers
  import opened Costs
  import opened Paths
  import opened QueueContents
  import opened DijkstraCore
  import opened PriorityQueues
  import opened Relaxation
  import opened Algorithms
  import opened Graphs
  import opened Routes
  import opened Planner

  /**
   * One poll of the school search: the polled location is always one not expanded before
   * (the ghost `settled` set), so the expanded set grows by one.
   */
  method PollLocation(adj: Adj, ghost start: Key, q: SearchNodePQ,
                      cost0: map<Key, Cost>, parent0: map<Key, Key>, ghost settled0: set<Key>, ghost st0: Search)
    returns (cost: map<Key, Cost>, parent: map<Key, Key>, ghost settled: set<Key>, ghost st: Search)
    requires WellFormed(adj) && NonNegative(adj) && !q.IsEmpty() && settled0 <= adj.Keys
    requires NoDup(q.pq) && st0 == State(cost0, parent0, settled0, q.pq, st0.rank)
    requires Inv(adj, start, st0)
    modifies q
    ensures NoDup(q.pq) && st == State(cost, parent, settled, q.pq, st.rank)
    ensures Inv(adj, start, st)
    ensures settled <= adj.Keys && |adj.Keys - settled| < |adj.Keys - settled0|
  {
    ghost var pq := q.pq;
    var min := q.ExtractMin(cost0);
    var u := min.value;
    SettleStep(adj, start, st0, pq, u);
    assert adj.Keys - (settled0 + {u}) < adj.Keys - settled0;
    settled := settled0 + {u};
    st := Settle(st0, u);
    var trace;
    cost, parent, st, trace := ExpandVertex(adj, start, q, u, cost0, parent0, st, []);
    ExpansionDone(adj, start, st, u);
  }

  /**
   * `dijkstra()` of the school planner: fresh cost and parent tables, the start at cost 0 and
   * alone in the queue, then poll until the queue is empty.
   */
  method SchoolSearch(adj: Adj, start: Key) returns (cost: map<Key, Cost>, parent: map<Key, Key>, ghost rank: map<Key, nat>)
    requires WellFormed(adj) && NonNegative(adj) && start in adj
    ensures ShortestPathTree(adj, start, cost, parent)
    ensures Ranked(parent, rank)
  {
    var q := new SearchNodePQ();
    parent := map[];
    cost := map[start := Fin(0.0)];
    q.Insert(start);
    SeedStep(adj, start, cost);
    ghost var settled: set<Key> := {};
    ghost var st := State(cost, parent, settled, q.pq, map[start := 0]);
    while !q.IsEmpty()
      invariant NoDup(q.pq) && st == State(cost, parent, settled, q.pq, st.rank)
      invariant Inv(adj, start, st) && settled <= adj.Keys
      decreases |adj.Keys - settled|
    {
      cost, parent, settled, st := PollLocation(adj, start, q, cost, parent, settled, st);
    }
    Finished(adj, start, st);
    rank := st.rank;
  }

  class SchoolRoutePlanner<P> {
    const roadMap: Graph<P>
    var cost: map<Key, Cost>
    var parent: map<Key, Key>
    var startLocation: Option<Key>
    /** The adjacency the last search ran on, and the hop counts of its parent links. */
    ghost var searched: Adj
    ghost var rank: map<Key, nat>

    /** After a search, the cost and parent tables are a shortest-path tree from the start. */
    ghost predicate Valid()
      reads this
    {
      startLocation.Some? ==>
        && WellFormed(searched) && NonNegative(searched) && startLocation.value in searched
        && ShortestPathTree(searched, startLocation.value, cost, parent)
        && Ranked(parent, rank)
    }

    constructor (roadMap: Graph<P>)
      ensures Valid() && this.roadMap == roadMap && startLocation == None
    {
      this.roadMap := roadMap;
      cost, parent := map[], map[];
      startLocation := None;
    }

    /**
     * `cost(location)`: `getOrDefault(location, +infinity)`, the shortest distance from the
     * start. The tables exist only after a first search.
     */
    function Cost(location: Key): (c: Cost)
      reads this
      requires startLocation.Some?
      ensures location !in cost ==> c == Inf
      ensures Valid() && location in searched ==> IsShortestDistance(searched, startLocation.value, location, c)
    {
      CostOf(cost, location)
    }

    /** `dijkstra()`: new tables for the start location, holding its shortest-path tree. */
    method Dijkstra()
      requires startLocation.Some? && startLocation.value in roadMap.vertexByKey
      requires roadMap.Valid() && WellFormed(roadMap.adjacency) && NonNegative(roadMap.adjacency)
      modifies this
      ensures Valid() && searched == roadMap.adjacency && startLocation == old(startLocation)
      ensures ShortestPathTree(roadMap.adjacency, startLocation.value, cost, parent)
    {
      ghost var r;
      cost, parent, r := SchoolSearch(roadMap.adjacency, startLocation.value);
      searched, rank := roadMap.adjacency, r;
    }

    /** `buildRoute(goal)`: from the goal back along `parent`, each stop prepended. */
    method BuildRoute(goal: Key) returns (route: seq<Key>)
      requires Valid() && startLocation.Some?
      ensures ParentWalk(parent, route, goal)
      ensures goal in searched && Reachable(searched, startLocation.value, goal) ==>
        route[0] == startLocation.value &&
        exists p :: IsPath(searched, p, startLocation.value, goal) && Follows(p, route) && PathCost(p) == Cost(goal).km
      ensures !(goal in searched && Reachable(searched, startLocation.value, goal)) ==> route == [goal]
    {
      route := Routes.BuildRoute(parent, rank, goal);
      WalkOfTree(searched, startLocation.value, cost, parent, route, goal);
    }

    /**
     * `computeRoute(start, goal)`: empty when either is missing; the search reruns only for a
     * new start; the route is a shortest path to a reachable goal and `[goal]` otherwise.
     */
    method ComputeRoute(start: Option<Key>, goal: Option<Key>) returns (route: seq<Key>)
      requires Valid() && (start.Some? ==> start.value in roadMap.vertexByKey)
      requires roadMap.Valid() && WellFormed(roadMap.adjacency) && NonNegative(roadMap.adjacency)
      modifies this
      ensures Valid()
      ensures start.None? || goal.None? ==> route == [] && unchanged(this)
      ensures start == old(startLocation) ==> unchanged(this)
      ensures start.Some? && goal.Some? ==> startLocation == start && ParentWalk(parent, route, goal.value)
      ensures start.Some? && goal.Some? && start != old(startLocation) ==> searched == roadMap.adjacency
      ensures start.Some? && goal.Some? && goal.value in searched && Reachable(searched, start.value, goal.value) ==>
        route[0] == start.value &&
        exists p :: IsPath(searched, p, start.value, goal.value) && Follows(p, route) && PathCost(p) == Cost(goal.value).km
      ensures start.Some? && goal.Some? && !(goal.value in searched && Reachable(searched, start.value, goal.value)) ==>
        route == [goal.value]
    {
      if start.None? || goal.None? {
        return [];
      }
      if start != startLocation {
        startLocation := start;
        Dijkstra();
      }
      route := BuildRoute(goal.value);
    }

    /** `computeRoute(startName, goalName)`: names that are not vertex keys give the empty route. */
    method ComputeRouteByName(startName: Key, goalName: Key) returns (route: seq<Key>)
      requires Valid() && roadMap.Valid() && WellFormed(roadMap.adjacency) && NonNegative(roadMap.adjacency)
      modifies this
      ensures Valid()
      ensures startName !in roadMap.vertexByKey || goalName !in roadMap.vertexByKey ==> route == [] && unchanged(this)
      ensures startName in roadMap.vertexByKey && Some(startName) == old(startLocation) ==> unchanged(this)
      ensures startName in roadMap.vertexByKey && goalName in roadMap.vertexByKey ==>
        && startLocation == Some(startName)
        && ParentWalk(parent, route, goalName)
        && (Some(startName) != old(startLocation) ==> searched == roadMap.adjacency)
        && (goalName in searched && Reachable(searched, startName, goalName) ==>
              route[0] == startName &&
              exists p :: IsPath(searched, p, startName, goalName) && Follows(p, route) && PathCost(p) == Cost(goalName).km)
        && (!(goalName in searched && Reachable(searched, startName, goalName)) ==> route == [goalName])
    {
      var start := if startName in roadMap.vertexByKey then Some(startName) else None;
      var goal := if goalName in roadMap.vertexByKey then Some(goalName) else None;
      route := ComputeRoute(start, goal);
    }
  }
}
