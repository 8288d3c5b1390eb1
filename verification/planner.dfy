/**
 * `model.RoutePlanner`: the route facade over a road map whose vertices carry their parent
 * links. The planner keeps the `MinVertexPQ` of its last search, whose cost table is the
 * cost of every location, and the start location of that search, so that a query from the
 * same start reuses the tree.
 */
module Planner {
  import opened Wrappers
  import opened Costs
  import opened Paths
  import opened DijkstraCore
  import opened PriorityQueues
  import opened VertexSearch
  import opened Graphs
  import opened Routes

  /** Only a reachable location of the graph has a parent link. */
  lemma ParentedIsReachable(g: Adj, s: Key, d: map<Key, Cost>, parent: map<Key, Key>, t: Key)
    requires ShortestPathTree(g, s, d, parent)
    ensures t in parent ==> t in g && Reachable(g, s, t)
  {
    if t in parent {
      assert TreeEdge(g, d, parent[t], t);
      assert IsShortestDistance(g, s, t, CostOf(d, t));
    }
  }

  /**
   * The parent walk of a finished search: from a reachable goal it is a shortest path from the
   * start, and from any other goal it is the goal alone.
   */
  lemma WalkOfTree(g: Adj, s: Key, d: map<Key, Cost>, parent: map<Key, Key>, route: seq<Key>, goal: Key)
    requires WellFormed(g) && NonNegative(g) && s in g && ShortestPathTree(g, s, d, parent)
    requires ParentWalk(parent, route, goal)
    ensures goal in g && Reachable(g, s, goal) ==>
      route[0] == s && exists p :: IsPath(g, p, s, goal) && Follows(p, route) && PathCost(p) == CostOf(d, goal).km
    ensures !(goal in g && Reachable(g, s, goal)) ==> route == [goal]
  {
    if goal in g && Reachable(g, s, goal) {
      RouteIsShortestPath(g, s, d, parent, route, goal);
    } else {
      ParentedIsReachable(g, s, d, parent, goal);
      UnreachedGoalRoute(parent, route, goal);
    }
  }

  class RoutePlanner<P> {
    const roadMap: Graph<P>
    var q: MinVertexPQ
    var startLocation: Option<Key>
    /** The adjacency the last search ran on, and the hop counts of its parent links. */
    ghost var searched: Adj
    ghost var rank: map<Key, nat>

    /**
     * The queue holds each location at most once; after a search, the queue's cost table and
     * the road map's parent links are a shortest-path tree from the start location.
     */
    ghost predicate Valid()
      reads this, q, roadMap
    {
      && q.Valid() && roadMap.Valid()
      && (startLocation.Some? ==>
            && WellFormed(searched) && NonNegative(searched) && startLocation.value in searched
            && ShortestPathTree(searched, startLocation.value, q.vertexCost, roadMap.parent)
            && Ranked(roadMap.parent, rank))
    }

    constructor (roadMap: Graph<P>)
      requires roadMap.Valid()
      ensures Valid() && this.roadMap == roadMap && startLocation == None && q.vertexCost == map[]
    {
      this.roadMap := roadMap;
      q := new MinVertexPQ();
      startLocation := None;
    }

    /** `cost(loc)`: after a search, the shortest distance from the start (+infinity when unreachable). */
    function Cost(loc: Key): (c: Cost)
      reads this, q, roadMap
      ensures Valid() && startLocation.Some? && loc in searched ==> IsShortestDistance(searched, startLocation.value, loc, c)
      ensures loc !in q.vertexCost ==> c == Inf
    {
      q.Cost(loc)
    }

    /**
     * `dijkstra()`: clears every parent link, starts a fresh queue with the start location at
     * cost 0 and runs the search; afterwards the queue's costs and the parent links are a
     * shortest-path tree of the road map from the start.
     */
    method Dijkstra()
      requires q.Valid() && roadMap.Valid()
      requires startLocation.Some? && startLocation.value in roadMap.vertexByKey
      requires WellFormed(roadMap.adjacency) && NonNegative(roadMap.adjacency)
      modifies this, roadMap`parent
      ensures Valid() && searched == roadMap.adjacency && fresh(q)
      ensures startLocation == old(startLocation) && roadMap.adjacency == old(roadMap.adjacency)
      ensures ShortestPathTree(roadMap.adjacency, startLocation.value, q.vertexCost, roadMap.parent)
    {
      roadMap.parent := map[];
      q := new MinVertexPQ();
      var parent, visited, r := MinVertexSearch(roadMap.adjacency, startLocation.value, q);
      roadMap.parent := parent;
      searched, rank := roadMap.adjacency, r;
    }

    /** `buildRoute(goal)`: from the goal back along the parent links, each stop prepended. */
    method BuildRoute(goal: Key) returns (route: seq<Key>)
      requires Valid() && startLocation.Some?
      ensures ParentWalk(roadMap.parent, route, goal)
      ensures goal in searched && Reachable(searched, startLocation.value, goal) ==>
        route[0] == startLocation.value &&
        exists p :: IsPath(searched, p, startLocation.value, goal) && Follows(p, route) && PathCost(p) == Cost(goal).km
      ensures !(goal in searched && Reachable(searched, startLocation.value, goal)) ==> route == [goal]
    {
      route := Routes.BuildRoute(roadMap.parent, rank, goal);
      WalkOfTree(searched, startLocation.value, q.vertexCost, roadMap.parent, route, goal);
    }

    /**
     * `computeRoute(start, goal)`: the empty route when either is missing (null); otherwise the
     * search reruns only when `start` differs from the last start, and the route is the parent
     * walk to the goal: a shortest path from `start` when the goal is reachable, `[goal]` when
     * it is not.
     */
    method ComputeRoute(start: Option<Key>, goal: Option<Key>) returns (route: seq<Key>)
      requires Valid() && (start.Some? ==> start.value in roadMap.vertexByKey)
      requires WellFormed(roadMap.adjacency) && NonNegative(roadMap.adjacency)
      modifies this, roadMap`parent
      ensures Valid() && roadMap.adjacency == old(roadMap.adjacency)
      ensures start.None? || goal.None? ==> route == [] && unchanged(this) && unchanged(roadMap)
      ensures start.Some? && goal.Some? ==> startLocation == start
      ensures start.Some? && goal.Some? && start != old(startLocation) ==> searched == roadMap.adjacency
      ensures start == old(startLocation) ==> unchanged(this) && unchanged(roadMap)
      ensures start.Some? && goal.Some? ==> ParentWalk(roadMap.parent, route, goal.value)
      ensures start.Some? && goal.Some? && goal.value in searched && Reachable(searched, start.value, goal.value) ==>
        route[0] == start.value &&
        exists p :: IsPath(searched, p, start.value, goal.value) && Follows(p, route) && PathCost(p) == Cost(goal.value).km
      ensures start.Some? && goal.Some? && !(goal.value in searched && Reachable(searched, start.value, goal.value)) ==>
        route == [goal.value]
    {
      if start.None? || goal.None? {
        return [];
      }
      if start != startLocation {
        startLocation := start;
        Dijkstra();
      }
      route := BuildRoute(goal.value);
    }

    /** `computeRoute(startName, goalName)`: names that are not vertex keys give the empty route. */
    method ComputeRouteByName(startName: Key, goalName: Key) returns (route: seq<Key>)
      requires Valid() && WellFormed(roadMap.adjacency) && NonNegative(roadMap.adjacency)
      modifies this, roadMap`parent
      ensures Valid() && roadMap.adjacency == old(roadMap.adjacency)
      ensures startName !in roadMap.vertexByKey || goalName !in roadMap.vertexByKey ==>
        route == [] && unchanged(this) && unchanged(roadMap)
      ensures startName in roadMap.vertexByKey && Some(startName) == old(startLocation) ==>
        unchanged(this) && unchanged(roadMap)
      ensures startName in roadMap.vertexByKey && goalName in roadMap.vertexByKey ==>
        && startLocation == Some(startName)
        && ParentWalk(roadMap.parent, route, goalName)
        && (Some(startName) != old(startLocation) ==> searched == roadMap.adjacency)
        && (goalName in searched && Reachable(searched, startName, goalName) ==>
              route[0] == startName &&
              exists p :: IsPath(searched, p, startName, goalName) && Follows(p, route) && PathCost(p) == Cost(goalName).km)
        && (!(goalName in searched && Reachable(searched, startName, goalName)) ==> route == [goalName])
    {
      var start := if startName in roadMap.vertexByKey then Some(startName) else None;
      var goal := if goalName in roadMap.vertexByKey then Some(goalName) else None;
      route := ComputeRoute(start, goal);
    }
  }
}
