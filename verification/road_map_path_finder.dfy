/**
 * `model.RoadMapPathFinder`: a shortest-path finder over a road map with its own cached
 * source, a tracing callback that describes each new path in terms of location names, and a
 * report of the routes between every pair of locations.
 */
module RoadMapPaths {
  import opened Wrappers
  import opened Costs
  import opened Paths
  import opened DijkstraCore
  import opened Routes
  import opened Planner
  import opened SearchNodes
  import opened ShortestPaths
  import opened RoadMaps

  /** The two trace messages: the first path to a location, or a shorter one replacing the old. */
  datatype TraceLine =
    | FirstPath(to: string, cost: real, via: string)
    | ShorterPath(to: string, cost: real, via: string, oldCost: real, oldVia: string)

  /**
   * `traceNewPathFound(edge, newCost)`, called before the target's node is updated: a first
   * path when the target's node still costs +infinity, otherwise a shorter path naming the
   * old cost and old parent. `None` stands for the NullPointerException of a missing node or,
   * for a finite cost, a missing parent.
   */
  function TraceNewPathFound(points: map<Key, Point>, nodes: map<Key, SearchNode>, edge: Edge, newCost: real)
    : (r: Option<TraceLine>)
    requires edge.from in points && edge.to in points
    ensures r.Some? <==>
      edge.to in nodes &&
      (nodes[edge.to].cost.Fin? ==> nodes[edge.to].parent.Some? && nodes[edge.to].parent.value in points)
    ensures r.Some? ==> (r.value.FirstPath? <==> nodes[edge.to].cost == Inf)
    ensures r.Some? ==> r.value.to == points[edge.to].locationName && r.value.via == points[edge.from].locationName
    ensures r.Some? ==> r.value.cost == newCost
  {
    if edge.to !in nodes then None
    else
      var node := nodes[edge.to];
      match node.cost
      case Inf => Some(FirstPath(points[edge.to].locationName, newCost, points[edge.from].locationName))
      case Fin(before) =>
        if node.parent.None? || node.parent.value !in points then None
        else Some(ShorterPath(points[edge.to].locationName, newCost, points[edge.from].locationName,
                              before, points[node.parent.value].locationName))
  }

  /**
   * Wherever the search calls the callback (a strict improvement along the `i`-th edge of the
   * expanded vertex `u`) the trace never fails: a target that already has a finite cost is
   * not the source, so it has a parent, and the message reports its current cost and parent.
   */
  lemma TraceSafeDuringSearch(points: map<Key, Point>, g: Adj, s: Key, st: Search, u: Key, i: nat)
    requires WellFormed(g) && NonNegative(g) && g.Keys <= points.Keys
    requires Expanding(g, s, st, u, i) && i < |g[u]|
    requires Below(Plus(CostOf(st.d, u), g[u][i].cost), CostOf(st.d, g[u][i].to))
    ensures
      var nodes := NodeTable(g.Keys, st.d, st.parent, st.settled);
      var v := g[u][i].to;
      var r := TraceNewPathFound(points, nodes, g[u][i], CostOf(st.d, u).km + g[u][i].cost);
      && r.Some?
      && (r.value.FirstPath? <==> CostOf(st.d, v) == Inf)
      && (r.value.ShorterPath? ==>
            v in st.parent && r.value.oldCost == CostOf(st.d, v).km &&
            r.value.oldVia == points[st.parent[v]].locationName)
  {
    var e := g[u][i];
    assert e in g[u];
    var v := e.to;
    if CostOf(st.d, v).Fin? {
      assert v in st.parent;
      assert st.parent[v] in st.settled;
    }
  }

  /** One printed stop of a route: the point, its location name and its cost from the start. */
  datatype Stop = Stop(point: Key, location: string, cost: Cost)

  /** One printed line `<start> nach <goal>: [<stop> <cost> km, ...]`. */
  datatype RouteLine = RouteLine(start: string, goal: string, stops: seq<Stop>)

  class RoadMapPathFinder {
    const finder: ShortestPathFinder
    var currentSource: Option<Key>

    /**
     * The finder's nodes are the shortest-path tree of its last search, which ran from this
     * object's cached source. The finder's own cached source is never set.
     */
    ghost predicate Valid()
      reads this, finder
    {
      && finder.TreeValid() && finder.currentSource == None
      && (currentSource.Some? ==> finder.treeSource == currentSource)
    }

    constructor ()
      ensures Valid() && currentSource == None && fresh(finder) && finder.runs == 0
    {
      finder := new ShortestPathFinder();
      currentSource := None;
    }

    /**
     * `computeRoute(map, source, goal)`: empty when either point is missing (null) or the goal
     * has no node; the search reruns only for a new source; otherwise the parent walk over the
     * nodes: a shortest path through the map when the goal is reachable, `[goal]` when not.
     */
    method ComputeRoute(rm: RoadMap, source: Option<Key>, goal: Option<Key>) returns (route: seq<Key>)
      requires Valid() && rm.Valid() && NonNegative(rm.graph.adjacency)
      requires source.Some? ==> source.value in rm.graph.vertexByKey
      modifies this, finder
      ensures Valid()
      ensures source.None? || goal.None? ==> route == [] && unchanged(this) && unchanged(finder)
      ensures source == old(currentSource) ==> unchanged(this) && unchanged(finder)
      ensures source.Some? && goal.Some? ==> currentSource == source
      ensures source.Some? && goal.Some? && source != old(currentSource) ==>
        finder.searched == rm.graph.adjacency && finder.runs == old(finder.runs) + 1
      ensures source.Some? && goal.Some? && goal.value !in finder.nodes ==> route == []
      ensures source.Some? && goal.Some? && goal.value in finder.nodes ==>
        ParentWalk(Parents(finder.nodes), route, goal.value) && forall k | k in route :: k in finder.nodes
      ensures source.Some? && goal.Some? && goal.value in finder.searched &&
              Reachable(finder.searched, source.value, goal.value) ==>
        route[0] == source.value &&
        exists p :: IsPath(finder.searched, p, source.value, goal.value) && Follows(p, route) &&
          PathCost(p) == finder.nodes[goal.value].cost.km
      ensures source.Some? && goal.Some? && goal.value in finder.searched &&
              !Reachable(finder.searched, source.value, goal.value) ==>
        route == [goal.value]
    {
      if source.None? || goal.None? {
        return [];
      }
      if source != currentSource {
        currentSource := source;
        finder.ComputeShortestPathsFrom(rm.graph.adjacency, source.value);
      }
      var goalNode := finder.Node(goal.value);
      if goalNode.None? {
        return [];
      }
      route := BuildRoute(Parents(finder.nodes), finder.rank, goal.value);
      WalkOfTree(finder.searched, source.value, NodeCosts(finder.nodes), Parents(finder.nodes), route, goal.value);
      WalkStaysInTable(finder.searched, source.value, finder.nodes, route, goal.value);
    }

    /**
     * `computeRoute(map, sourceLocation, goalLocation)`: `ComputeRoute` on the points found by
     * name, with every promise of `ComputeRoute` carried over to those points.
     */
    method ComputeRouteByName(rm: RoadMap, sourceLocation: string, goalLocation: string) returns (route: seq<Key>)
      requires Valid() && rm.Valid() && NonNegative(rm.graph.adjacency)
      modifies this, finder
      ensures Valid()
      ensures rm.FindPoint(sourceLocation).None? || rm.FindPoint(goalLocation).None? ==>
        route == [] && unchanged(this) && unchanged(finder)
      ensures rm.FindPoint(sourceLocation) == old(currentSource) ==> unchanged(this) && unchanged(finder)
      ensures var source, goal := rm.FindPoint(sourceLocation), rm.FindPoint(goalLocation);
        source.Some? && goal.Some? ==>
          && currentSource == source
          && (source != old(currentSource) ==>
                finder.searched == rm.graph.adjacency && finder.runs == old(finder.runs) + 1)
          && (goal.value !in finder.nodes ==> route == [])
          && (goal.value in finder.nodes ==>
                ParentWalk(Parents(finder.nodes), route, goal.value) && forall k | k in route :: k in finder.nodes)
          && (goal.value in finder.searched && Reachable(finder.searched, source.value, goal.value) ==>
                route[0] == source.value &&
                exists p :: IsPath(finder.searched, p, source.value, goal.value) && Follows(p, route) &&
                  PathCost(p) == finder.nodes[goal.value].cost.km)
          && (goal.value in finder.searched && !Reachable(finder.searched, source.value, goal.value) ==>
                route == [goal.value])
    {
      route := ComputeRoute(rm, rm.FindPoint(sourceLocation), rm.FindPoint(goalLocation));
    }

    /**
     * One line of `printAllRoutes`: the route from the point `src`, found by the name `start`,
     * to the point `dst`, found by the name `goal`, each stop with its cost from `src`. The
     * search runs only when `src` is a new source.
     */
    method PrintRoute(rm: RoadMap, start: string, goal: string, src: Key, dst: Key) returns (line: RouteLine)
      requires Valid() && rm.Valid() && NonNegative(rm.graph.adjacency)
      requires currentSource.Some? ==> finder.searched == rm.graph.adjacency
      requires src in rm.graph.vertexByKey && dst in rm.graph.vertexByKey
      modifies this, finder
      ensures Valid() && finder.searched == rm.graph.adjacency && currentSource == Some(src)
      ensures finder.runs == if old(currentSource) == Some(src) then old(finder.runs) else old(finder.runs) + 1
      ensures line.start == start && line.goal == goal
      ensures RouteFromStart(rm.graph.vertexByKey, rm.graph.adjacency, src, line.stops)
    {
      var route := ComputeRoute(rm, Some(src), Some(dst));
      var stops := StopsOf(rm, route);
      line := RouteLine(start, goal, stops);
    }

    /**
     * The lines `printAllRoutes` prints for one start location, one per goal location: each
     * stop with its cost from the start. The search runs at most once.
     */
    method RoutesFrom(rm: RoadMap, start: string, src: Key, goals: seq<string>, dsts: seq<Key>)
      returns (lines: seq<RouteLine>)
      requires Valid() && rm.Valid() && NonNegative(rm.graph.adjacency)
      requires currentSource.Some? ==> finder.searched == rm.graph.adjacency
      requires src in rm.graph.vertexByKey && |dsts| == |goals|
      requires forall d | d in dsts :: d in rm.graph.vertexByKey
      modifies this, finder
      ensures Valid() && (currentSource.Some? ==> finder.searched == rm.graph.adjacency)
      ensures finder.runs <= old(finder.runs) + 1
      ensures |lines| == |goals|
      ensures forall j | 0 <= j < |lines| :: lines[j].start == start
      ensures forall j | 0 <= j < |lines| :: lines[j].goal == goals[j]
      ensures forall j | 0 <= j < |lines| :: RouteFromStart(rm.graph.vertexByKey, rm.graph.adjacency, src, lines[j].stops)
    {
      lines := [];
      var j := 0;
      ghost var runs0 := finder.runs;
      ghost var pts, adj := rm.graph.vertexByKey, rm.graph.adjacency;
      while j < |goals|
        invariant j <= |goals| && |lines| == j
        invariant Valid() && (currentSource.Some? ==> finder.searched == rm.graph.adjacency)
        invariant j > 0 ==> currentSource == Some(src)
        invariant if j > 0 then finder.runs <= runs0 + 1 else finder.runs == runs0
        invariant forall k | 0 <= k < j :: lines[k].start == start && lines[k].goal == goals[k]
        invariant forall k | 0 <= k < j :: RouteFromStart(pts, adj, src, lines[k].stops)
      {
        var line := PrintRoute(rm, start, goals[j], src, dsts[j]);
        LineAppended(lines, line, start, goals, pts, adj, src);
        lines := lines + [line];
        j := j + 1;
      }
    }

    /** Proof helper: one more line for `start` keeps the lines of `RoutesFrom` as it promises them. */
    static lemma LineAppended(lines: seq<RouteLine>, line: RouteLine, start: string, goals: seq<string>,
                              pts: map<Key, Point>, adj: Adj, src: Key)
      requires |lines| < |goals|
      requires forall k | 0 <= k < |lines| :: lines[k].start == start && lines[k].goal == goals[k]
      requires forall k | 0 <= k < |lines| :: RouteFromStart(pts, adj, src, lines[k].stops)
      requires line.start == start && line.goal == goals[|lines|] && RouteFromStart(pts, adj, src, line.stops)
      ensures forall k | 0 <= k < |lines| + 1 :: (lines + [line])[k].start == start && (lines + [line])[k].goal == goals[k]
      ensures forall k | 0 <= k < |lines| + 1 :: RouteFromStart(pts, adj, src, (lines + [line])[k].stops)
    {
    }

    /** The stops of a route, as `printAllRoutes` formats them: location name and node cost. */
    function StopsOf(rm: RoadMap, route: seq<Key>): (stops: seq<Stop>)
      reads this, finder, rm, rm.graph
      requires Valid() && rm.Valid()
      requires currentSource.Some? && finder.searched == rm.graph.adjacency
      requires forall k | k in route :: k in finder.nodes
      ensures RouteFromStart(rm.graph.vertexByKey, rm.graph.adjacency, currentSource.value, stops)
      ensures |stops| == |route| && forall m | 0 <= m < |route| :: stops[m].point == route[m]
    {
      var table, nodes := rm.graph.vertexByKey, finder.nodes;
      assert forall k | k in route :: k in table;
      seq(|route|, m requires 0 <= m < |route| => Stop(route[m], table[route[m]].locationName, nodes[route[m]].cost))
    }

    /**
     * `printAllRoutes(map, printer)`: for every start location and every goal location, in
     * name order, the route between the points found by those names, with the cost of each
     * stop from the start. Each start location costs at most one search.
     */
    method PrintAllRoutes(rm: RoadMap) returns (lines: seq<seq<RouteLine>>)
      requires Valid() && rm.Valid() && NonNegative(rm.graph.adjacency)
      requires currentSource.Some? ==> finder.searched == rm.graph.adjacency
      modifies this, finder
      ensures Valid()
      ensures |lines| == |rm.Locations()|
      ensures finder.runs <= old(finder.runs) + |rm.Locations()|
      ensures forall i | 0 <= i < |lines| :: |lines[i]| == |rm.Locations()|
      ensures forall i, j | 0 <= i < |lines| && 0 <= j < |lines[i]| :: lines[i][j].start == rm.Locations()[i]
      ensures forall i, j | 0 <= i < |lines| && 0 <= j < |lines[i]| :: lines[i][j].goal == rm.Locations()[j]
      ensures forall i, j | 0 <= i < |lines| && 0 <= j < |lines[i]| ::
        rm.FindPoint(rm.Locations()[i]).Some? &&
        RouteFromStart(rm.graph.vertexByKey, rm.graph.adjacency, rm.FindPoint(rm.Locations()[i]).value, lines[i][j].stops)
    {
      var names := rm.Locations();
      forall i | 0 <= i < |names| ensures rm.FindPoint(names[i]).Some? {
        rm.FindPointIsFirst(names[i]);
      }
      var points := FindAll(rm, names);
      lines := AllRoutes(rm, names, points);
    }

    /** The loop of `printAllRoutes` over the start locations `names`, found as the points `points`. */
    method AllRoutes(rm: RoadMap, names: seq<string>, points: seq<Key>) returns (lines: seq<seq<RouteLine>>)
      requires Valid() && rm.Valid() && NonNegative(rm.graph.adjacency)
      requires currentSource.Some? ==> finder.searched == rm.graph.adjacency
      requires |points| == |names| && forall p | p in points :: p in rm.graph.vertexByKey
      modifies this, finder
      ensures Valid()
      ensures |lines| == |names|
      ensures finder.runs <= old(finder.runs) + |names|
      ensures forall a | 0 <= a < |lines| :: |lines[a]| == |names|
      ensures forall a, j | 0 <= a < |lines| && 0 <= j < |names| :: lines[a][j].start == names[a]
      ensures forall a, j | 0 <= a < |lines| && 0 <= j < |names| :: lines[a][j].goal == names[j]
      ensures forall a, j | 0 <= a < |lines| && 0 <= j < |names| :: RouteFromStart(rm.graph.vertexByKey, rm.graph.adjacency, points[a], lines[a][j].stops)
    {
      lines := [];
      var i := 0;
      ghost var pts, adj := rm.graph.vertexByKey, rm.graph.adjacency;
      while i < |names|
        invariant i <= |names| && |lines| == i
        invariant Valid() && (currentSource.Some? ==> finder.searched == rm.graph.adjacency)
        invariant finder.runs <= old(finder.runs) + i
        invariant forall a | 0 <= a < i :: |lines[a]| == |names|
        invariant forall a, j | 0 <= a < i && 0 <= j < |names| :: lines[a][j].start == names[a]
        invariant forall a, j | 0 <= a < i && 0 <= j < |names| :: lines[a][j].goal == names[j]
        invariant forall a, j | 0 <= a < i && 0 <= j < |names| :: RouteFromStart(pts, adj, points[a], lines[a][j].stops)
      {
        var block := RoutesFrom(rm, names[i], points[i], names, points);
        lines := lines + [block];
        assert lines[i] == block;
        i := i + 1;
      }
    }
  }

  /** `findPoint` applied to names that are all found. */
  function FindAll(rm: RoadMap, names: seq<string>): (points: seq<Key>)
    reads rm, rm.graph
    requires rm.Valid()
    requires forall i | 0 <= i < |names| :: rm.FindPoint(names[i]).Some?
    ensures |points| == |names|
    ensures forall i | 0 <= i < |names| :: rm.FindPoint(names[i]) == Some(points[i])
    ensures forall p | p in points :: p in rm.graph.vertexByKey
  {
    if names == [] then []
    else
      assert forall i | 1 <= i < |names| :: names[1..][i - 1] == names[i];
      [rm.FindPoint(names[0]).value] + FindAll(rm, names[1..])
  }

  /**
   * Every stop is a point of the map whose printed cost is its shortest distance from the
   * start point `s`, in the map as it is now.
   */
  ghost predicate RouteFromStart(points: map<Key, Point>, g: Adj, s: Key, stops: seq<Stop>)
  {
    forall m | 0 <= m < |stops| ::
      && stops[m].point in points
      && stops[m].location == points[stops[m].point].locationName
      && IsShortestDistance(g, s, stops[m].point, stops[m].cost)
  }

  /** A parent walk over a node table read off a shortest-path tree stays inside the table. */
  lemma WalkStaysInTable(g: Adj, s: Key, nodes: map<Key, SearchNode>, route: seq<Key>, goal: Key)
    requires ShortestPathTree(g, s, NodeCosts(nodes), Parents(nodes)) && nodes.Keys == g.Keys
    requires ParentWalk(Parents(nodes), route, goal) && goal in nodes
    ensures forall k | k in route :: k in nodes
  {
    var parent := Parents(nodes);
    forall k | k in route ensures k in nodes {
      var m :| 0 <= m < |route| && route[m] == k;
      if m + 1 < |route| {
        assert route[m + 1] in parent && parent[route[m + 1]] == k;
        assert TreeEdge(g, NodeCosts(nodes), parent[route[m + 1]], route[m + 1]);
      }
    }
  }
}
