/**
 * `model.RoadMap`: a graph of road-map points keyed by their ids, with the route query of
 * the planner built in. The map remembers the source of its last search and reuses the
 * vertices' parent links for every later query from the same source.
 */
module RoadMaps {
  import opened Wrappers
  import opened Costs
  import opened Paths
  import opened DijkstraCore
  import opened Graphs
  import opened Algorithms
  import opened Routes
  import opened Planner
  import opened Names
  import opened GeoCoords

  /** A road-map point: its id (the vertex key), the name of its location and its coordinates. */
  datatype Point = Point(id: Key, locationName: string, coord: GeoCoord)

  /** Why `createAndAddPoint` throws: invalid coordinates, or an id that is already a vertex. */
  datatype PointError = BadCoord(reason: CoordError) | DuplicateId(id: Key)

  function LocationName(p: Point): string
  {
    p.locationName
  }

  class RoadMap {
    const graph: Graph<Point>
    var currentSource: Option<Key>
    /** The adjacency of the last search, and the hop counts of its parent links. */
    ghost var searched: Adj
    ghost var rank: map<Key, nat>

    /**
     * Every point is stored under its own id with valid coordinates, every road joins two
     * points, and after a search the vertices' costs and parent links are a shortest-path
     * tree of the map as it was searched.
     */
    ghost predicate Valid()
      reads this, graph
    {
      && graph.Valid()
      && WellFormed(graph.adjacency)
      && (forall k | k in graph.vertexByKey :: graph.vertexByKey[k].id == k && InRange(graph.vertexByKey[k].coord))
      && (currentSource.Some? ==>
            && WellFormed(searched) && NonNegative(searched) && currentSource.value in searched
            && searched.Keys <= graph.vertexByKey.Keys
            && ShortestPathTree(searched, currentSource.value, graph.cost, graph.parent)
            && Ranked(graph.parent, rank))
    }

    constructor ()
      ensures Valid() && fresh(graph) && currentSource == None
      ensures graph.vertexByKey == map[] && graph.order == [] && graph.adjacency == map[]
    {
      graph := new Graph();
      currentSource := None;
    }

    /**
     * `createAndAddPoint(id, location, latitude, longitude)`: the coordinates are validated
     * first, then a point whose id is already taken is refused; on success the point is the
     * newest vertex, without roads.
     */
    method CreateAndAddPoint(id: Key, location: string, latitude: real, longitude: real)
      returns (r: Result<Point, PointError>)
      requires Valid()
      modifies graph
      ensures Valid()
      ensures MakeGeoCoord(latitude, longitude).Failure? ==>
        r == Failure(BadCoord(MakeGeoCoord(latitude, longitude).error)) && unchanged(graph)
      ensures MakeGeoCoord(latitude, longitude).Success? && id in old(graph.vertexByKey) ==>
        r == Failure(DuplicateId(id)) && unchanged(graph)
      ensures r.Success? <==> MakeGeoCoord(latitude, longitude).Success? && id !in old(graph.vertexByKey)
      ensures r.Success? ==>
        && r.value == Point(id, location, GeoCoord(latitude, longitude))
        && graph.vertexByKey == old(graph.vertexByKey)[id := r.value]
        && graph.order == old(graph.order) + [id]
        && graph.adjacency == old(graph.adjacency)[id := []]
    {
      var coord := MakeGeoCoord(latitude, longitude);
      if coord.Failure? {
        return Failure(BadCoord(coord.error));
      }
      var point := Point(id, location, coord.value);
      var ok := graph.AddVertex(id, point);
      if !ok {
        return Failure(DuplicateId(id));
      }
      if currentSource.Some? {
        assert id !in searched;
        TreeKeepsCosts(searched, currentSource.value, old(graph.cost), graph.cost, old(graph.parent));
        assert graph.parent == old(graph.parent);
      }
      r := Success(point);
    }

    /** `addEdge(either, other, cost)`: a road both ways between two points. */
    method AddEdge(either: Key, other: Key, cost: real)
      requires Valid() && either in graph.vertexByKey && other in graph.vertexByKey
      modifies graph`adjacency
      ensures Valid()
      ensures graph.adjacency == AddArc(AddArc(old(graph.adjacency), either, other, cost), other, either, cost)
    {
      graph.AddEdge(either, other, cost);
    }

    /** `pointsOrderedByLocationName()`: every point once, in name order (see `PointsInNameOrder`). */
    function PointsOrderedByLocationName(): (r: seq<Key>)
      reads this, graph
      requires Valid()
      ensures forall k :: k in r <==> k in graph.vertexByKey
      ensures multiset(r) == multiset(graph.order)
    {
      var r := SortByName(graph.order, graph.vertexByKey, LocationName);
      assert forall k :: k in r <==> k in multiset(graph.order);
      r
    }

    /** The points are listed in non-decreasing order of their location names. */
    lemma PointsInNameOrder()
      requires Valid()
      ensures SortedByName(PointsOrderedByLocationName(), graph.vertexByKey, LocationName)
    {
      SortByNameSorted(graph.order, graph.vertexByKey, LocationName);
    }

    /**
     * `findPoint(location)`: the first point in name order whose location is `location`;
     * `None` (null) when no point has that name (see `FindPointIsFirst`).
     */
    function FindPoint(location: string): (r: Option<Key>)
      reads this, graph
      requires Valid()
      ensures r.Some? ==> r.value in graph.vertexByKey && graph.vertexByKey[r.value].locationName == location
    {
      var sorted := PointsOrderedByLocationName();
      match FirstNamed(sorted, graph.vertexByKey, LocationName, location)
      case None => None
      case Some(i) => Some(sorted[i])
    }

    /**
     * `findPoint` fails exactly when no point has that location name, and of several points
     * with the name it picks the first in name order.
     */
    lemma FindPointIsFirst(location: string)
      requires Valid()
      ensures FindPoint(location).None? <==>
        forall k | k in graph.vertexByKey :: graph.vertexByKey[k].locationName != location
      ensures FindPoint(location).Some? ==> exists i | 0 <= i < |PointsOrderedByLocationName()| ::
        PointsOrderedByLocationName()[i] == FindPoint(location).value &&
        forall j | 0 <= j < i :: graph.vertexByKey[PointsOrderedByLocationName()[j]].locationName != location
    {
      var sorted := PointsOrderedByLocationName();
      FirstNamedIsFirst(sorted, graph.vertexByKey, LocationName, location);
      var r := FirstNamed(sorted, graph.vertexByKey, LocationName, location);
      if r.Some? {
        assert sorted[r.value] == FindPoint(location).value;
      } else {
        assert forall k | k in graph.vertexByKey :: exists i | 0 <= i < |sorted| :: sorted[i] == k;
      }
    }

    /** `locations()`: the location name of each point, one per point (see `LocationsInNameOrder`). */
    function Locations(): (names: seq<string>)
      reads this, graph
      requires Valid()
      ensures |names| == |graph.order|
      ensures forall i | 0 <= i < |names| ::
        exists k | k in graph.vertexByKey :: graph.vertexByKey[k].locationName == names[i]
    {
      var sorted := PointsOrderedByLocationName();
      assert |sorted| == |multiset(graph.order)| == |graph.order|;
      var table := graph.vertexByKey;
      var names := seq(|sorted|, i requires 0 <= i < |sorted| => table[sorted[i]].locationName);
      assert forall i | 0 <= i < |sorted| :: sorted[i] in table && names[i] == table[sorted[i]].locationName;
      names
    }

    /** The location names come in name order, and every point's name is among them. */
    lemma LocationsInNameOrder()
      requires Valid()
      ensures forall i, j | 0 <= i < j < |Locations()| :: !NameLess(Locations()[j], Locations()[i])
      ensures forall n :: n in Locations() <==> exists k | k in graph.vertexByKey :: graph.vertexByKey[k].locationName == n
    {
      var sorted := PointsOrderedByLocationName();
      PointsInNameOrder();
      var names := Locations();
      assert forall i | 0 <= i < |sorted| :: names[i] == LocationName(graph.vertexByKey[sorted[i]]);
      assert forall k | k in graph.vertexByKey :: exists i | 0 <= i < |sorted| :: sorted[i] == k;
    }

    /**
     * `computeRoute(source, goal)`: empty when either point is missing (null); otherwise the
     * search over the map reruns only for a new source, and the route is the parent walk back
     * from the goal: a shortest path from the source when the goal is reachable, `[goal]` when
     * it is not.
     */
    method ComputeRoute(source: Option<Key>, goal: Option<Key>) returns (route: seq<Key>)
      requires Valid() && (source.Some? ==> source.value in graph.vertexByKey)
      requires NonNegative(graph.adjacency)
      modifies this, graph`cost, graph`parent, graph`visited
      ensures Valid() && graph.adjacency == old(graph.adjacency) && graph.vertexByKey == old(graph.vertexByKey)
      ensures source.None? || goal.None? ==> route == [] && unchanged(this) && unchanged(graph)
      ensures source == old(currentSource) ==> unchanged(this) && unchanged(graph)
      ensures source.Some? && goal.Some? ==> currentSource == source
      ensures source.Some? && goal.Some? && source != old(currentSource) ==> searched == graph.adjacency
      ensures source.Some? && goal.Some? ==> ParentWalk(graph.parent, route, goal.value)
      ensures source.Some? && goal.Some? && goal.value in searched && Reachable(searched, source.value, goal.value) ==>
        route[0] == source.value &&
        exists p :: IsPath(searched, p, source.value, goal.value) && Follows(p, route) &&
          PathCost(p) == CostOf(graph.cost, goal.value).km
      ensures source.Some? && goal.Some? && !(goal.value in searched && Reachable(searched, source.value, goal.value)) ==>
        route == [goal.value]
    {
      if source.None? || goal.None? {
        return [];
      }
      if source != currentSource {
        currentSource := source;
        var r := ComputeShortestPathsFromSilently(graph, source.value);
        searched, rank := graph.adjacency, r;
      }
      route := BuildRoute(graph.parent, rank, goal.value);
      WalkOfTree(searched, source.value, graph.cost, graph.parent, route, goal.value);
    }

    /** `computeRoute(sourceLocation, goalLocation)`: the route between the points found by name. */
    method ComputeRouteByName(sourceLocation: string, goalLocation: string) returns (route: seq<Key>)
      requires Valid() && NonNegative(graph.adjacency)
      modifies this, graph`cost, graph`parent, graph`visited
      ensures Valid() && graph.adjacency == old(graph.adjacency) && graph.vertexByKey == old(graph.vertexByKey)
      ensures old(FindPoint(sourceLocation)).None? || old(FindPoint(goalLocation)).None? ==>
        route == [] && unchanged(this) && unchanged(graph)
      ensures old(FindPoint(sourceLocation)) == old(currentSource) ==> unchanged(this) && unchanged(graph)
      ensures var source, goal := old(FindPoint(sourceLocation)), old(FindPoint(goalLocation));
        source.Some? && goal.Some? ==>
          && currentSource == source
          && ParentWalk(graph.parent, route, goal.value)
          && (source != old(currentSource) ==> searched == graph.adjacency)
          && (goal.value in searched && Reachable(searched, source.value, goal.value) ==>
                route[0] == source.value &&
                exists p :: IsPath(searched, p, source.value, goal.value) && Follows(p, route) &&
                  PathCost(p) == CostOf(graph.cost, goal.value).km)
          && (!(goal.value in searched && Reachable(searched, source.value, goal.value)) ==> route == [goal.value])
    {
      var source := FindPoint(sourceLocation);
      var goal := FindPoint(goalLocation);
      route := ComputeRoute(source, goal);
    }
  }
}
