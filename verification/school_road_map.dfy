/**
 * The school version's `RoadMap`: a graph of locations keyed by their names. A location is
 * created once per name; asking again for a known name returns the stored location.
 */
module SchoolRoadMaps {
  import opened Costs
  import opened Paths
  import opened Graphs
  import opened QueueContents
  import opened Names

  /** A location: its name (the vertex key) and its coordinates, not validated. */
  datatype Location = Location(name: string, latitude: real, longitude: real)

  function NameOf(l: Location): string
  {
    l.name
  }

  class SchoolRoadMap {
    const graph: Graph<Location>

    /** Every location is stored under its own name and every road joins two locations. */
    ghost predicate Valid()
      reads this, graph
    {
      && graph.Valid()
      && WellFormed(graph.adjacency)
      && forall k | k in graph.vertexByKey :: graph.vertexByKey[k].name == k
    }

    constructor ()
      ensures Valid() && fresh(graph)
      ensures graph.vertexByKey == map[] && graph.order == [] && graph.adjacency == map[]
    {
      graph := new Graph();
    }

    /**
     * `getOrCreateLocation(name, latitude, longitude)`: the location already stored under
     * `name`, whose coordinates are kept as they are, or else a new location without roads.
     * Either way the result is the map's location of that name.
     */
    method GetOrCreateLocation(name: string, latitude: real, longitude: real) returns (loc: Location)
      requires Valid()
      modifies graph
      ensures Valid()
      ensures loc.name == name && name in graph.vertexByKey && graph.vertexByKey[name] == loc
      ensures name in old(graph.vertexByKey) ==> loc == old(graph.vertexByKey[name]) && unchanged(graph)
      ensures name !in old(graph.vertexByKey) ==>
        && loc == Location(name, latitude, longitude)
        && graph.vertexByKey == old(graph.vertexByKey)[name := loc]
        && graph.order == old(graph.order) + [name]
        && graph.adjacency == old(graph.adjacency)[name := []]
    {
      var existing := graph.Vertex(name);
      if existing.Some? {
        return existing.value;
      }
      loc := Location(name, latitude, longitude);
      var ok := graph.AddVertex(name, loc);
    }

    /** `addRoad(either, other, cost)`: a road both ways between two locations of the map. */
    method AddRoad(either: Location, other: Location, cost: real)
      requires Valid() && either.name in graph.vertexByKey && other.name in graph.vertexByKey
      modifies graph`adjacency
      ensures Valid()
      ensures graph.adjacency ==
        AddArc(AddArc(old(graph.adjacency), either.name, other.name, cost), other.name, either.name, cost)
    {
      graph.AddEdge(either.name, other.name, cost);
    }

    /** `locations()`: every location once, in name order (see `LocationsInNameOrder`). */
    function Locations(): (r: seq<Location>)
      reads this, graph
      requires Valid()
      ensures |r| == |graph.order|
      ensures forall i | 0 <= i < |r| :: r[i].name in graph.vertexByKey && graph.vertexByKey[r[i].name] == r[i]
    {
      var sorted := SortByName(graph.order, graph.vertexByKey, NameOf);
      assert |sorted| == |multiset(graph.order)| == |graph.order|;
      assert forall i | 0 <= i < |sorted| :: sorted[i] in multiset(graph.order);
      var table := graph.vertexByKey;
      seq(|sorted|, i requires 0 <= i < |sorted| => table[sorted[i]])
    }

    /** `locationNames()`: the names of `locations()`, in the same order. */
    function LocationNames(): (names: seq<string>)
      reads this, graph
      requires Valid()
      ensures |names| == |Locations()| && forall i | 0 <= i < |names| :: names[i] == Locations()[i].name
    {
      var locations := Locations();
      seq(|locations|, i requires 0 <= i < |locations| => locations[i].name)
    }

    /**
     * The locations come in name order and each stored location appears exactly once, so the
     * names are strictly increasing.
     */
    lemma LocationsInNameOrder()
      requires Valid()
      ensures forall i, j | 0 <= i < j < |LocationNames()| :: NameLess(LocationNames()[i], LocationNames()[j])
      ensures forall l :: l in Locations() <==> l.name in graph.vertexByKey && graph.vertexByKey[l.name] == l
      ensures forall n :: n in LocationNames() <==> n in graph.vertexByKey
    {
      var sorted := SortByName(graph.order, graph.vertexByKey, NameOf);
      SortByNameSorted(graph.order, graph.vertexByKey, NameOf);
      var locations, names := Locations(), LocationNames();
      assert forall i | 0 <= i < |sorted| :: sorted[i] in multiset(graph.order);
      assert forall i | 0 <= i < |sorted| :: locations[i] == graph.vertexByKey[sorted[i]];
      forall i, j | 0 <= i < j < |names| ensures NameLess(names[i], names[j]) {
        assert !NameLess(names[j], names[i]);
        DistinctInOrder(graph.order, sorted, i, j);
        NameLessTotal(names[i], names[j]);
      }
      forall l: Location | l.name in graph.vertexByKey && graph.vertexByKey[l.name] == l ensures l in locations {
        assert l.name in multiset(sorted);
        var i :| 0 <= i < |sorted| && sorted[i] == l.name;
        assert locations[i] == l;
      }
      forall n | n in graph.vertexByKey ensures n in names {
        assert n in multiset(sorted);
        var i :| 0 <= i < |sorted| && sorted[i] == n;
        assert names[i] == n;
      }
    }
  }

  /** A permutation of a list without duplicates has none either. */
  lemma DistinctInOrder(keys: seq<Key>, sorted: seq<Key>, i: nat, j: nat)
    requires NoDup(keys) && multiset(sorted) == multiset(keys) && i < j < |sorted|
    ensures sorted[i] != sorted[j]
  {
    var x := sorted[i];
    assert sorted == sorted[..j] + [sorted[j]] + sorted[j + 1..];
    assert sorted[..j][i] == x;
    assert multiset(sorted)[x] >= multiset(sorted[..j])[x] + multiset([sorted[j]])[x];
  }
}
