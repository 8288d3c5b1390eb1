/**
 * The keyed graph. A vertex is known by its key; its outgoing edges are kept in insertion
 * order, and the search fields every vertex carries (cost, parent, visited) are tables keyed
 * like the vertices. The `Object`-keyed graph of the school version has the same code and is
 * modelled by the same class.
 */
module Graphs {
  import opened Wrappers
  import opened Costs
  import opened QueueContents

  /**
   * A single vertex object: its id, its outgoing edges and the three search fields that the
   * searches overwrite. A new vertex has no edges, no parent, is unvisited and, as a Java
   * `float` field, has cost 0. This class stands alone for the vertex object itself; `Graph`
   * below keeps the same fields as per-key tables, which is what the searches work on.
   */
  class Vertex {
    const id: Key
    var adjEdges: seq<Edge>
    var parent: Vertex?
    var cost: Cost
    var visited: bool

    /** Every outgoing edge starts at this vertex. */
    ghost predicate Valid()
      reads this
    {
      forall e | e in adjEdges :: e.from == id
    }

    constructor (id: Key)
      ensures Valid() && this.id == id
      ensures adjEdges == [] && parent == null && cost == Fin(0.0) && !visited
    {
      this.id := id;
      adjEdges := [];
      parent := null;
      cost := Fin(0.0);
      visited := false;
    }

    method SetParent(parent: Vertex?)
      modifies this`parent
      ensures this.parent == parent
    {
      this.parent := parent;
    }

    method SetCost(cost: Cost)
      modifies this`cost
      ensures this.cost == cost
    {
      this.cost := cost;
    }

    method SetVisited(visited: bool)
      modifies this`visited
      ensures this.visited == visited
    {
      this.visited := visited;
    }

    /** Appends exactly one edge `(this, to, cost)`; earlier edges keep their order. */
    method AddOutgoingEdge(to: Vertex, cost: real)
      requires Valid()
      modifies this`adjEdges
      ensures Valid()
      ensures adjEdges == old(adjEdges) + [Edge(id, to.id, cost)]
      ensures adjEdges[..|old(adjEdges)|] == old(adjEdges)
    {
      adjEdges := adjEdges + [Edge(id, to.id, cost)];
    }

    /** The outgoing edges, all starting at this vertex. */
    function OutgoingEdges(): (r: seq<Edge>)
      reads this
      requires Valid()
      ensures forall e | e in r :: e.from == id
    {
      adjEdges
    }
  }

  /** Appends the directed edge `source -> target` to the adjacency list of `source`. */
  function AddArc(adj: map<Key, seq<Edge>>, source: Key, target: Key, cost: real): (r: map<Key, seq<Edge>>)
    requires source in adj
    ensures r.Keys == adj.Keys
    ensures r[source] == adj[source] + [Edge(source, target, cost)]
    ensures forall k | k in adj && k != source :: r[k] == adj[k]
  {
    adj[source := adj[source] + [Edge(source, target, cost)]]
  }

  /** The outgoing edges of the vertices `keys`, in that order, one list after the other. */
  function Flatten(keys: seq<Key>, adj: map<Key, seq<Edge>>): (r: seq<Edge>)
    requires forall k | k in keys :: k in adj
  {
    if keys == [] then [] else adj[keys[0]] + Flatten(keys[1..], adj)
  }

  /** The total number of outgoing edges of the vertices `keys`. */
  function EdgeCount(keys: seq<Key>, adj: map<Key, seq<Edge>>): nat
    requires forall k | k in keys :: k in adj
  {
    if keys == [] then 0 else |adj[keys[0]]| + EdgeCount(keys[1..], adj)
  }

  /** An edge is in the flattening exactly when it is an outgoing edge of one of the keys. */
  lemma {:induction false} FlattenContents(keys: seq<Key>, adj: map<Key, seq<Edge>>)
    requires forall k | k in keys :: k in adj
    ensures forall e :: e in Flatten(keys, adj) <==> exists k :: k in keys && e in adj[k]
    ensures |Flatten(keys, adj)| == EdgeCount(keys, adj)
  {
    if keys != [] {
      FlattenContents(keys[1..], adj);
      forall e ensures e in Flatten(keys, adj) <==> exists k :: k in keys && e in adj[k] {
        if e in Flatten(keys[1..], adj) {
          var k :| k in keys[1..] && e in adj[k];
          assert k in keys;
        }
        if exists k :: k in keys && e in adj[k] {
          var k :| k in keys && e in adj[k];
          if k != keys[0] {
            assert k in keys[1..];
          }
        }
      }
    }
  }

  /**
   * A graph keyed by `Key` whose vertices carry a payload of type `P` (a road-map point or
   * location). `order` is the order in which `vertices()` enumerates the vertices.
   */
  class Graph<P> {
    var vertexByKey: map<Key, P>
    var order: seq<Key>
    var adjacency: map<Key, seq<Edge>>
    var cost: map<Key, Cost>
    var parent: map<Key, Key>
    var visited: set<Key>

    /**
     * The key table, the enumeration order and the adjacency lists describe the same vertices;
     * every outgoing edge starts at its own vertex.
     */
    ghost predicate Valid()
      reads this
    {
      && adjacency.Keys == vertexByKey.Keys
      && NoDup(order)
      && (forall k :: k in order <==> k in vertexByKey)
      && (forall k, e | k in adjacency && e in adjacency[k] :: e.from == k)
    }

    constructor ()
      ensures Valid()
      ensures vertexByKey == map[] && order == [] && adjacency == map[]
      ensures cost == map[] && parent == map[] && visited == {}
    {
      vertexByKey := map[];
      order := [];
      adjacency := map[];
      cost := map[];
      parent := map[];
      visited := {};
    }

    /**
     * `addVertex(key, vertex)` with a fresh vertex: a key already present is refused
     * (IllegalArgumentException, `ok == false`) and nothing changes.
     */
    method AddVertex(key: Key, payload: P) returns (ok: bool)
      requires Valid()
      modifies this
      ensures Valid()
      ensures ok <==> key !in old(vertexByKey)
      ensures !ok ==> unchanged(this)
      ensures ok ==> vertexByKey == old(vertexByKey)[key := payload]
      ensures ok ==> order == old(order) + [key] && adjacency == old(adjacency)[key := []]
      ensures ok ==> cost == old(cost)[key := Fin(0.0)]
      ensures ok ==> parent == old(parent) - {key} && visited == old(visited) - {key}
    {
      if key in vertexByKey {
        ok := false;
      } else {
        assert multiset(order)[key] == 0;
        vertexByKey := vertexByKey[key := payload];
        order := order + [key];
        adjacency := adjacency[key := []];
        cost := cost[key := Fin(0.0)];
        parent := parent - {key};
        visited := visited - {key};
        ok := true;
      }
    }

    /** `vertex(key)`: the stored payload, or `None` (an empty Optional) for an absent key. */
    function Vertex(key: Key): (r: Option<P>)
      reads this
      ensures r.Some? <==> key in vertexByKey
      ensures r.Some? ==> r.value == vertexByKey[key]
    {
      if key in vertexByKey then Some(vertexByKey[key]) else None
    }

    /** `vertices()`: every key exactly once. */
    function Vertices(): (r: seq<Key>)
      reads this
      requires Valid()
      ensures forall k :: k in r <==> k in vertexByKey
      ensures NoDup(r)
    {
      order
    }

    /** `edges()`: the outgoing edges of all vertices, vertex after vertex. */
    function Edges(): (r: seq<Edge>)
      reads this
      requires Valid()
    {
      Flatten(order, adjacency)
    }

    /** `addEdge(a, b, cost)`: the directed edges `a -> b` and `b -> a`, both of weight `cost`. */
    method AddEdge(either: Key, other: Key, cost: real)
      requires Valid() && either in vertexByKey && other in vertexByKey
      modifies this`adjacency
      ensures Valid()
      ensures adjacency == AddArc(AddArc(old(adjacency), either, other, cost), other, either, cost)
    {
      AddDirectedEdge(either, other, cost);
      AddDirectedEdge(other, either, cost);
    }

    /**
     * `addDirectedEdge(source, target, cost)`: appends to the source's list only. The target
     * need not be a vertex of this graph, and an edge already present is added again.
     */
    method AddDirectedEdge(source: Key, target: Key, cost: real)
      requires Valid() && source in vertexByKey
      modifies this`adjacency
      ensures Valid()
      ensures adjacency == AddArc(old(adjacency), source, target, cost)
    {
      adjacency := AddArc(adjacency, source, target, cost);
    }
  }

  /** `edges()` lists exactly the outgoing edges of the graph's vertices, as many as they have. */
  lemma EdgesAreAllOutgoingEdges<P>(g: Graph<P>)
    requires g.Valid()
    ensures forall e :: e in g.Edges() <==> exists k :: k in g.vertexByKey && e in g.adjacency[k]
    ensures |g.Edges()| == EdgeCount(g.order, g.adjacency)
  {
    FlattenContents(g.order, g.adjacency);
  }

  /**
   * `addEdge(a, b, c)` between two distinct vertices: `a` gains `a -> b`, `b` gains `b -> a`,
   * both with weight `c`, and no other adjacency list changes.
   */
  lemma AddEdgeBothWays(adj: map<Key, seq<Edge>>, a: Key, b: Key, c: real)
    requires a in adj && b in adj && a != b
    ensures AddArc(AddArc(adj, a, b, c), b, a, c)[a] == adj[a] + [Edge(a, b, c)]
    ensures AddArc(AddArc(adj, a, b, c), b, a, c)[b] == adj[b] + [Edge(b, a, c)]
    ensures forall k | k in adj && k != a && k != b :: AddArc(AddArc(adj, a, b, c), b, a, c)[k] == adj[k]
  {
  }

  /** A directed edge adds nothing to its target: after `a -> b` alone, `b` still has no edge to `a`. */
  lemma DirectedEdgeOneWay(adj: map<Key, seq<Edge>>, a: Key, b: Key, c: real)
    requires a in adj && b in adj && a != b
    requires forall e | e in adj[b] :: e.to != a
    ensures forall e | e in AddArc(adj, a, b, c)[b] :: e.to != a
    ensures Edge(a, b, c) in AddArc(adj, a, b, c)[a]
  {
  }

  /** The same directed edge added twice is kept twice: duplicates are not refused. */
  lemma DuplicateEdgeKept(adj: map<Key, seq<Edge>>, a: Key, b: Key, c: real)
    requires a in adj
    ensures multiset(AddArc(AddArc(adj, a, b, c), a, b, c)[a])[Edge(a, b, c)]
         == multiset(adj[a])[Edge(a, b, c)] + 2
  {
  }
}
