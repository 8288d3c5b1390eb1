/**
 * The specification every shortest-path search of the planner is proved against:
 * paths in a keyed adjacency map, their costs, and the shortest distance as the
 * minimum over all paths.
 */
module Paths {
  import opened Costs

  /** Each vertex key with its outgoing edges, in insertion order. */
  type Adj = map<Key, seq<Edge>>

  /** Every outgoing edge starts at its own vertex and ends at a vertex of the graph. */
  ghost predicate WellFormed(g: Adj)
  {
    forall k, e | k in g && e in g[k] :: e.from == k && e.to in g
  }

  /** The precondition the search documents but never checks: no negative edge weight. */
  ghost predicate NonNegative(g: Adj)
  {
    forall k, e | k in g && e in g[k] :: e.cost >= 0.0
  }

  /** `p` is a chain of edges of `g` leading from `a` to `b` (the empty chain when `a == b`). */
  ghost predicate IsPath(g: Adj, p: seq<Edge>, a: Key, b: Key)
    decreases |p|
  {
    if p == [] then a == b
    else a in g && p[0] in g[a] && p[0].from == a && IsPath(g, p[1..], p[0].to, b)
  }

  /** The sum of the edge weights of `p`. */
  function PathCost(p: seq<Edge>): real
  {
    if p == [] then 0.0 else p[0].cost + PathCost(p[1..])
  }

  ghost predicate Reachable(g: Adj, s: Key, t: Key)
  {
    exists p :: IsPath(g, p, s, t)
  }

  /** Some path from `s` to `t` costs exactly `c`. */
  ghost predicate Realised(g: Adj, s: Key, t: Key, c: real)
  {
    exists p :: IsPath(g, p, s, t) && PathCost(p) == c
  }

  /** No path from `s` to `t` costs less than `c`. */
  ghost predicate LowerBound(g: Adj, s: Key, t: Key, c: real)
  {
    forall p :: IsPath(g, p, s, t) ==> c <= PathCost(p)
  }

  /** `c` is the minimum over all paths from `s` to `t`, and +infinity when there is none. */
  ghost predicate IsShortestDistance(g: Adj, s: Key, t: Key, c: Cost)
  {
    match c
    case Inf => !Reachable(g, s, t)
    case Fin(x) => Realised(g, s, t, x) && LowerBound(g, s, t, x)
  }

  /** `u`, the parent of `v`, is joined to `v` by an edge whose weight closes the cost gap. */
  ghost predicate TreeEdge(g: Adj, d: map<Key, Cost>, u: Key, v: Key)
  {
    u in g && CostOf(d, u).Fin? &&
    exists e :: e in g[u] && e.to == v && CostOf(d, v) == Plus(CostOf(d, u), e.cost)
  }

  /**
   * The result every search promises: each vertex carries its shortest distance from `s`,
   * the source has no parent, every other reachable vertex has one, and each parent link
   * is an edge that realises the distance.
   */
  ghost predicate ShortestPathTree(g: Adj, s: Key, d: map<Key, Cost>, parent: map<Key, Key>)
  {
    && (forall t | t in g :: IsShortestDistance(g, s, t, CostOf(d, t)))
    && s !in parent
    && (forall t | t in parent :: t in g && TreeEdge(g, d, parent[t], t))
    && (forall t | t in g && t != s && Reachable(g, s, t) :: t in parent)
  }

  /** Costs that agree on the graph's vertices describe the same shortest-path tree. */
  lemma TreeKeepsCosts(g: Adj, s: Key, d1: map<Key, Cost>, d2: map<Key, Cost>, parent: map<Key, Key>)
    requires ShortestPathTree(g, s, d1, parent)
    requires forall k | k in g :: CostOf(d2, k) == CostOf(d1, k)
    ensures ShortestPathTree(g, s, d2, parent)
  {
    forall t | t in parent ensures t in g && TreeEdge(g, d2, parent[t], t) {
      assert TreeEdge(g, d1, parent[t], t);
    }
  }

  /** Appending an outgoing edge of the end vertex extends a path and adds the edge's weight. */
  lemma {:induction false} PathAppend(g: Adj, p: seq<Edge>, a: Key, b: Key, e: Edge)
    requires IsPath(g, p, a, b) && b in g && e in g[b] && e.from == b
    ensures IsPath(g, p + [e], a, e.to)
    ensures PathCost(p + [e]) == PathCost(p) + e.cost
    decreases |p|
  {
    if p == [] {
      assert p + [e] == [e];
      assert IsPath(g, [e][1..], e.to, e.to);
    } else {
      PathAppend(g, p[1..], p[0].to, b, e);
      assert (p + [e])[1..] == p[1..] + [e];
    }
  }

  /** With non-negative weights no path costs less than zero. */
  lemma {:induction false} PathCostNonNegative(g: Adj, p: seq<Edge>, a: Key, b: Key)
    requires NonNegative(g) && IsPath(g, p, a, b)
    ensures PathCost(p) >= 0.0
    decreases |p|
  {
    if p != [] {
      PathCostNonNegative(g, p[1..], p[0].to, b);
    }
  }

  /** The empty path: the source is at distance zero from itself. */
  lemma SourceAtZero(g: Adj, s: Key)
    requires NonNegative(g) && s in g
    ensures IsShortestDistance(g, s, s, Fin(0.0))
  {
    assert IsPath(g, [], s, s) && PathCost([]) == 0.0;
    forall p | IsPath(g, p, s, s) ensures 0.0 <= PathCost(p) {
      PathCostNonNegative(g, p, s, s);
    }
  }
}
