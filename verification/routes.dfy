/**
 * Rebuilding a route from parent links: every finder walks from the goal back along the
 * parent pointers, prepending each stop, until it reaches a stop without a parent.
 */
module Routes {
  import opened Costs
  import opened Paths
  import opened DijkstraCore

  /**
   * `route` is the parent walk that ends at `goal`: its first stop has no parent and each
   * later stop's parent is the stop before it.
   */
  ghost predicate ParentWalk(parent: map<Key, Key>, route: seq<Key>, goal: Key)
  {
    && |route| > 0
    && route[|route| - 1] == goal
    && route[0] !in parent
    && forall i | 1 <= i < |route| :: route[i] in parent && parent[route[i]] == route[i - 1]
  }

  /** The edges of `p` lead through the stops of `route`, one edge per consecutive pair. */
  ghost predicate Follows(p: seq<Edge>, route: seq<Key>)
  {
    && |p| + 1 == |route|
    && forall i | 0 <= i < |p| :: p[i].from == route[i] && p[i].to == route[i + 1]
  }

  /** The route loop shared by every finder: start at the goal and prepend parents. */
  method BuildRoute(parent: map<Key, Key>, ghost rank: map<Key, nat>, goal: Key) returns (route: seq<Key>)
    requires Ranked(parent, rank)
    ensures ParentWalk(parent, route, goal)
  {
    route := [goal];
    var v := goal;
    while v in parent
      invariant |route| > 0 && route[0] == v && route[|route| - 1] == goal
      invariant forall i | 1 <= i < |route| :: route[i] in parent && parent[route[i]] == route[i - 1]
      decreases if v in parent then rank[v] + 1 else 0
    {
      v := parent[v];
      route := [v] + route;
    }
  }

  /** A goal without a parent (the source, or a goal never reached) gives the route `[goal]`. */
  lemma UnreachedGoalRoute(parent: map<Key, Key>, route: seq<Key>, goal: Key)
    requires ParentWalk(parent, route, goal) && goal !in parent
    ensures route == [goal]
  {
  }

  /** The parent walk is determined by the parent links: two walks to one goal are equal. */
  lemma {:induction false} ParentWalkUnique(parent: map<Key, Key>, r1: seq<Key>, r2: seq<Key>, goal: Key)
    requires ParentWalk(parent, r1, goal) && ParentWalk(parent, r2, goal)
    ensures r1 == r2
    decreases |r1|
  {
    if |r1| == 1 {
      UnreachedGoalRoute(parent, r2, goal);
    } else if |r2| == 1 {
      UnreachedGoalRoute(parent, r1, goal);
    } else {
      var i := |r1| - 1;
      assert r1[i] in parent;
      var p := parent[goal];
      assert r1[|r1| - 2] == p && r2[|r2| - 2] == p;
      ParentWalkUnique(parent, r1[..|r1| - 1], r2[..|r2| - 1], p);
      assert r1 == r1[..|r1| - 1] + [goal];
      assert r2 == r2[..|r2| - 1] + [goal];
    }
  }

  /** Following the first `k + 1` stops of a walk that starts at `s` is a path costing the `k`-th stop's cost. */
  lemma {:induction false} WalkPrefixPath(g: Adj, s: Key, d: map<Key, Cost>, parent: map<Key, Key>, route: seq<Key>, k: nat)
    returns (p: seq<Edge>)
    requires WellFormed(g) && s in g && CostOf(d, s) == Fin(0.0)
    requires forall t | t in parent :: TreeEdge(g, d, parent[t], t)
    requires |route| > 0 && route[0] == s && k < |route|
    requires forall i | 1 <= i < |route| :: route[i] in parent && parent[route[i]] == route[i - 1]
    ensures IsPath(g, p, s, route[k]) && Follows(p, route[..k + 1])
    ensures CostOf(d, route[k]).Fin? && PathCost(p) == CostOf(d, route[k]).km
  {
    if k == 0 {
      p := [];
    } else {
      var q := WalkPrefixPath(g, s, d, parent, route, k - 1);
      var u, v := route[k - 1], route[k];
      assert TreeEdge(g, d, parent[v], v);
      var e :| e in g[u] && e.to == v && CostOf(d, v) == Plus(CostOf(d, u), e.cost);
      PathAppend(g, q, s, u, e);
      FollowsAppend(q, route, k, e);
      p := q + [e];
    }
  }

  /**
   * Proof helper: a path that follows the first `k` stops, extended by an edge to stop `k`,
   * follows the first `k + 1`.
   */
  lemma FollowsAppend(q: seq<Edge>, route: seq<Key>, k: nat, e: Edge)
    requires 0 < k < |route| && Follows(q, route[..k])
    requires e.from == route[k - 1] && e.to == route[k]
    ensures Follows(q + [e], route[..k + 1])
  {
    forall i | 0 <= i < |q| + 1 ensures (q + [e])[i].from == route[i] && (q + [e])[i].to == route[i + 1] {
      if i < |q| {
        assert (q + [e])[i] == q[i] && route[..k][i] == route[i] && route[..k][i + 1] == route[i + 1];
      }
    }
  }

  /**
   * In a shortest-path tree the parent walk to a reachable goal starts at the source, and the
   * edges joining its consecutive stops form a path whose cost is the goal's shortest distance.
   */
  lemma RouteIsShortestPath(g: Adj, s: Key, d: map<Key, Cost>, parent: map<Key, Key>, route: seq<Key>, goal: Key)
    requires WellFormed(g) && NonNegative(g) && s in g && ShortestPathTree(g, s, d, parent)
    requires goal in g && Reachable(g, s, goal)
    requires ParentWalk(parent, route, goal)
    ensures route[0] == s
    ensures exists p :: IsPath(g, p, s, goal) && Follows(p, route) && PathCost(p) == CostOf(d, goal).km
  {
    var r0 := route[0];
    if |route| == 1 {
      assert IsShortestDistance(g, s, goal, CostOf(d, goal));
    } else {
      assert TreeEdge(g, d, parent[route[1]], route[1]);
    }
    assert r0 in g && CostOf(d, r0).Fin?;
    assert IsShortestDistance(g, s, r0, CostOf(d, r0));
    var p0 :| IsPath(g, p0, s, r0) && PathCost(p0) == CostOf(d, r0).km;
    assert Reachable(g, s, r0);
    assert IsShortestDistance(g, s, s, CostOf(d, s));
    SourceCostZero(g, s, d);
    var p := WalkPrefixPath(g, s, d, parent, route, |route| - 1);
    assert route[..|route|] == route;
  }

  /** The source carries cost zero in any table of shortest distances. */
  lemma SourceCostZero(g: Adj, s: Key, d: map<Key, Cost>)
    requires NonNegative(g) && s in g && IsShortestDistance(g, s, s, CostOf(d, s))
    ensures CostOf(d, s) == Fin(0.0)
  {
    assert IsPath(g, [], s, s);
    var p :| IsPath(g, p, s, s) && PathCost(p) == CostOf(d, s).km;
    PathCostNonNegative(g, p, s, s);
  }
}
