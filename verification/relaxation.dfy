/**
 * The steps of the search as the loops perform them: the queue is a sequence of keys, a
 * strict improvement removes the target from the queue and appends it again, and every
 * improvement is reported to the `onNewPathFound` callback, modelled as a trace of events.
 */
module Relaxation {
  import opened Costs
  import opened Paths
  import opened QueueContents
  import opened DijkstraCore
  import opened PriorityQueues

  /** One call of `onNewPathFound(edge, cost)`: a new, cheaper path ending with `edge`. */
  datatype PathFound = PathFound(edge: Edge, cost: real)

  /**
   * A reported path is real: its edge is an edge of the graph, and some path from the source
   * to the edge's target costs exactly what was reported.
   */
  ghost predicate Reported(g: Adj, s: Key, f: PathFound)
  {
    f.edge.from in g && f.edge in g[f.edge.from] && Realised(g, s, f.edge.to, f.cost)
  }

  /** Every path reported so far is real. */
  ghost predicate TraceSound(g: Adj, s: Key, trace: seq<PathFound>)
  {
    forall k | 0 <= k < |trace| :: Reported(g, s, trace[k])
  }

  /** Proof helper: the loop state `(d, parent, settled, pq, rank)` with the queue read as a set. */
  ghost function State(d: map<Key, Cost>, parent: map<Key, Key>, settled: set<Key>, pq: seq<Key>, rank: map<Key, nat>): Search
  {
    Search(d, parent, settled, Elems(pq), rank)
  }

  /** The seeded state: the source alone at cost 0 and alone in the queue. */
  lemma SeedStep(g: Adj, s: Key, d: map<Key, Cost>)
    requires WellFormed(g) && NonNegative(g) && s in g
    requires CostOf(d, s) == Fin(0.0) && forall v | v != s :: CostOf(d, v) == Inf
    ensures Inv(g, s, State(d, map[], {}, [s], map[s := 0]))
    ensures NoDup([s])
  {
    assert Elems([s]) == {s};
    assert multiset([s]) == multiset{s};
    Seed(g, s, d);
  }

  /**
   * Polling a least-cost entry: it is never an expanded vertex (so the `visited` test never
   * fails), and expanding it starts with the queue still free of duplicates.
   */
  lemma SettleStep(g: Adj, s: Key, st: Search, pq: seq<Key>, u: Key)
    requires WellFormed(g) && NonNegative(g) && Inv(g, s, st)
    requires NoDup(pq) && Elems(pq) == st.queued && IsMinimum(pq, st.d, u)
    ensures u !in st.settled && u in g
    ensures NoDup(RemoveFirst(pq, u)) && Elems(RemoveFirst(pq, u)) == Settle(st, u).queued
    ensures Expanding(g, s, Settle(st, u), u, 0)
  {
    RemoveFirstOfDistinct(pq, u);
    SettleMin(g, s, st, u);
  }

  /**
   * A strict improvement along the `i`-th edge of `u`: the target is not expanded, the queue
   * stays free of duplicates, no cost rises, the path reported to the callback is real, and
   * the invariant holds with one more edge relaxed.
   */
  lemma ImproveStep(g: Adj, s: Key, st: Search, pq: seq<Key>, u: Key, i: nat)
    requires WellFormed(g) && NonNegative(g) && Expanding(g, s, st, u, i) && i < |g[u]|
    requires NoDup(pq) && Elems(pq) == st.queued
    requires Below(Plus(CostOf(st.d, u), g[u][i].cost), CostOf(st.d, g[u][i].to))
    ensures u in st.rank && CostOf(st.d, u).Fin?
    ensures g[u][i].to !in st.settled
    ensures NoDup(RemoveFirst(pq, g[u][i].to) + [g[u][i].to])
    ensures Elems(RemoveFirst(pq, g[u][i].to) + [g[u][i].to]) == Improve(st, u, g[u][i]).queued
    ensures Expanding(g, s, Improve(st, u, g[u][i]), u, i + 1)
    ensures forall v :: AtMost(CostOf(Improve(st, u, g[u][i]).d, v), CostOf(st.d, v))
    ensures Reported(g, s, PathFound(g[u][i], CostOf(st.d, u).km + g[u][i].cost))
  {
    RelaxImproves(g, s, st, u, i);
    RemoveThenAppend(pq, g[u][i].to);
    assert g[u][i] in g[u];
    ImprovedRealised(g, s, st, u, g[u][i]);
  }
}
