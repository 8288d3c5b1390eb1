/**
 * The invariant set of Dijkstra's search, shared by every refactor of the search loop.
 *
 * A search state holds the tentative costs `d`, the parent links, the settled
 * (expanded) vertices, the set of queued vertices and a ghost hop count `rank`
 * that makes parent walks terminate. The lemmas below are the steps of the search:
 * seeding, settling a minimum-cost vertex, relaxing one outgoing edge, and reading
 * off the shortest-path tree when the queue runs empty.
 */
module DijkstraCore {
  import opened Costs
  import opened Paths

  datatype Search = Search(
    d: map<Key, Cost>,
    parent: map<Key, Key>,
    settled: set<Key>,
    queued: set<Key>,
    rank: map<Key, nat>)

  /** Along every parent link the rank strictly decreases. */
  ghost predicate Ranked(parent: map<Key, Key>, rank: map<Key, nat>)
  {
    forall v | v in parent :: v in rank && parent[v] in rank && rank[parent[v]] < rank[v]
  }

  /** Edge `e` out of `w` cannot improve the cost of its target. */
  ghost predicate Relaxed(d: map<Key, Cost>, w: Key, e: Edge)
  {
    AtMost(CostOf(d, e.to), Plus(CostOf(d, w), e.cost))
  }

  /** The queue holds exactly the reached vertices that are not expanded yet. */
  ghost predicate QueueExact(g: Adj, st: Search)
  {
    forall v :: v in st.queued <==> v in g && v !in st.settled && CostOf(st.d, v).Fin?
  }

  /** Every finite cost is non-negative, ranked, and the cost of some path from the source. */
  ghost predicate CostsRealised(g: Adj, s: Key, st: Search)
  {
    forall v | CostOf(st.d, v).Fin? ::
      v in g && v in st.rank && CostOf(st.d, v).km >= 0.0 && Realised(g, s, v, CostOf(st.d, v).km)
  }

  /** Expanded vertices carry their shortest distance. */
  ghost predicate SettledExact(g: Adj, s: Key, st: Search)
  {
    forall v | v in st.settled :: CostOf(st.d, v).Fin? && LowerBound(g, s, v, CostOf(st.d, v).km)
  }

  /** Parents are expanded vertices joined to their children by a realising edge. */
  ghost predicate ParentsTree(g: Adj, st: Search)
  {
    forall v | v in st.parent :: st.parent[v] in st.settled && TreeEdge(g, st.d, st.parent[v], v)
  }

  /** The source has no parent; every other reached vertex has one. */
  ghost predicate ParentsTotal(s: Key, st: Search)
  {
    s !in st.parent && forall v | v != s && CostOf(st.d, v).Fin? :: v in st.parent
  }

  /** The clauses that hold at every step, including in the middle of an expansion. */
  ghost predicate Core(g: Adj, s: Key, st: Search)
  {
    && s in g
    && CostOf(st.d, s) == Fin(0.0)
    && st.settled <= g.Keys
    && QueueExact(g, st)
    && CostsRealised(g, s, st)
    && SettledExact(g, s, st)
    && ParentsTree(g, st)
    && ParentsTotal(s, st)
    && Ranked(st.parent, st.rank)
  }

  /** Between expansions: every edge out of an expanded vertex is relaxed. */
  ghost predicate Inv(g: Adj, s: Key, st: Search)
  {
    && Core(g, s, st)
    && (forall w, e | w in st.settled && e in g[w] :: Relaxed(st.d, w, e))
  }

  /** While `u` is being expanded: its first `i` edges are relaxed, other expanded vertices fully. */
  ghost predicate Expanding(g: Adj, s: Key, st: Search, u: Key, i: nat)
  {
    && Core(g, s, st)
    && u in st.settled && i <= |g[u]|
    && (forall w, e | w in st.settled && e in g[w] && w != u :: Relaxed(st.d, w, e))
    && (forall e | e in g[u][..i] :: Relaxed(st.d, u, e))
  }

  /** Proof helper: settle `u`, which leaves the queue and joins the expanded vertices. */
  function Settle(st: Search, u: Key): Search
  {
    st.(settled := st.settled + {u}, queued := st.queued - {u})
  }

  /** The relaxation of edge `e` out of `u`: cost, parent and rank of `e.to` change, and it is queued. */
  function Improve(st: Search, u: Key, e: Edge): Search
    requires u in st.rank
  {
    st.(d := st.d[e.to := Plus(CostOf(st.d, u), e.cost)],
        parent := st.parent[e.to := u],
        queued := st.queued + {e.to},
        rank := st.rank[e.to := st.rank[u] + 1])
  }

  /** The state after seeding: only the source has a finite cost and only it is queued. */
  lemma Seed(g: Adj, s: Key, d: map<Key, Cost>)
    requires WellFormed(g) && NonNegative(g) && s in g
    requires CostOf(d, s) == Fin(0.0)
    requires forall v | v != s :: CostOf(d, v) == Inf
    ensures Inv(g, s, Search(d, map[], {}, {s}, map[s := 0]))
  {
    SourceAtZero(g, s);
  }

  /**
   * Along a path that leaves the expanded vertices, some queued vertex costs no more than
   * the path: the heart of Dijkstra's correctness argument.
   */
  lemma {:induction false} FrontierWitness(g: Adj, s: Key, st: Search, p: seq<Edge>, a: Key, t: Key)
    returns (x: Key)
    requires WellFormed(g) && NonNegative(g) && Inv(g, s, st)
    requires a in st.settled && t !in st.settled && IsPath(g, p, a, t)
    ensures x in st.queued && CostOf(st.d, x).Fin?
    ensures CostOf(st.d, x).km <= CostOf(st.d, a).km + PathCost(p)
    decreases |p|
  {
    var e := p[0];
    assert Relaxed(st.d, a, e);
    PathCostNonNegative(g, p[1..], e.to, t);
    if e.to !in st.settled {
      x := e.to;
    } else {
      x := FrontierWitness(g, s, st, p[1..], e.to, t);
    }
  }

  /** A queued vertex of minimum cost already carries its shortest distance. */
  lemma ExtractedIsExact(g: Adj, s: Key, st: Search, u: Key)
    requires WellFormed(g) && NonNegative(g) && Inv(g, s, st)
    requires u in st.queued
    requires forall x | x in st.queued :: AtMost(CostOf(st.d, u), CostOf(st.d, x))
    ensures LowerBound(g, s, u, CostOf(st.d, u).km)
  {
    forall p | IsPath(g, p, s, u) ensures CostOf(st.d, u).km <= PathCost(p) {
      PathCostNonNegative(g, p, s, u);
      if s in st.settled {
        var x := FrontierWitness(g, s, st, p, s, u);
        assert AtMost(CostOf(st.d, u), CostOf(st.d, x));
      } else {
        assert s in st.queued;
        assert AtMost(CostOf(st.d, u), CostOf(st.d, s));
      }
    }
  }

  /** Expanding a queued vertex of minimum cost starts a valid expansion. */
  lemma SettleMin(g: Adj, s: Key, st: Search, u: Key)
    requires WellFormed(g) && NonNegative(g) && Inv(g, s, st)
    requires u in st.queued
    requires forall x | x in st.queued :: AtMost(CostOf(st.d, u), CostOf(st.d, x))
    ensures u !in st.settled
    ensures Expanding(g, s, Settle(st, u), u, 0)
  {
    ExtractedIsExact(g, s, st, u);
    var st' := Settle(st, u);
    assert st'.d == st.d && st'.parent == st.parent && st'.rank == st.rank;
    assert QueueExact(g, st');
    assert SettledExact(g, s, st');
    assert ParentsTree(g, st') by {
      forall v | v in st'.parent ensures st'.parent[v] in st'.settled && TreeEdge(g, st'.d, st'.parent[v], v) {
        assert TreeEdge(g, st.d, st.parent[v], v);
      }
    }
    assert Core(g, s, st');
    assert forall w, e | w in st'.settled && e in g[w] && w != u :: Relaxed(st'.d, w, e);
  }

  /** A path to the expanded `u` followed by `e` is a path to `e.to` costing `d[u] + e.cost`. */
  lemma ImprovedRealised(g: Adj, s: Key, st: Search, u: Key, e: Edge)
    requires WellFormed(g) && NonNegative(g) && u in g && e in g[u]
    requires CostsRealised(g, s, st) && SettledExact(g, s, st)
    requires u in st.settled && CostOf(st.d, u).Fin?
    requires Below(Plus(CostOf(st.d, u), e.cost), CostOf(st.d, e.to))
    ensures Realised(g, s, e.to, CostOf(st.d, u).km + e.cost)
    ensures CostOf(st.d, u).km + e.cost >= 0.0
    ensures e.to !in st.settled
  {
    var pu :| IsPath(g, pu, s, u) && PathCost(pu) == CostOf(st.d, u).km;
    PathAppend(g, pu, s, u, e);
    if e.to in st.settled {
      assert false;
    }
  }

  /** The relaxation keeps every parent link a realising edge out of an expanded vertex. */
  lemma ImprovedParents(g: Adj, st: Search, u: Key, e: Edge)
    requires ParentsTree(g, st) && u in st.settled && e.to !in st.settled && u in st.rank
    requires u in g && e in g[u] && CostOf(st.d, u).Fin?
    ensures ParentsTree(g, Improve(st, u, e))
  {
    var st' := Improve(st, u, e);
    var v := e.to;
    forall w | w in st'.parent ensures st'.parent[w] in st'.settled && TreeEdge(g, st'.d, st'.parent[w], w) {
      if w == v {
        assert e in g[u] && e.to == v;
      } else {
        var pw := st.parent[w];
        assert TreeEdge(g, st.d, pw, w);
        var ew :| ew in g[pw] && ew.to == w && CostOf(st.d, w) == Plus(CostOf(st.d, pw), ew.cost);
        assert CostOf(st'.d, w) == Plus(CostOf(st'.d, pw), ew.cost);
      }
    }
  }

  /** The relaxation keeps ranks decreasing along parent links. */
  lemma ImprovedRanked(st: Search, u: Key, e: Edge)
    requires Ranked(st.parent, st.rank) && u in st.rank
    requires forall v | v in st.parent :: st.parent[v] in st.settled
    requires u in st.settled && e.to !in st.settled
    ensures Ranked(Improve(st, u, e).parent, Improve(st, u, e).rank)
  {
  }

  /** The relaxation keeps every finite cost realised by a path. */
  lemma ImprovedCosts(g: Adj, s: Key, st: Search, u: Key, e: Edge)
    requires CostsRealised(g, s, st) && u in st.rank && CostOf(st.d, u).Fin? && e.to in g
    requires Realised(g, s, e.to, CostOf(st.d, u).km + e.cost) && CostOf(st.d, u).km + e.cost >= 0.0
    ensures CostsRealised(g, s, Improve(st, u, e))
  {
  }

  /** Lowering the cost of an unexpanded vertex through the expanded `u` keeps every core clause. */
  lemma ImprovedCore(g: Adj, s: Key, st: Search, u: Key, e: Edge)
    requires Core(g, s, st) && u in st.settled && u in st.rank && e.to !in st.settled && e.to != s
    requires e.to in g && CostOf(st.d, u).Fin?
    requires CostsRealised(g, s, Improve(st, u, e)) && ParentsTree(g, Improve(st, u, e))
    requires Ranked(Improve(st, u, e).parent, Improve(st, u, e).rank)
    ensures Core(g, s, Improve(st, u, e))
  {
    var st' := Improve(st, u, e);
    assert QueueExact(g, st');
    assert SettledExact(g, s, st');
    assert ParentsTotal(s, st');
  }

  /** Lowering one cost keeps every relaxed edge relaxed, and relaxes the edge that lowered it. */
  lemma ImprovedEdges(g: Adj, st: Search, u: Key, i: nat)
    requires u in g && i < |g[u]| && u in st.rank && u in st.settled && st.settled <= g.Keys
    requires g[u][i].to !in st.settled
    requires Below(Plus(CostOf(st.d, u), g[u][i].cost), CostOf(st.d, g[u][i].to))
    requires forall w, e | w in st.settled && e in g[w] && w != u :: Relaxed(st.d, w, e)
    requires forall e | e in g[u][..i] :: Relaxed(st.d, u, e)
    ensures forall w, e | w in st.settled && e in g[w] && w != u :: Relaxed(Improve(st, u, g[u][i]).d, w, e)
    ensures forall e | e in g[u][..i + 1] :: Relaxed(Improve(st, u, g[u][i]).d, u, e)
  {
    var e := g[u][i];
    var d' := Improve(st, u, e).d;
    assert g[u][..i + 1] == g[u][..i] + [e];
    forall w, e' | w in st.settled && e' in g[w] && w != u ensures Relaxed(d', w, e') {
      assert Relaxed(st.d, w, e');
    }
    forall e' | e' in g[u][..i + 1] ensures Relaxed(d', u, e') {
      if e' != e {
        assert Relaxed(st.d, u, e');
      }
    }
  }

  /** A relaxation only ever lowers costs. */
  lemma ImprovedLowers(d: map<Key, Cost>, u: Key, e: Edge)
    requires Below(Plus(CostOf(d, u), e.cost), CostOf(d, e.to))
    ensures forall v :: AtMost(CostOf(d[e.to := Plus(CostOf(d, u), e.cost)], v), CostOf(d, v))
  {
    forall v ensures AtMost(CostOf(d[e.to := Plus(CostOf(d, u), e.cost)], v), CostOf(d, v)) {
      BelowIsStrictTotalOrder(CostOf(d, v), CostOf(d, v), CostOf(d, v));
    }
  }

  /** Packs the clauses of `Expanding`. */
  lemma ExpandingIntro(g: Adj, s: Key, st: Search, u: Key, i: nat)
    requires Core(g, s, st) && u in st.settled && i <= |g[u]|
    requires forall w, e | w in st.settled && e in g[w] && w != u :: Relaxed(st.d, w, e)
    requires forall e | e in g[u][..i] :: Relaxed(st.d, u, e)
    ensures Expanding(g, s, st, u, i)
  {
  }

  /**
   * A strict improvement through the expanded vertex `u` never touches an expanded vertex,
   * lowers exactly one cost, and keeps the invariant with one more edge relaxed.
   */
  lemma RelaxImproves(g: Adj, s: Key, st: Search, u: Key, i: nat)
    requires WellFormed(g) && NonNegative(g) && Expanding(g, s, st, u, i)
    requires i < |g[u]|
    requires Below(Plus(CostOf(st.d, u), g[u][i].cost), CostOf(st.d, g[u][i].to))
    ensures u in st.rank
    ensures g[u][i].to !in st.settled && g[u][i].to != s
    ensures Expanding(g, s, Improve(st, u, g[u][i]), u, i + 1)
    ensures forall v :: AtMost(CostOf(Improve(st, u, g[u][i]).d, v), CostOf(st.d, v))
  {
    var e := g[u][i];
    var v := e.to;
    var st' := Improve(st, u, e);
    assert e in g[u];
    ImprovedRealised(g, s, st, u, e);
    assert v != s;
    ImprovedParents(g, st, u, e);
    ImprovedRanked(st, u, e);
    ImprovedCosts(g, s, st, u, e);
    ImprovedCore(g, s, st, u, e);
    ImprovedEdges(g, st, u, i);
    ImprovedLowers(st.d, u, e);
    ExpandingIntro(g, s, st', u, i + 1);
  }

  /** An edge that does not improve its target leaves the state as it is, one more edge relaxed. */
  lemma RelaxSkips(g: Adj, s: Key, st: Search, u: Key, i: nat)
    requires Expanding(g, s, st, u, i)
    requires i < |g[u]|
    requires !Below(Plus(CostOf(st.d, u), g[u][i].cost), CostOf(st.d, g[u][i].to))
    ensures Expanding(g, s, st, u, i + 1)
  {
    assert g[u][..i + 1] == g[u][..i] + [g[u][i]];
  }

  /** Once all of `u`'s edges are relaxed, the invariant between expansions holds again. */
  lemma ExpansionDone(g: Adj, s: Key, st: Search, u: Key)
    requires u in g
    requires Expanding(g, s, st, u, |g[u]|)
    ensures Inv(g, s, st)
  {
    assert g[u][..|g[u]|] == g[u];
  }

  /**
   * When the queue is empty the search is complete: costs are shortest distances, parents form
   * a realising tree, and the expanded vertices are exactly the reachable ones.
   */
  lemma Finished(g: Adj, s: Key, st: Search)
    requires WellFormed(g) && NonNegative(g) && Inv(g, s, st)
    requires st.queued == {}
    ensures ShortestPathTree(g, s, st.d, st.parent)
    ensures forall t :: t in st.settled <==> t in g && Reachable(g, s, t)
    ensures forall t :: t in g && !Reachable(g, s, t) ==> CostOf(st.d, t) == Inf && t !in st.parent
    ensures forall t | CostOf(st.d, t).Fin? || t in st.parent :: t in st.settled
  {
    assert s in st.settled;
    forall t | t in g && Reachable(g, s, t) ensures t in st.settled {
      if t !in st.settled {
        var p :| IsPath(g, p, s, t);
        var x := FrontierWitness(g, s, st, p, s, t);
        assert false;
      }
    }
    forall t | t in st.settled ensures Reachable(g, s, t) {
      var p :| IsPath(g, p, s, t) && PathCost(p) == CostOf(st.d, t).km;
    }
    forall t | t in g ensures IsShortestDistance(g, s, t, CostOf(st.d, t)) {
      if CostOf(st.d, t).Fin? {
        assert t in st.settled;
      }
    }
    forall t | CostOf(st.d, t).Fin? || t in st.parent ensures t in st.settled {
      if t in st.parent {
        assert TreeEdge(g, st.d, st.parent[t], t);
      }
      var p :| IsPath(g, p, s, t) && PathCost(p) == CostOf(st.d, t).km;
    }
  }
}
