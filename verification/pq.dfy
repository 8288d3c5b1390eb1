/**
 * The two priority queues of the planner. A `java.util.PriorityQueue` is modelled by the
 * sequence of its entries; `poll` removes some entry of least cost (the heap breaks ties in
 * an order the model leaves open) and `remove(o)` removes one occurrence of `o`.
 */
module PriorityQueues {
  import opened Wrappers
  import opened Costs
  import opened QueueContents

  /** `m` is an entry of `s` whose cost in `cost` is at most that of every entry of `s`. */
  predicate IsMinimum(s: seq<Key>, cost: map<Key, Cost>, m: Key)
  {
    m in s && forall x | x in s :: AtMost(CostOf(cost, m), CostOf(cost, x))
  }

  /** Every non-empty queue has an entry of least cost. */
  lemma {:induction false} MinimumExists(s: seq<Key>, cost: map<Key, Cost>) returns (m: Key)
    requires s != []
    ensures IsMinimum(s, cost, m)
  {
    if |s| == 1 {
      m := s[0];
    } else {
      var t := MinimumExists(s[1..], cost);
      assert forall x | x in s :: x == s[0] || x in s[1..];
      if Below(CostOf(cost, s[0]), CostOf(cost, t)) {
        m := s[0];
        forall x | x in s ensures AtMost(CostOf(cost, m), CostOf(cost, x)) {
          if x != s[0] {
            BelowIsStrictTotalOrder(CostOf(cost, x), CostOf(cost, t), CostOf(cost, m));
          }
        }
      } else {
        m := t;
      }
    }
  }

  /**
   * The search-node queue (`SearchNodePQ`, and `SearchNodeMinPQ` which has the same code):
   * its entries are ordered by the cost each node carries, passed in as `cost`.
   */
  class SearchNodePQ {
    var pq: seq<Key>

    constructor ()
      ensures pq == []
    {
      pq := [];
    }

    function IsEmpty(): (b: bool)
      reads this
      ensures b <==> |pq| == 0
    {
      pq == []
    }

    /** `pq.add(v)`: one more occurrence of `v`. */
    method Insert(v: Key)
      modifies this
      ensures pq == old(pq) + [v]
    {
      pq := pq + [v];
    }

    /** `pq.remove(v)`: one occurrence fewer; a node that is not queued leaves the queue as it was. */
    method Remove(v: Key) returns (removed: bool)
      modifies this
      ensures removed <==> v in old(pq)
      ensures pq == RemoveFirst(old(pq), v)
      ensures !removed ==> pq == old(pq)
    {
      removed := v in pq;
      pq := RemoveFirst(pq, v);
    }

    /** `pq.poll()`: `None` (null) on an empty queue, otherwise a node of least cost, removed once. */
    method ExtractMin(cost: map<Key, Cost>) returns (min: Option<Key>)
      modifies this
      ensures old(pq) == [] ==> min == None && pq == []
      ensures old(pq) != [] ==> min.Some? && IsMinimum(old(pq), cost, min.value)
      ensures min.Some? ==> pq == RemoveFirst(old(pq), min.value)
    {
      if pq == [] {
        min := None;
      } else {
        ghost var w := MinimumExists(pq, cost);
        var m :| IsMinimum(pq, cost, m);
        pq := RemoveFirst(pq, m);
        min := Some(m);
      }
    }
  }

  /**
   * `MinVertexPQ`: a queue of vertices with its own cost table. `update` is "decrease key" done
   * as remove-then-add; extraction leaves the recorded cost in place.
   */
  class MinVertexPQ {
    var q: seq<Key>
    var vertexCost: map<Key, Cost>

    /** Each vertex is queued at most once. */
    ghost predicate Valid()
      reads this
    {
      NoDup(q)
    }

    constructor ()
      ensures Valid() && q == [] && vertexCost == map[]
    {
      q := [];
      vertexCost := map[];
    }

    /** `getOrDefault(v, +infinity)`: a vertex never updated costs +infinity. */
    function Cost(v: Key): (c: Cost)
      reads this
      ensures v !in vertexCost ==> c == Inf
      ensures v in vertexCost ==> c == vertexCost[v]
    {
      CostOf(vertexCost, v)
    }

    function IsEmpty(): (b: bool)
      reads this
      ensures b <==> |q| == 0
    {
      q == []
    }

    /** Removes and returns a vertex of least recorded cost; `None` (null) when the queue is empty. */
    method ExtractMinCostVertex() returns (min: Option<Key>)
      requires Valid()
      modifies this`q
      ensures Valid()
      ensures old(q) == [] ==> min == None && q == []
      ensures old(q) != [] ==> min.Some? && IsMinimum(old(q), vertexCost, min.value)
      ensures min.Some? ==> q == RemoveFirst(old(q), min.value)
      ensures min.Some? ==> Elems(q) == Elems(old(q)) - {min.value}
    {
      if q == [] {
        min := None;
      } else {
        ghost var w := MinimumExists(q, vertexCost);
        var m :| IsMinimum(q, vertexCost, m);
        RemoveFirstOfDistinct(q, m);
        q := RemoveFirst(q, m);
        min := Some(m);
      }
    }

    /** Records cost `c` for `v` and (re)queues it: afterwards `v` is queued exactly once. */
    method Update(v: Key, c: Cost)
      requires Valid()
      modifies this
      ensures Valid()
      ensures vertexCost == old(vertexCost)[v := c]
      ensures q == RemoveFirst(old(q), v) + [v]
      ensures Elems(q) == Elems(old(q)) + {v}
      ensures |q| == if v in old(q) then |old(q)| else |old(q)| + 1
    {
      ghost var q0 := q;
      RemoveThenAppend(q0, v);
      RemoveFirstLength(q0, v);
      var removed := Remove(v);
      vertexCost := vertexCost[v := c];
      q := q + [v];
      assert q == RemoveFirst(q0, v) + [v];
    }

    /** `q.remove(v)`: removes `v` if queued, and says whether it was. */
    method Remove(v: Key) returns (removed: bool)
      requires Valid()
      modifies this`q
      ensures Valid()
      ensures removed <==> v in old(q)
      ensures q == RemoveFirst(old(q), v)
      ensures Elems(q) == Elems(old(q)) - {v}
    {
      RemoveFirstOfDistinct(q, v);
      removed := v in q;
      q := RemoveFirst(q, v);
    }
  }
}
