/** Optional values (Java's null references and `Optional` results) and outcomes that may be an exception. */
module Wrappers {
  datatype Option<T> = None | Some(value: T)

  datatype Result<T, E> = Success(value: T) | Failure(error: E)
}

/**
 * Keys, edges and path costs shared by every part of the route planner.
 * Java `float` costs are modelled as exact reals; `Float.POSITIVE_INFINITY`,
 * which the planner uses for "not reached yet", is the explicit value `Inf`.
 */
module Costs {

  /** Vertices are identified by their keys (object identity becomes key equality). */
  type Key = string

  /** A directed, weighted edge `from -> to`. */
  datatype Edge = Edge(from: Key, to: Key, cost: real)

  /** A tentative path cost: finite kilometres or +infinity. */
  datatype Cost = Fin(km: real) | Inf

  /** Strict `<` on costs, as `Float.compare` orders them: every finite value is below +infinity. */
  predicate Below(a: Cost, b: Cost)
  {
    match (a, b)
    case (Fin(x), Fin(y)) => x < y
    case (Fin(_), Inf) => true
    case (Inf, _) => false
  }

  /** `a <= b`. */
  predicate AtMost(a: Cost, b: Cost)
  {
    !Below(b, a)
  }

  /** `a + w`, where +infinity absorbs every finite weight. */
  function Plus(a: Cost, w: real): (r: Cost)
    ensures r.Inf? <==> a.Inf?
    ensures a.Fin? ==> r.km == a.km + w
  {
    match a
    case Fin(x) => Fin(x + w)
    case Inf => Inf
  }

  /** `getOrDefault(k, +infinity)` on a cost table. */
  function CostOf(table: map<Key, Cost>, k: Key): (r: Cost)
    ensures k !in table ==> r == Inf
    ensures k in table ==> r == table[k]
  {
    if k in table then table[k] else Inf
  }

  /** Below is a strict total order: irreflexive, transitive and total. */
  lemma BelowIsStrictTotalOrder(a: Cost, b: Cost, c: Cost)
    ensures !Below(a, a)
    ensures Below(a, b) && Below(b, c) ==> Below(a, c)
    ensures a != b ==> Below(a, b) || Below(b, a)
  {
  }
}
