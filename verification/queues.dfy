/**
 * Sequence operations behind the priority queues: `java.util.PriorityQueue` is modelled
 * by its contents, and `remove(o)` removes a single instance of `o`.
 */
module QueueContents {
  import opened Costs

  /** No key occurs twice. */
  ghost predicate NoDup(s: seq<Key>)
  {
    forall x :: multiset(s)[x] <= 1
  }

  /** The set of queued keys. */
  ghost function Elems(s: seq<Key>): set<Key>
  {
    set x | x in s
  }

  /** Removes the first occurrence of `x`; a sequence without `x` is returned unchanged. */
  function RemoveFirst(s: seq<Key>, x: Key): (r: seq<Key>)
    ensures x !in s ==> r == s
    ensures multiset(r) == multiset(s) - multiset{x}
  {
    if s == [] then []
    else
      assert s == [s[0]] + s[1..];
      if s[0] == x then s[1..]
      else [s[0]] + RemoveFirst(s[1..], x)
  }

  /** Proof helper: removal shortens the sequence by one exactly when `x` occurs in it. */
  lemma {:induction false} RemoveFirstLength(s: seq<Key>, x: Key)
    ensures |RemoveFirst(s, x)| == if x in s then |s| - 1 else |s|
  {
    if s != [] && s[0] != x {
      RemoveFirstLength(s[1..], x);
      assert x in s <==> x in s[1..];
    }
  }

  /** Removing then appending `x` keeps the keys distinct and makes `x` queued exactly once. */
  lemma RemoveThenAppend(s: seq<Key>, x: Key)
    requires NoDup(s)
    ensures NoDup(RemoveFirst(s, x) + [x])
    ensures Elems(RemoveFirst(s, x) + [x]) == Elems(s) + {x}
    ensures multiset(RemoveFirst(s, x) + [x])[x] == 1
  {
    var r := RemoveFirst(s, x);
    assert multiset(r + [x]) == multiset(s) - multiset{x} + multiset{x};
    forall y ensures y in Elems(r + [x]) <==> y in Elems(s) + {x} {
      assert y in r + [x] <==> y in multiset(r + [x]);
      assert y in s <==> y in multiset(s);
    }
  }

  /** On distinct keys, removal deletes the key outright and keeps the rest distinct. */
  lemma RemoveFirstOfDistinct(s: seq<Key>, x: Key)
    requires NoDup(s)
    ensures NoDup(RemoveFirst(s, x))
    ensures Elems(RemoveFirst(s, x)) == Elems(s) - {x}
  {
    var r := RemoveFirst(s, x);
    forall y ensures y in Elems(r) <==> y in Elems(s) - {x} {
      assert y in r <==> y in multiset(r);
      assert y in s <==> y in multiset(s);
    }
  }
}
