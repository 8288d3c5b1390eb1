/**
 * Ordering by name: `String.compareTo` (lexicographic on characters, a proper prefix first)
 * and the stable sort that `Stream.sorted` performs with it. The road maps list their
 * points and locations in this order.
 */
module Names {
  import opened Wrappers
  import opened Costs

  /** `a.compareTo(b) < 0`: at the first differing character `a` is smaller, or `a` is a proper prefix of `b`. */
  predicate NameLess(a: string, b: string)
  {
    if a == [] then b != []
    else if b == [] then false
    else if a[0] != b[0] then a[0] < b[0]
    else NameLess(a[1..], b[1..])
  }

  /** No name precedes itself. */
  lemma {:induction false} NameLessIrreflexive(a: string)
    ensures !NameLess(a, a)
  {
    if a != [] {
      NameLessIrreflexive(a[1..]);
    }
  }

  /** Any two names are equal or ordered one way round. */
  lemma {:induction false} NameLessTotal(a: string, b: string)
    ensures NameLess(a, b) || a == b || NameLess(b, a)
  {
    if a != [] && b != [] && a[0] == b[0] {
      NameLessTotal(a[1..], b[1..]);
      if a[1..] == b[1..] {
        assert a == [a[0]] + a[1..] && b == [b[0]] + b[1..];
      }
    }
  }

  /** The order is transitive. */
  lemma {:induction false} NameLessTransitive(a: string, b: string, c: string)
    requires NameLess(a, b) && NameLess(b, c)
    ensures NameLess(a, c)
  {
    if a != [] && b != [] && c != [] && a[0] == b[0] && b[0] == c[0] {
      NameLessTransitive(a[1..], b[1..], c[1..]);
    }
  }

  /** Never both `a < b` and `b < a`. */
  lemma {:induction false} NameLessAsymmetric(a: string, b: string)
    ensures !(NameLess(a, b) && NameLess(b, a))
  {
    if NameLess(a, b) && NameLess(b, a) {
      NameLessTransitive(a, b, a);
      NameLessIrreflexive(a);
    }
  }

  /** The keys of `keys` are listed in non-decreasing order of their names. */
  ghost predicate SortedByName<P>(keys: seq<Key>, table: map<Key, P>, name: P -> string)
    requires forall k | k in keys :: k in table
  {
    forall i, j | 0 <= i < j < |keys| :: !NameLess(name(table[keys[j]]), name(table[keys[i]]))
  }

  /** Inserts `k` before the first key whose name is not smaller than its own. */
  function InsertByName<P>(k: Key, sorted: seq<Key>, table: map<Key, P>, name: P -> string): (r: seq<Key>)
    requires k in table && forall x | x in sorted :: x in table
    ensures multiset(r) == multiset(sorted) + multiset{k}
    ensures forall x | x in r :: x in table
  {
    if sorted == [] || !NameLess(name(table[sorted[0]]), name(table[k])) then [k] + sorted
    else
      assert sorted == [sorted[0]] + sorted[1..];
      [sorted[0]] + InsertByName(k, sorted[1..], table, name)
  }

  /** Inserting into a sorted list keeps it sorted. */
  lemma {:induction false} InsertKeepsSorted<P>(k: Key, sorted: seq<Key>, table: map<Key, P>, name: P -> string)
    requires k in table && forall x | x in sorted :: x in table
    requires SortedByName(sorted, table, name)
    ensures SortedByName(InsertByName(k, sorted, table, name), table, name)
  {
    var r := InsertByName(k, sorted, table, name);
    if sorted == [] || !NameLess(name(table[sorted[0]]), name(table[k])) {
      forall i, j | 0 <= i < j < |r| ensures !NameLess(name(table[r[j]]), name(table[r[i]])) {
        if i == 0 && j > 1 {
          var a, b, c := name(table[k]), name(table[sorted[0]]), name(table[r[j]]);
          if NameLess(c, a) {
            NameLessTotal(a, b);
            if NameLess(a, b) {
              NameLessTransitive(c, a, b);
            }
          }
        }
      }
    } else {
      var tail := InsertByName(k, sorted[1..], table, name);
      InsertKeepsSorted(k, sorted[1..], table, name);
      assert r == [sorted[0]] + tail;
      forall i, j | 0 <= i < j < |r| ensures !NameLess(name(table[r[j]]), name(table[r[i]])) {
        if i == 0 {
          var x := r[j];
          assert x in multiset(tail);
          assert x == k || x in multiset(sorted[1..]);
          if x == k {
            NameLessAsymmetric(name(table[sorted[0]]), name(table[k]));
          } else {
            var m :| 1 <= m < |sorted| && sorted[m] == x;
          }
        }
      }
    }
  }

  /** `Stream.sorted` by name: an insertion sort that keeps keys of equal name in their order. */
  function SortByName<P>(keys: seq<Key>, table: map<Key, P>, name: P -> string): (r: seq<Key>)
    requires forall k | k in keys :: k in table
    ensures multiset(r) == multiset(keys)
    ensures forall x | x in r :: x in table
  {
    if keys == [] then []
    else
      assert keys == [keys[0]] + keys[1..];
      InsertByName(keys[0], SortByName(keys[1..], table, name), table, name)
  }

  /** The sorted list is in name order and holds the same keys, each as often as before. */
  lemma {:induction false} SortByNameSorted<P>(keys: seq<Key>, table: map<Key, P>, name: P -> string)
    requires forall k | k in keys :: k in table
    ensures SortedByName(SortByName(keys, table, name), table, name)
    ensures multiset(SortByName(keys, table, name)) == multiset(keys)
  {
    if keys != [] {
      SortByNameSorted(keys[1..], table, name);
      InsertKeepsSorted(keys[0], SortByName(keys[1..], table, name), table, name);
    }
  }

  /** The index of the first key of `keys` whose name is `n`, if there is one (see `FirstNamedIsFirst`). */
  function FirstNamed<P>(keys: seq<Key>, table: map<Key, P>, name: P -> string, n: string): (r: Option<nat>)
    requires forall k | k in keys :: k in table
    ensures r.Some? ==> r.value < |keys| && name(table[keys[r.value]]) == n
  {
    if keys == [] then None
    else if name(table[keys[0]]) == n then Some(0)
    else match FirstNamed(keys[1..], table, name, n)
      case None => None
      case Some(i) => Some(i + 1)
  }

  /** `FirstNamed` finds the earliest key named `n`, and finds nothing only when no key has that name. */
  lemma {:induction false} FirstNamedIsFirst<P>(keys: seq<Key>, table: map<Key, P>, name: P -> string, n: string)
    requires forall k | k in keys :: k in table
    ensures FirstNamed(keys, table, name, n).Some? ==>
      forall i | 0 <= i < FirstNamed(keys, table, name, n).value :: name(table[keys[i]]) != n
    ensures FirstNamed(keys, table, name, n).None? ==> forall i | 0 <= i < |keys| :: name(table[keys[i]]) != n
  {
    if keys != [] && name(table[keys[0]]) != n {
      FirstNamedIsFirst(keys[1..], table, name, n);
      forall i | 1 <= i < |keys| ensures keys[i] == keys[1..][i - 1] { }
    }
  }
}
