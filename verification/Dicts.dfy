/**
 Python dictionaries: entries in insertion order, at most one per key.  Assigning to a key that is
 present keeps its place; a new key goes to the end.
 */
module Dicts {
  import opened Options
  import opened Ordering

  type Dict<K, V> = seq<(K, V)>

  ghost predicate Distinct<K, V>(d: Dict<K, V>)
  {
    forall i, j | 0 <= i < j < |d| :: d[i].0 != d[j].0
  }

  function IndexOf<K(==), V>(d: Dict<K, V>, key: K): (i: nat)
    ensures i <= |d| && (i < |d| ==> d[i].0 == key)
    ensures forall j | 0 <= j < i :: d[j].0 != key
  {
    if d == [] || d[0].0 == key then 0
    else
      var i := IndexOf(d[1..], key);
      assert forall j | 0 <= j < i :: d[1..][j].0 != key;
      assert forall j | 1 <= j < i + 1 :: d[j] == d[1..][j - 1];
      i + 1
  }

  function Get<K(==), V>(d: Dict<K, V>, key: K): Option<V>
  {
    var i := IndexOf(d, key);
    if i < |d| then Some(d[i].1) else None
  }

  function Put<K(==), V>(d: Dict<K, V>, key: K, value: V): Dict<K, V>
  {
    var i := IndexOf(d, key);
    if i < |d| then d[i := (key, value)] else d + [(key, value)]
  }

  lemma GetIffEntry<K, V>(d: Dict<K, V>, key: K, value: V)
    requires Distinct(d)
    ensures Get(d, key) == Some(value) <==> (key, value) in d
  {
  }

  lemma PutGets<K, V>(d: Dict<K, V>, key: K, value: V, other: K)
    requires Distinct(d)
    ensures Distinct(Put(d, key, value))
    ensures Get(Put(d, key, value), other) == if other == key then Some(value) else Get(d, other)
  {
    var r := Put(d, key, value);
    var i, j := IndexOf(d, other), IndexOf(r, other);
    if other != key {
      assert i < |d| ==> r[i] == d[i];
      assert j < |r| ==> j < |d| && r[j] == d[j];
    } else {
      var at := IndexOf(d, key);
      assert r[at] == (key, value);
      assert forall k | 0 <= k < at :: r[k] == d[k];
    }
  }

  /** Dictionaries that answer every look-up alike hold the same entries. */
  lemma SameLookups<K, V>(a: Dict<K, V>, b: Dict<K, V>)
    requires Distinct(a) && Distinct(b)
    requires forall key :: Get(a, key) == Get(b, key)
    ensures multiset(a) == multiset(b)
  {
    forall entry: (K, V) ensures entry in a <==> entry in b {
      GetIffEntry(a, entry.0, entry.1);
      GetIffEntry(b, entry.0, entry.1);
    }
    SameSetSameMultiset(a, b);
  }

  function KeyOrder<K, V>(le: (K, K) -> bool): ((K, V), (K, V)) -> bool
  {
    (x: (K, V), y: (K, V)) => le(x.0, y.0)
  }

  /** The entries as `sorted(d.items())` lists them; keys being unique, values are never compared. */
  function SortedItems<K, V>(le: (K, K) -> bool, d: Dict<K, V>): Dict<K, V>
  {
    Sort(KeyOrder<K, V>(le), d)
  }

  lemma KeyOrderOrders<K(!new), V(!new)>(le: (K, K) -> bool)
    requires Total(le) && Transitive(le)
    ensures Total(KeyOrder<K, V>(le)) && Transitive(KeyOrder<K, V>(le))
  {
    var order := KeyOrder<K, V>(le);
    assert forall x, y :: order(x, y) == le(x.0, y.0);
    forall x, y ensures order(x, y) || order(y, x) {
      assert le(x.0, y.0) || le(y.0, x.0);
    }
    forall x, y, z | order(x, y) && order(y, z) ensures order(x, z) {
      assert le(x.0, y.0) && le(y.0, z.0);
    }
  }

  /** Sorted items depend only on what the dictionary answers, not on how it was built. */
  lemma SortedItemsSame<K(!new), V(!new)>(le: (K, K) -> bool, a: Dict<K, V>, b: Dict<K, V>)
    requires Total(le) && Transitive(le) && forall x, y | le(x, y) && le(y, x) :: x == y
    requires Distinct(a) && Distinct(b)
    requires forall key :: Get(a, key) == Get(b, key)
    ensures SortedItems(le, a) == SortedItems(le, b)
  {
    SameLookups(a, b);
    KeyOrderOrders<K, V>(le);
    SortIgnoresOrder(KeyOrder<K, V>(le), a, b);
  }
}
