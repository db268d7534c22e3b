/** Optional values, as used throughout the model for Python's `None`. */
module Options {
  datatype Option<+T> = None | Some(value: T)
}

/**
 The orders the program sorts by, and its stable sort.  Python compares strings by code point
 from the left, and `sorted` keeps elements with equal keys in their original order.
 */
module Ordering {

  predicate StringLe(a: string, b: string)
  {
    a == [] || (b != [] && (a[0] < b[0] || (a[0] == b[0] && StringLe(a[1..], b[1..]))))
  }

  lemma {:induction false} StringLeTotal(a: string, b: string)
    ensures StringLe(a, b) || StringLe(b, a)
  {
    if a != [] && b != [] && a[0] == b[0] {
      StringLeTotal(a[1..], b[1..]);
    }
  }

  lemma {:induction false} StringLeAntisymmetric(a: string, b: string)
    requires StringLe(a, b) && StringLe(b, a)
    ensures a == b
  {
    if a != [] && b != [] {
      StringLeAntisymmetric(a[1..], b[1..]);
      assert a == [a[0]] + a[1..] && b == [b[0]] + b[1..];
    }
  }

  lemma {:induction false} StringLeTransitive(a: string, b: string, c: string)
    requires StringLe(a, b) && StringLe(b, c)
    ensures StringLe(a, c)
  {
    if a != [] && b != [] && c != [] && a[0] == b[0] == c[0] {
      StringLeTransitive(a[1..], b[1..], c[1..]);
    }
  }

  ghost predicate Total<T(!new)>(le: (T, T) -> bool)
  {
    forall a, b :: le(a, b) || le(b, a)
  }

  ghost predicate Transitive<T(!new)>(le: (T, T) -> bool)
  {
    forall a, b, c :: le(a, b) && le(b, c) ==> le(a, c)
  }

  ghost predicate Sorted<T>(le: (T, T) -> bool, s: seq<T>)
  {
    forall i, j | 0 <= i < j < |s| :: le(s[i], s[j])
  }

  /** No two different elements of `s` have equal keys. */
  ghost predicate NoTies<T>(le: (T, T) -> bool, s: seq<T>)
  {
    forall i, j | 0 <= i < |s| && 0 <= j < |s| && le(s[i], s[j]) && le(s[j], s[i]) :: s[i] == s[j]
  }

  lemma StringOrder()
    ensures Total(StringLe) && Transitive(StringLe)
  {
    forall a, b ensures StringLe(a, b) || StringLe(b, a) {
      StringLeTotal(a, b);
    }
    forall a, b, c | StringLe(a, b) && StringLe(b, c) ensures StringLe(a, c) {
      StringLeTransitive(a, b, c);
    }
  }

  /** Tuples compare by their first components, then by their second. */
  predicate PairLe(a: (string, string), b: (string, string))
  {
    if a.0 == b.0 then StringLe(a.1, b.1) else StringLe(a.0, b.0)
  }

  lemma PairLeAntisymmetric(a: (string, string), b: (string, string))
    requires PairLe(a, b) && PairLe(b, a)
    ensures a == b
  {
    if a.0 == b.0 {
      StringLeAntisymmetric(a.1, b.1);
    } else {
      StringLeAntisymmetric(a.0, b.0);
    }
  }

  lemma PairOrder()
    ensures Total(PairLe) && Transitive(PairLe)
  {
    forall a, b ensures PairLe(a, b) || PairLe(b, a) {
      StringLeTotal(a.0, b.0);
      StringLeTotal(a.1, b.1);
    }
    forall a, b, c | PairLe(a, b) && PairLe(b, c) ensures PairLe(a, c) {
      if a.0 == b.0 == c.0 {
        StringLeTransitive(a.1, b.1, c.1);
      } else {
        StringLeTotal(a.0, a.0);
        StringLeTotal(b.0, b.0);
        StringLeTransitive(a.0, b.0, c.0);
        if a.0 == c.0 {
          StringLeAntisymmetric(a.0, b.0);
        }
      }
    }
  }

  /** The place behind every element of `s`, counted from the right, that is not above `x`. */
  function Place<T>(le: (T, T) -> bool, s: seq<T>, x: T): (p: nat)
    ensures p <= |s|
  {
    if s == [] || le(s[|s| - 1], x) then |s| else Place(le, s[..|s| - 1], x)
  }

  function Insert<T>(le: (T, T) -> bool, s: seq<T>, x: T): (r: seq<T>)
    ensures multiset(r) == multiset(s) + multiset{x}
    ensures |r| == |s| + 1
  {
    var p := Place(le, s, x);
    assert s == s[..p] + s[p..];
    s[..p] + [x] + s[p..]
  }

  function Sort<T>(le: (T, T) -> bool, s: seq<T>): (r: seq<T>)
    ensures multiset(r) == multiset(s)
    ensures |r| == |s|
  {
    if s == [] then []
    else
      assert s == s[..|s| - 1] + [s[|s| - 1]];
      Insert(le, Sort(le, s[..|s| - 1]), s[|s| - 1])
  }

  lemma {:induction false} PlaceAbove<T>(le: (T, T) -> bool, s: seq<T>, x: T)
    ensures forall i | Place(le, s, x) <= i < |s| :: !le(s[i], x)
    ensures Place(le, s, x) > 0 ==> le(s[Place(le, s, x) - 1], x)
  {
    if s != [] && !le(s[|s| - 1], x) {
      PlaceAbove(le, s[..|s| - 1], x);
    }
  }

  lemma PlaceBelow<T(!new)>(le: (T, T) -> bool, s: seq<T>, x: T)
    requires Transitive(le) && Sorted(le, s)
    ensures forall i | 0 <= i < Place(le, s, x) :: le(s[i], x)
  {
    var p := Place(le, s, x);
    PlaceAbove(le, s, x);
    forall i | 0 <= i < p ensures le(s[i], x) {
      if i < p - 1 {
        assert le(s[i], s[p - 1]);
      }
    }
  }

  lemma InsertAt<T>(le: (T, T) -> bool, s: seq<T>, x: T, k: nat)
    requires k <= |s|
    ensures var p := Place(le, s, x);
            Insert(le, s, x)[k] == if k < p then s[k] else if k == p then x else s[k - 1]
  {
    hide Place;
  }

  lemma InsertSorts<T(!new)>(le: (T, T) -> bool, s: seq<T>, x: T)
    requires Total(le) && Transitive(le) && Sorted(le, s)
    ensures Sorted(le, Insert(le, s, x))
  {
    hide Insert, Place;
    var p, r := Place(le, s, x), Insert(le, s, x);
    PlaceAbove(le, s, x);
    PlaceBelow(le, s, x);
    hide Transitive;
    forall i, j | 0 <= i < j < |r| ensures le(r[i], r[j]) {
      InsertAt(le, s, x, i);
      InsertAt(le, s, x, j);
    }
  }

  lemma {:induction false} SortSorts<T(!new)>(le: (T, T) -> bool, s: seq<T>)
    requires Total(le) && Transitive(le)
    ensures Sorted(le, Sort(le, s))
  {
    if s != [] {
      SortSorts(le, s[..|s| - 1]);
      InsertSorts(le, Sort(le, s[..|s| - 1]), s[|s| - 1]);
    }
  }

  /** An element that is not below the last one goes to the end. */
  lemma InsertBehind<T>(le: (T, T) -> bool, s: seq<T>, x: T)
    requires s != [] ==> le(s[|s| - 1], x)
    ensures Insert(le, s, x) == s + [x]
  {
    assert s[..|s|] == s && s[|s|..] == [];
  }

  lemma SortSnoc<T>(le: (T, T) -> bool, s: seq<T>)
    requires s != []
    ensures Sort(le, s) == Insert(le, Sort(le, s[..|s| - 1]), s[|s| - 1])
  {
  }

  lemma {:induction false} SortKeepsSorted<T>(le: (T, T) -> bool, s: seq<T>)
    requires Sorted(le, s)
    ensures Sort(le, s) == s
  {
    if s != [] {
      hide Sort, Insert;
      var init, last := s[..|s| - 1], s[|s| - 1];
      SortKeepsSorted(le, init);
      assert init != [] ==> le(init[|init| - 1], last);
      InsertBehind(le, init, last);
      SortSnoc(le, s);
    }
  }

  lemma TailMultiset<T>(s: seq<T>)
    requires s != []
    ensures multiset(s[1..]) == multiset(s) - multiset{s[0]}
  {
    assert s == [s[0]] + s[1..];
  }

  lemma SameElements<T>(a: seq<T>, b: seq<T>)
    requires multiset(a) == multiset(b)
    ensures |a| == |b| && forall x :: x in a <==> x in b
  {
    assert |multiset(a)| == |a| && |multiset(b)| == |b|;
    forall x ensures x in a <==> x in b {
      assert x in a <==> x in multiset(a);
      assert x in b <==> x in multiset(b);
    }
  }

  /** Two sorted arrangements of the same elements are equal when no two elements tie. */
  lemma {:induction false} SortedUnique<T>(le: (T, T) -> bool, a: seq<T>, b: seq<T>)
    requires Sorted(le, a) && Sorted(le, b) && multiset(a) == multiset(b)
    requires NoTies(le, a)
    ensures a == b
  {
    SameElements(a, b);
    if a != [] {
      assert b[0] in a && a[0] in b;
      assert a[0] == b[0];
      TailMultiset(a);
      TailMultiset(b);
      SortedUnique(le, a[1..], b[1..]);
    }
  }

  /** Sorting forgets the order the elements came in, when no two of them tie. */
  lemma SortIgnoresOrder<T(!new)>(le: (T, T) -> bool, a: seq<T>, b: seq<T>)
    requires Total(le) && Transitive(le) && multiset(a) == multiset(b)
    requires NoTies(le, a)
    ensures Sort(le, a) == Sort(le, b)
  {
    SortSorts(le, a);
    SortSorts(le, b);
    var s := Sort(le, a);
    SameElements(a, s);
    forall i, j | 0 <= i < |s| && 0 <= j < |s| && le(s[i], s[j]) && le(s[j], s[i])
      ensures s[i] == s[j]
    {
      assert s[i] in a && s[j] in a;
    }
    SortedUnique(le, s, Sort(le, b));
  }

  lemma TailOfConcat<T>(a: seq<T>, b: seq<T>)
    requires a != []
    ensures a + b != [] && (a + b)[0] == a[0] && (a + b)[1..] == a[1..] + b
  {
  }

  lemma ConcatAssoc<T>(a: seq<T>, b: seq<T>, c: seq<T>)
    ensures a + (b + c) == a + b + c
  {
  }

  function Map<T, U>(f: T -> U, s: seq<T>): (r: seq<U>)
    ensures |r| == |s| && forall i | 0 <= i < |s| :: r[i] == f(s[i])
  {
    seq(|s|, i requires 0 <= i < |s| => f(s[i]))
  }

  lemma MapConcat<T, U>(f: T -> U, a: seq<T>, b: seq<T>)
    ensures Map(f, a + b) == Map(f, a) + Map(f, b)
  {
  }

  function Without<T>(s: seq<T>, i: nat): (r: seq<T>)
    requires i < |s|
    ensures |r| == |s| - 1 && multiset(r) == multiset(s) - multiset{s[i]}
  {
    assert s == s[..i] + ([s[i]] + s[i + 1..]);
    s[..i] + s[i + 1..]
  }

  lemma MapWithout<T, U>(f: T -> U, s: seq<T>, i: nat)
    requires i < |s|
    ensures Map(f, Without(s, i)) == Without(Map(f, s), i)
  {
  }

  lemma MultisetInsert<T>(whole: multiset<T>, x: T)
    requires x in whole
    ensures whole == whole - multiset{x} + multiset{x}
  {
  }

  /** Mapping a rearrangement gives a rearrangement. */
  lemma {:induction false} MapPermutation<T, U>(f: T -> U, a: seq<T>, b: seq<T>)
    requires multiset(a) == multiset(b)
    ensures multiset(Map(f, a)) == multiset(Map(f, b))
    decreases |a|
  {
    hide Map, Without;
    SameElements(a, b);
    if a != [] {
      assert a[0] in b;
      var i :| 0 <= i < |b| && b[i] == a[0];
      MapPermutation(f, Without(a, 0), Without(b, i));
      MapWithout(f, a, 0);
      MapWithout(f, b, i);
      assert Map(f, a)[0] in Map(f, a) && Map(f, b)[i] in Map(f, b);
      MultisetInsert(multiset(Map(f, a)), f(a[0]));
      MultisetInsert(multiset(Map(f, b)), f(a[0]));
    }
  }

  ghost predicate NoDuplicates<T>(s: seq<T>)
  {
    forall i, j | 0 <= i < j < |s| :: s[i] != s[j]
  }

  lemma {:induction false} OccursOnce<T>(s: seq<T>, x: T)
    requires NoDuplicates(s)
    ensures multiset(s)[x] == if x in s then 1 else 0
  {
    if s != [] {
      var init, last := s[..|s| - 1], s[|s| - 1];
      assert s == init + [last];
      OccursOnce(init, x);
    }
  }

  /** Without duplicates, the same elements are the same arrangement up to order. */
  lemma SameSetSameMultiset<T>(a: seq<T>, b: seq<T>)
    requires NoDuplicates(a) && NoDuplicates(b) && forall x :: x in a <==> x in b
    ensures multiset(a) == multiset(b)
  {
    forall x ensures multiset(a)[x] == multiset(b)[x] {
      OccursOnce(a, x);
      OccursOnce(b, x);
    }
  }

  lemma WithoutNoDuplicates<T>(s: seq<T>, i: nat)
    requires NoDuplicates(s) && i < |s|
    ensures NoDuplicates(Without(s, i)) && s[i] !in Without(s, i)
  {
    var r := Without(s, i);
    assert forall k | 0 <= k < |r| :: r[k] == if k < i then s[k] else s[k + 1];
  }

  lemma {:induction false} NoDuplicatesPermutation<T>(a: seq<T>, b: seq<T>)
    requires NoDuplicates(a) && multiset(a) == multiset(b)
    ensures NoDuplicates(b)
    decreases |b|
  {
    SameElements(a, b);
    if b != [] {
      assert b[0] in a;
      var i :| 0 <= i < |a| && a[i] == b[0];
      WithoutNoDuplicates(a, i);
      NoDuplicatesPermutation(Without(a, i), Without(b, 0));
      SameElements(Without(a, i), Without(b, 0));
      assert forall k | 1 <= k < |b| :: b[k] == Without(b, 0)[k - 1];
    }
  }

  ghost predicate Pairwise<T>(rel: (T, T) -> bool, s: seq<T>)
  {
    forall i, j | 0 <= i < j < |s| :: rel(s[i], s[j])
  }

  ghost predicate Symmetric<T(!new)>(rel: (T, T) -> bool)
  {
    forall x, y :: rel(x, y) ==> rel(y, x)
  }

  /** What holds between any two elements, either way round, holds in any order of them. */
  lemma {:induction false} PairwisePermutation<T(!new)>(rel: (T, T) -> bool, a: seq<T>, b: seq<T>)
    requires Symmetric(rel) && Pairwise(rel, a) && multiset(a) == multiset(b)
    ensures Pairwise(rel, b)
    decreases |b|
  {
    hide Without, Pairwise, Symmetric;
    SameElements(a, b);
    if b == [] {
      NothingPairs(rel);
    } else {
      assert b[0] in a;
      var i :| 0 <= i < |a| && a[i] == b[0];
      var others := Without(a, i);
      PairwiseWithout(rel, a, i);
      PairwisePermutation(rel, others, Without(b, 0));
      SameElements(others, Without(b, 0));
      PairwiseWith(rel, b);
    }
  }

  lemma NothingPairs<T(!new)>(rel: (T, T) -> bool)
    ensures Pairwise(rel, [])
  {
  }

  lemma PairwiseWith<T(!new)>(rel: (T, T) -> bool, s: seq<T>)
    requires s != [] && Pairwise(rel, Without(s, 0)) && forall x | x in Without(s, 0) :: rel(s[0], x)
    ensures Pairwise(rel, s)
  {
    var rest := Without(s, 0);
    forall j, k | 0 <= j < k < |s| ensures rel(s[j], s[k]) {
      assert rest[k - 1] == s[k];
      if j > 0 {
        assert rest[j - 1] == s[j];
      }
    }
  }

  lemma PairwiseWithout<T(!new)>(rel: (T, T) -> bool, s: seq<T>, i: nat)
    requires Symmetric(rel) && Pairwise(rel, s) && i < |s|
    ensures Pairwise(rel, Without(s, i)) && forall x | x in Without(s, i) :: rel(s[i], x)
  {
    var r := Without(s, i);
    assert forall k | 0 <= k < |r| :: r[k] == if k < i then s[k] else s[k + 1];
    forall x | x in r ensures rel(s[i], x) {
      var k :| 0 <= k < |r| && r[k] == x;
    }
  }
}
