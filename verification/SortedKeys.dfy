/** The keys of a dictionary in ascending order, as `sorted(d.items())` visits them. */
module SortedKeys {

  function Least(s: set<int>): (m: int)
    requires s != {}
    ensures m in s && forall k | k in s :: m <= k
  {
    LeastExists(s);
    var m :| m in s && forall k | k in s :: m <= k;
    m
  }

  lemma EmptyOrNot(s: set<int>)
    ensures s == {} || exists x :: x in s
  {
    if forall x :: x !in s {
      assert s == {};
    }
  }

  lemma LeastExists(s: set<int>)
    requires s != {}
    ensures exists m :: m in s && forall k | k in s :: m <= k
  {
    EmptyOrNot(s);
    var x :| x in s;
    var m := LeastBelow(s, x);
  }

  lemma {:induction false} LeastBelow(s: set<int>, x: int) returns (m: int)
    requires x in s
    ensures m in s && m <= x && forall k | k in s :: m <= k
  {
    if y :| y in s && y < x {
      m := LeastBelow(s - {x}, y);
      assert forall k | k in s :: k == x || k in s - {x};
    } else {
      m := x;
    }
  }

  function Ascending(s: set<int>): (r: seq<int>)
    ensures forall k :: k in r <==> k in s
    ensures forall i, j | 0 <= i < j < |r| :: r[i] < r[j]
  {
    if s == {} then []
    else
      var m := Least(s);
      var rest := Ascending(s - {m});
      assert forall i | 0 <= i < |rest| :: rest[i] in rest;
      [m] + rest
  }

  predicate Rising(s: seq<int>)
  {
    forall i, j | 0 <= i < j < |s| :: s[i] < s[j]
  }

  function Elements(s: seq<int>): set<int>
  {
    set k | k in s
  }

  lemma SomeElement(s: seq<int>)
    ensures s == [] <==> Elements(s) == {}
  {
    if s != [] {
      assert s[0] in Elements(s);
    }
  }

  /** Only one rising sequence has given elements. */
  lemma {:induction false} RisingUnique(a: seq<int>, b: seq<int>)
    requires Rising(a) && Rising(b) && Elements(a) == Elements(b)
    ensures a == b
  {
    SomeElement(a);
    SomeElement(b);
    if a != [] {
      assert a[0] in Elements(b) && b[0] in Elements(a);
      forall k ensures k in Elements(a[1..]) <==> k in Elements(b[1..]) {
        TailHas(a, k);
        TailHas(b, k);
        assert k in Elements(a) <==> k in Elements(b);
      }
      RisingUnique(a[1..], b[1..]);
    }
  }

  lemma TailHas(s: seq<int>, k: int)
    requires s != [] && Rising(s)
    ensures k in s[1..] <==> k in s && k != s[0]
  {
  }

  /** The keys that are left when some are passed over. */
  function Except(keys: seq<int>, out: set<int>): (r: seq<int>)
    ensures forall k :: k in r <==> k in keys && k !in out
  {
    if keys == [] then []
    else (if keys[0] in out then [] else [keys[0]]) + Except(keys[1..], out)
  }

  lemma {:induction false} ExceptRising(keys: seq<int>, out: set<int>)
    requires Rising(keys)
    ensures Rising(Except(keys, out))
  {
    if keys != [] {
      ExceptRising(keys[1..], out);
      var rest := Except(keys[1..], out);
      forall i | 0 <= i < |rest| ensures keys[0] < rest[i] {
        assert rest[i] in keys[1..];
      }
    }
  }

  lemma ExceptAscending(s: set<int>, out: set<int>)
    ensures Except(Ascending(s), out) == Ascending(s - out)
  {
    hide Ascending, Except;
    ExceptRising(Ascending(s), out);
    RisingUnique(Except(Ascending(s), out), Ascending(s - out));
  }
}
