/**
 The union-find forest inside the fusion loop: a list of parents updated in place, with path
 halving on every look-up.  A parent never lies to the right of its child, so every chain ends.
 */
module UnionFind {

  ghost predicate Forest(p: seq<nat>)
  {
    forall i | 0 <= i < |p| :: p[i] <= i
  }

  function Root(p: seq<nat>, i: nat): (r: nat)
    requires Forest(p) && i < |p|
    ensures r <= i && p[r] == r
    decreases i
  {
    if p[i] == i then i else Root(p, p[i])
  }

  /** The forest read as a labelling: every element with the root of its class. */
  function Roots(p: seq<nat>): (rep: seq<nat>)
    requires Forest(p)
    ensures |rep| == |p| && forall i | 0 <= i < |p| :: rep[i] == Root(p, i)
  {
    seq(|p|, i requires 0 <= i < |p| => Root(p, i))
  }

  /** A labelling that names each class by its smallest element. */
  ghost predicate Canonical(rep: seq<nat>)
  {
    forall i | 0 <= i < |rep| :: rep[i] <= i && rep[rep[i]] == rep[i]
  }

  /** The smaller of two labels takes over the other's class. */
  function Merge(rep: seq<nat>, a: nat, b: nat): (r: seq<nat>)
    ensures |r| == |rep|
    ensures forall i | 0 <= i < |rep| ::
              r[i] == if rep[i] == (if a < b then b else a) then (if a < b then a else b) else rep[i]
  {
    var low, high := if a < b then a else b, if a < b then b else a;
    seq(|rep|, i requires 0 <= i < |rep| => if rep[i] == high then low else rep[i])
  }

  lemma RootsCanonical(p: seq<nat>)
    requires Forest(p)
    ensures Canonical(Roots(p))
  {
  }

  /** The label of a class is the least of its elements. */
  lemma LabelIsLeast(rep: seq<nat>, i: nat, j: nat)
    requires Canonical(rep) && i < |rep| && j < |rep| && rep[i] == rep[j]
    ensures rep[i] < |rep| && rep[rep[i]] == rep[i] && rep[i] <= j
  {
  }

  /** Pointing an element at its grandparent moves no element to another class. */
  lemma {:induction false} HalvingKeepsRoot(p: seq<nat>, v: nat, i: nat)
    requires Forest(p) && v < |p| && i < |p|
    ensures Forest(p[v := p[p[v]]]) && Root(p[v := p[p[v]]], i) == Root(p, i)
    decreases i
  {
    if p[i] != i {
      HalvingKeepsRoot(p, v, p[i]);
      if i == v && p[p[v]] != p[v] {
        HalvingKeepsRoot(p, v, p[p[v]]);
      }
    }
  }

  /** Hanging one root below another moves exactly its own class. */
  lemma {:induction false} LinkMovesClass(p: seq<nat>, low: nat, high: nat, i: nat)
    requires Forest(p) && low < high < |p| && p[low] == low && p[high] == high && i < |p|
    ensures Forest(p[high := low])
    ensures Root(p[high := low], i) == if Root(p, i) == high then low else Root(p, i)
    decreases i
  {
    if p[i] != i {
      LinkMovesClass(p, low, high, p[i]);
    }
  }

  /** Follows the parents to the root, halving the path on the way. */
  method Find(parent: array<nat>, value: nat) returns (root: nat)
    requires Forest(parent[..]) && value < parent.Length
    modifies parent
    ensures Forest(parent[..]) && Roots(parent[..]) == old(Roots(parent[..]))
    ensures root == old(Root(parent[..], value))
  {
    root := value;
    while parent[root] != root
      invariant root < parent.Length && Forest(parent[..])
      invariant Roots(parent[..]) == old(Roots(parent[..]))
      invariant Root(parent[..], root) == old(Root(parent[..], value))
      decreases root
    {
      ghost var p, v := parent[..], root;
      forall i | 0 <= i < |p| ensures Forest(p[v := p[p[v]]]) && Root(p[v := p[p[v]]], i) == Root(p, i) {
        HalvingKeepsRoot(p, v, i);
      }
      parent[root] := parent[parent[root]];
      assert parent[..] == p[v := p[p[v]]];
      root := parent[root];
    }
    assert Root(parent[..], root) == root;
  }

  /** The elements labelled `root` among the first `n`, in ascending order. */
  function MembersUpTo(rep: seq<nat>, root: nat, n: nat): (r: seq<nat>)
    requires n <= |rep|
    ensures forall i: nat :: i in r <==> i < n && rep[i] == root
    ensures forall j, k | 0 <= j < k < |r| :: r[j] < r[k]
  {
    if n == 0 then [] else
      var prefix := MembersUpTo(rep, root, n - 1);
      assert forall j | 0 <= j < |prefix| :: prefix[j] in prefix;
      prefix + (if rep[n - 1] == root then [n - 1] else [])
  }

  function Members(rep: seq<nat>, root: nat): (r: seq<nat>)
    ensures forall i: nat :: i in r <==> i < |rep| && rep[i] == root
  {
    MembersUpTo(rep, root, |rep|)
  }

  method CollectMembers(parent: array<nat>, root: nat) returns (members: seq<nat>)
    requires Forest(parent[..])
    modifies parent
    ensures Forest(parent[..]) && Roots(parent[..]) == old(Roots(parent[..]))
    ensures members == Members(old(Roots(parent[..])), root)
  {
    members := [];
    for index := 0 to parent.Length
      invariant Forest(parent[..]) && Roots(parent[..]) == old(Roots(parent[..]))
      invariant members == MembersUpTo(old(Roots(parent[..])), root, index)
    {
      var found := Find(parent, index);
      if found == root {
        members := members + [index];
      }
    }
  }
}
