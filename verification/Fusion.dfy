/**
 Fusion of source records into physical assets: every pair is classified, strong pairs are
 united unless their clusters may not be, and the statistics are read off the result.

 `Clusters` says what the loop over the pairs computes; the methods at the end compute it with
 the union-find forest, and the lemmas in between say what it guarantees.
 */
module Fusion {
  import opened Identity
  import opened UnionFind

  datatype Edge = Edge(left: nat, right: nat, confidence: Confidence, matchedOn: seq<string>)
  datatype Candidate = Candidate(left: nat, right: nat, matchedOn: seq<string>, reason: string)

  /** `joined` counts the unions that joined two classes; the other three are the loop's own variables. */
  datatype Clustering = Clustering(rep: seq<nat>, edges: seq<Edge>, low: seq<Candidate>, joined: nat)

  const CONFLICT := "cluster identity conflict"

  function Serials(records: seq<Record>, members: seq<nat>): (r: set<string>)
    requires forall i | i in members :: i < |records|
  {
    set i | i in members && records[i].evidence.serial != "" :: records[i].evidence.serial
  }

  predicate TypesAgree(records: seq<Record>, left: seq<nat>, right: seq<nat>)
    requires forall i | i in left :: i < |records|
    requires forall i | i in right :: i < |records|
  {
    forall i, j | i in left && j in right ::
      CompatibleTypes(records[i].evidence.deviceType, records[j].evidence.deviceType)
  }

  /** The veto on joining two clusters, as the loop decides it. */
  predicate MayJoin(records: seq<Record>, left: seq<nat>, right: seq<nat>)
    requires forall i | i in left :: i < |records|
    requires forall i | i in right :: i < |records|
  {
    var ls, rs := Serials(records, left), Serials(records, right);
    !(ls != {} && rs != {} && ls != rs) && TypesAgree(records, left, right)
  }

  function EdgeOf(records: seq<Record>, l: nat, r: nat): Edge
    requires l < |records| && r < |records|
  {
    var m := ClassifyMatch(records[l], records[r]);
    Edge(l, r, m.confidence, m.matchedOn)
  }

  function Step(records: seq<Record>, st: Clustering, l: nat, r: nat): (next: Clustering)
    requires |st.rep| == |records| && l < |records| && r < |records|
    ensures |next.rep| == |records|
  {
    var m := ClassifyMatch(records[l], records[r]);
    var a, b := st.rep[l], st.rep[r];
    if Strong(m.confidence) then
      if a == b then st.(edges := st.edges + [EdgeOf(records, l, r)])
      else if MayJoin(records, Members(st.rep, a), Members(st.rep, b)) then
        st.(rep := Merge(st.rep, a, b), edges := st.edges + [EdgeOf(records, l, r)], joined := st.joined + 1)
      else st.(low := st.low + [Candidate(l, r, m.matchedOn, CONFLICT)])
    else if m.confidence == Low then st.(low := st.low + [Candidate(l, r, m.matchedOn, m.reason)])
    else st
  }

  /** The pairs from (l, r) on, in the order of the two nested loops. */
  function FuseFrom(records: seq<Record>, st: Clustering, l: nat, r: nat): (final: Clustering)
    requires |st.rep| == |records| && l < r
    ensures |final.rep| == |records|
    decreases |records| - l, |records| - r
  {
    if l >= |records| then st
    else if r >= |records| then FuseFrom(records, st, l + 1, l + 2)
    else FuseFrom(records, Step(records, st, l, r), l, r + 1)
  }

  function Initial(n: nat): (st: Clustering)
    ensures |st.rep| == n && forall i | 0 <= i < n :: st.rep[i] == i
  {
    Clustering(seq(n, i => i), [], [], 0)
  }

  function Clusters(records: seq<Record>): (st: Clustering)
    ensures |st.rep| == |records|
  {
    FuseFrom(records, Initial(|records|), 0, 1)
  }

  // --- what every point of the pair loop keeps ----------------------------------------------

  /** Pair (i, j) comes before pair (l, r) in the loop. */
  predicate Before(i: nat, j: nat, l: nat, r: nat)
  {
    i < j && (i < l || (i == l && j < r))
  }

  /** Each cluster holds at most one serial, and only pairwise compatible types. */
  ghost predicate Safe(records: seq<Record>, rep: seq<nat>)
    requires |rep| == |records|
  {
    forall i, j | 0 <= i < |rep| && 0 <= j < |rep| && rep[i] == rep[j] :: Agree(records[i], records[j])
  }

  /** Some record of i's cluster and some record of j's cluster could not share a cluster. */
  ghost predicate Blocked(records: seq<Record>, rep: seq<nat>, i: nat, j: nat)
    requires |rep| == |records| && i < |rep| && j < |rep|
  {
    exists x, y | 0 <= x < |rep| && 0 <= y < |rep| && rep[x] == rep[i] && rep[y] == rep[j] ::
      !Agree(records[x], records[y])
  }

  ghost predicate IsStrong(records: seq<Record>, i: nat, j: nat)
    requires i < |records| && j < |records|
  {
    Strong(ClassifyMatch(records[i], records[j]).confidence)
  }

  /** Every strong pair seen so far is in one cluster, or its clusters still may not be joined. */
  ghost predicate Maximal(records: seq<Record>, rep: seq<nat>, l: nat, r: nat)
    requires |rep| == |records|
  {
    forall i: nat, j: nat | i < |rep| && j < |rep| && Before(i, j, l, r) && IsStrong(records, i, j) ::
      rep[i] == rep[j] || Blocked(records, rep, i, j)
  }

  /** The accepted edges are exactly the strong pairs seen so far that share a cluster. */
  ghost predicate EdgesExact(records: seq<Record>, st: Clustering, l: nat, r: nat)
    requires |st.rep| == |records|
  {
    && (forall k | 0 <= k < |st.edges| ::
          var e := st.edges[k];
          e.left < |records| && e.right < |records| && Before(e.left, e.right, l, r)
          && IsStrong(records, e.left, e.right) && st.rep[e.left] == st.rep[e.right]
          && e == EdgeOf(records, e.left, e.right))
    && (forall i: nat, j: nat | i < |records| && j < |records| && Before(i, j, l, r)
          && IsStrong(records, i, j) && st.rep[i] == st.rep[j] :: EdgeOf(records, i, j) in st.edges)
  }

  /** The candidate that a pair seen in the loop leaves behind when it is not accepted, if any. */
  ghost predicate Rejected(records: seq<Record>, rep: seq<nat>, c: Candidate)
    requires |rep| == |records|
  {
    c.left < |rep| && c.right < |rep| &&
    var m := ClassifyMatch(records[c.left], records[c.right]);
    c.matchedOn == m.matchedOn &&
    if Strong(m.confidence) then rep[c.left] != rep[c.right] && c.reason == CONFLICT
    else m.confidence == Low && c.reason == m.reason
  }

  /** The low-confidence list holds exactly the low pairs and the strong pairs left in two clusters. */
  ghost predicate LowExact(records: seq<Record>, st: Clustering, l: nat, r: nat)
    requires |st.rep| == |records|
  {
    && (forall k | 0 <= k < |st.low| ::
          Before(st.low[k].left, st.low[k].right, l, r) && Rejected(records, st.rep, st.low[k]))
    && (forall i: nat, j: nat | i < |records| && j < |records| && Before(i, j, l, r) ::
          var m := ClassifyMatch(records[i], records[j]);
          && (Strong(m.confidence) && st.rep[i] != st.rep[j] ==> Candidate(i, j, m.matchedOn, CONFLICT) in st.low)
          && (m.confidence == Low ==> Candidate(i, j, m.matchedOn, m.reason) in st.low))
  }

  ghost predicate ClosedUnder(edges: seq<Edge>, s: set<nat>)
  {
    forall k | 0 <= k < |edges| :: edges[k].left in s <==> edges[k].right in s
  }

  /** Accepted edges connect each cluster: a set of records that no edge leaves is a union of clusters. */
  ghost predicate EdgesConnect(st: Clustering)
  {
    forall s: set<nat>, i: nat, j: nat | ClosedUnder(st.edges, s) && i < |st.rep| && j < |st.rep|
      && st.rep[i] == st.rep[j] :: i in s ==> j in s
  }

  ghost function Labels(rep: seq<nat>): set<nat>
  {
    set i | 0 <= i < |rep| && rep[i] == i
  }

  ghost predicate Counted(st: Clustering)
  {
    |Labels(st.rep)| + st.joined == |st.rep|
  }

  ghost predicate Sound(records: seq<Record>, st: Clustering, l: nat, r: nat)
  {
    && |st.rep| == |records| && Canonical(st.rep)
    && Safe(records, st.rep)
    && Maximal(records, st.rep, l, r)
    && EdgesExact(records, st, l, r)
    && LowExact(records, st, l, r)
    && EdgesConnect(st)
    && Counted(st)
  }

  // --- one step -----------------------------------------------------------------------------

  /** A safe cluster that shows a serial shows only that one. */
  lemma OneSerial(records: seq<Record>, rep: seq<nat>, a: nat, i: nat)
    requires |rep| == |records| && Safe(records, rep) && i < |rep| && rep[i] == a
    requires records[i].evidence.serial != ""
    ensures Serials(records, Members(rep, a)) == {records[i].evidence.serial}
  {
    hide CompatibleTypes;
    var members := Members(rep, a);
    assert i in members;
    forall k | k in members && records[k].evidence.serial != ""
      ensures records[k].evidence.serial == records[i].evidence.serial
    {
      assert Agree(records[i], records[k]);
    }
  }

  /** On safe clusters, the veto is exactly disagreement of some record across them. */
  lemma MayJoinIffAgree(records: seq<Record>, rep: seq<nat>, a: nat, b: nat)
    requires |rep| == |records| && Safe(records, rep)
    ensures MayJoin(records, Members(rep, a), Members(rep, b)) <==>
            forall i, j | 0 <= i < |rep| && 0 <= j < |rep| && rep[i] == a && rep[j] == b ::
              Agree(records[i], records[j])
  {
    hide CompatibleTypes, Safe, Members;
    var left, right := Members(rep, a), Members(rep, b);
    var ls, rs := Serials(records, left), Serials(records, right);
    if ls != {} && rs != {} {
      var i :| i in left && records[i].evidence.serial != "";
      var j :| j in right && records[j].evidence.serial != "";
      OneSerial(records, rep, a, i);
      OneSerial(records, rep, b, j);
    }
    if MayJoin(records, left, right) {
      forall i, j | i in left && j in right ensures Agree(records[i], records[j]) {
        assert records[i].evidence.serial != "" ==> records[i].evidence.serial in ls;
        assert records[j].evidence.serial != "" ==> records[j].evidence.serial in rs;
        if records[i].evidence.serial != "" && records[j].evidence.serial != "" {
          OneSerial(records, rep, a, i);
          OneSerial(records, rep, b, j);
        }
      }
    }
  }

  /** The facts about a merge that everything below uses: classes only grow, and only two of them. */
  lemma MergeGrows(rep: seq<nat>, l: nat, r: nat, merged: seq<nat>)
    requires Canonical(rep) && l < |rep| && r < |rep| && rep[l] != rep[r] && merged == Merge(rep, rep[l], rep[r])
    ensures Canonical(merged)
    ensures forall i, j | 0 <= i < |rep| && 0 <= j < |rep| && rep[i] == rep[j] :: merged[i] == merged[j]
    ensures forall i, j | 0 <= i < |rep| && 0 <= j < |rep| && merged[i] == merged[j] && rep[i] != rep[j] ::
              (rep[i] == rep[l] && rep[j] == rep[r]) || (rep[i] == rep[r] && rep[j] == rep[l])
    ensures merged[l] == merged[r]
  {
  }

  lemma JoinKeepsSafe(records: seq<Record>, rep: seq<nat>, l: nat, r: nat, merged: seq<nat>)
    requires |rep| == |records| && Canonical(rep) && Safe(records, rep)
    requires l < |rep| && r < |rep| && rep[l] != rep[r] && merged == Merge(rep, rep[l], rep[r])
    requires MayJoin(records, Members(rep, rep[l]), Members(rep, rep[r]))
    ensures Safe(records, merged)
  {
    hide Agree;
    MergeGrows(rep, l, r, merged);
    MayJoinIffAgree(records, rep, rep[l], rep[r]);
    forall i, j | 0 <= i < |rep| && 0 <= j < |rep| && merged[i] == merged[j]
      ensures Agree(records[i], records[j])
    {
      AgreeIsSymmetric(records[i], records[j]);
    }
  }

  /** A blocked pair stays blocked, and apart, through every later merge. */
  lemma BlockedStays(records: seq<Record>, rep: seq<nat>, merged: seq<nat>, i: nat, j: nat)
    requires |rep| == |records| == |merged| && i < |rep| && j < |rep|
    requires forall x, y | 0 <= x < |rep| && 0 <= y < |rep| && rep[x] == rep[y] :: merged[x] == merged[y]
    requires Safe(records, merged) && Blocked(records, rep, i, j)
    ensures Blocked(records, merged, i, j) && merged[i] != merged[j]
  {
    hide Agree;
    var x, y :| 0 <= x < |rep| && 0 <= y < |rep| && rep[x] == rep[i] && rep[y] == rep[j]
      && !Agree(records[x], records[y]);
    assert merged[x] == merged[i] && merged[y] == merged[j];
  }

  /** What a step means for the pairs already seen: classes grow, and settled pairs stay settled. */
  ghost predicate Settled(records: seq<Record>, before: seq<nat>, after: seq<nat>, l: nat, r: nat)
    requires |before| == |after| == |records|
  {
    && (forall i, j | 0 <= i < |before| && 0 <= j < |before| && before[i] == before[j] :: after[i] == after[j])
    && (forall i: nat, j: nat | i < |records| && j < |records| && Before(i, j, l, r) && IsStrong(records, i, j) ::
          after[i] == after[j] ==> before[i] == before[j])
  }

  /** A pair seen earlier is in one cluster, or still blocked, and was settled before. */
  lemma PairStays(records: seq<Record>, before: seq<nat>, after: seq<nat>, i: nat, j: nat)
    requires |before| == |records| == |after| && i < |before| && j < |before|
    requires forall x, y | 0 <= x < |before| && 0 <= y < |before| && before[x] == before[y] :: after[x] == after[y]
    requires Safe(records, after) && (before[i] == before[j] || Blocked(records, before, i, j))
    ensures after[i] == after[j] || Blocked(records, after, i, j)
    ensures after[i] == after[j] ==> before[i] == before[j]
  {
    hide Safe, Blocked;
    if before[i] != before[j] {
      BlockedStays(records, before, after, i, j);
    }
  }

  /** What a step does to the clusters: they stay safe and only grow, and its own pair is settled. */
  lemma StepGrows(records: seq<Record>, st: Clustering, l: nat, r: nat)
    requires |st.rep| == |records| && l < r < |records| && Canonical(st.rep) && Safe(records, st.rep)
    ensures var rep := Step(records, st, l, r).rep;
            && Canonical(rep) && Safe(records, rep)
            && (forall x, y | 0 <= x < |rep| && 0 <= y < |rep| && st.rep[x] == st.rep[y] :: rep[x] == rep[y])
            && (IsStrong(records, l, r) ==> rep[l] == rep[r] || Blocked(records, rep, l, r))
  {
    hide ClassifyMatch, Agree, MayJoin, Members;
    var next := Step(records, st, l, r);
    var a, b := st.rep[l], st.rep[r];
    if IsStrong(records, l, r) && a != b {
      MayJoinIffAgree(records, st.rep, a, b);
      if next.rep != st.rep {
        MergeGrows(st.rep, l, r, next.rep);
        JoinKeepsSafe(records, st.rep, l, r, next.rep);
      }
    }
  }

  lemma StepKeepsMaximal(records: seq<Record>, st: Clustering, l: nat, r: nat)
    requires |st.rep| == |records| && l < r < |records| && Canonical(st.rep)
    requires Safe(records, st.rep) && Maximal(records, st.rep, l, r)
    ensures var next := Step(records, st, l, r);
            && Canonical(next.rep) && Safe(records, next.rep) && Maximal(records, next.rep, l, r + 1)
            && Settled(records, st.rep, next.rep, l, r)
  {
    hide Step, Safe, Blocked, IsStrong, Canonical;
    var next := Step(records, st, l, r);
    StepGrows(records, st, l, r);
    forall i: nat, j: nat | i < |records| && j < |records| && Before(i, j, l, r + 1) && IsStrong(records, i, j)
      ensures next.rep[i] == next.rep[j] || Blocked(records, next.rep, i, j)
      ensures Before(i, j, l, r) && next.rep[i] == next.rep[j] ==> st.rep[i] == st.rep[j]
    {
      if Before(i, j, l, r) {
        PairStays(records, st.rep, next.rep, i, j);
      }
    }
  }

  lemma StepKeepsEdges(records: seq<Record>, st: Clustering, l: nat, r: nat)
    requires l < r < |records| == |st.rep| && EdgesExact(records, st, l, r)
    requires Settled(records, st.rep, Step(records, st, l, r).rep, l, r)
    ensures EdgesExact(records, Step(records, st, l, r), l, r + 1)
  {
    hide ClassifyMatch, MayJoin, Members, EdgeOf;
    var next := Step(records, st, l, r);
    forall k | 0 <= k < |next.edges|
      ensures var e := next.edges[k];
          e.left < |records| && e.right < |records| && Before(e.left, e.right, l, r + 1)
          && IsStrong(records, e.left, e.right) && next.rep[e.left] == next.rep[e.right]
          && e == EdgeOf(records, e.left, e.right)
    {
      EdgeEnds(records, l, r);
      if k < |st.edges| {
        assert next.edges[k] == st.edges[k];
      }
    }
    forall i: nat, j: nat | i < |records| && j < |records| && Before(i, j, l, r + 1)
          && IsStrong(records, i, j) && next.rep[i] == next.rep[j]
      ensures EdgeOf(records, i, j) in next.edges
    {
      if Before(i, j, l, r) {
        assert EdgeOf(records, i, j) in st.edges;
      } else {
        assert next.edges[|next.edges| - 1] == EdgeOf(records, l, r);
      }
    }
  }

  lemma EdgeEnds(records: seq<Record>, l: nat, r: nat)
    requires l < |records| && r < |records|
    ensures EdgeOf(records, l, r).left == l && EdgeOf(records, l, r).right == r
    ensures EdgeOf(records, l, r).confidence == ClassifyMatch(records[l], records[r]).confidence
  {
    hide ClassifyMatch;
  }

  lemma StepKeepsLow(records: seq<Record>, st: Clustering, l: nat, r: nat)
    requires l < r < |records| == |st.rep| && LowExact(records, st, l, r)
    requires Settled(records, st.rep, Step(records, st, l, r).rep, l, r)
    ensures LowExact(records, Step(records, st, l, r), l, r + 1)
  {
    hide ClassifyMatch, MayJoin, Members;
    var next := Step(records, st, l, r);
    forall k | 0 <= k < |next.low|
      ensures Before(next.low[k].left, next.low[k].right, l, r + 1) && Rejected(records, next.rep, next.low[k])
    {
      if k < |st.low| {
        assert Rejected(records, st.rep, st.low[k]);
      }
    }
    forall i: nat, j: nat | i < |records| && j < |records| && Before(i, j, l, r + 1)
      ensures var m := ClassifyMatch(records[i], records[j]);
          && (Strong(m.confidence) && next.rep[i] != next.rep[j] ==> Candidate(i, j, m.matchedOn, CONFLICT) in next.low)
          && (m.confidence == Low ==> Candidate(i, j, m.matchedOn, m.reason) in next.low)
    {
      if !Before(i, j, l, r) && |next.low| > |st.low| {
        assert next.low[|next.low| - 1] in next.low;
      }
    }
  }

  lemma StepKeepsConnected(records: seq<Record>, st: Clustering, l: nat, r: nat)
    requires l < r < |records| && Sound(records, st, l, r)
    ensures EdgesConnect(Step(records, st, l, r))
  {
    hide ClassifyMatch, Agree, MayJoin, Members;
    var next := Step(records, st, l, r);
    forall s: set<nat>, i: nat, j: nat | ClosedUnder(next.edges, s) && i < |next.rep| && j < |next.rep|
      && next.rep[i] == next.rep[j]
      ensures i in s ==> j in s
    {
      assert ClosedUnder(st.edges, s) by {
        assert forall k | 0 <= k < |st.edges| :: st.edges[k] == next.edges[k];
      }
      if st.rep[i] != st.rep[j] {
        MergeGrows(st.rep, l, r, next.rep);
        assert next.edges[|st.edges|] == EdgeOf(records, l, r);
        assert l in s <==> r in s;
      }
    }
  }

  lemma MergeDropsLabel(rep: seq<nat>, l: nat, r: nat)
    requires Canonical(rep) && l < |rep| && r < |rep| && rep[l] != rep[r]
    ensures |Labels(Merge(rep, rep[l], rep[r]))| == |Labels(rep)| - 1
  {
    var high := if rep[l] < rep[r] then rep[r] else rep[l];
    assert high in Labels(rep);
    assert Labels(Merge(rep, rep[l], rep[r])) == Labels(rep) - {high};
  }

  lemma StepKeepsSound(records: seq<Record>, st: Clustering, l: nat, r: nat)
    requires l < r < |records| && Sound(records, st, l, r)
    ensures Sound(records, Step(records, st, l, r), l, r + 1)
  {
    hide ClassifyMatch, MayJoin, Members, Safe, Maximal, EdgesExact, LowExact, EdgesConnect, Labels, Merge;
    StepKeepsMaximal(records, st, l, r);
    StepKeepsEdges(records, st, l, r);
    StepKeepsLow(records, st, l, r);
    StepKeepsConnected(records, st, l, r);
    if st.rep[l] != st.rep[r] {
      MergeDropsLabel(st.rep, l, r);
    }
  }

  lemma InitialSound(records: seq<Record>)
    ensures Sound(records, Initial(|records|), 0, 1)
  {
    var st := Initial(|records|);
    InitialLabels(|records|);
    forall i | 0 <= i < |records| ensures Agree(records[i], records[i]) {
      AgreeIsSymmetric(records[i], records[i]);
    }
  }

  lemma {:induction false} InitialLabels(n: nat)
    ensures |Labels(Initial(n).rep)| == n
  {
    var rep := Initial(n).rep;
    if n > 0 {
      InitialLabels(n - 1);
      var shorter := Initial(n - 1).rep;
      forall i: nat ensures i in Labels(rep) <==> i in Labels(shorter) || i == n - 1 {
        assert i < n ==> rep[i] == i;
        assert i < n - 1 ==> shorter[i] == i;
      }
      assert Labels(rep) == Labels(shorter) + {n - 1};
    }
  }

  // --- the whole loop -----------------------------------------------------------------------

  /** Moving on to the next row leaves the same pairs behind. */
  lemma NextRowKeepsSound(records: seq<Record>, st: Clustering, l: nat, r: nat)
    requires l < |records| <= r && Sound(records, st, l, r)
    ensures Sound(records, st, l + 1, l + 2)
  {
    hide ClassifyMatch, Agree, EdgesConnect;
    assert forall i: nat, j: nat | i < |records| && j < |records| :: Before(i, j, l, r) <==> Before(i, j, l + 1, l + 2);
  }

  lemma {:induction false} LoopKeepsSound(records: seq<Record>, st: Clustering, l: nat, r: nat)
    requires l < r && l <= |records| && |st.rep| == |records| && Sound(records, st, l, r)
    ensures Sound(records, FuseFrom(records, st, l, r), |records|, |records| + 1)
    decreases |records| - l, |records| - r
  {
    hide Step, Sound;
    if l >= |records| {
      LastRow(records, st, l, r);
    } else if r >= |records| {
      NextRowKeepsSound(records, st, l, r);
      LoopKeepsSound(records, st, l + 1, l + 2);
    } else {
      StepKeepsSound(records, st, l, r);
      LoopKeepsSound(records, Step(records, st, l, r), l, r + 1);
    }
  }

  lemma LastRow(records: seq<Record>, st: Clustering, l: nat, r: nat)
    requires |records| == l < r && Sound(records, st, l, r)
    ensures Sound(records, st, l, l + 1)
  {
    hide ClassifyMatch, Agree, EdgesConnect;
    assert forall i: nat, j: nat | i < |records| && j < |records| :: Before(i, j, l, r) <==> Before(i, j, l, l + 1);
    assert forall k | 0 <= k < |st.low| :: Rejected(records, st.rep, st.low[k]);
  }

  /** Where the pair loop stands: its variables, and the pair it looks at next. */
  datatype Point = Point(st: Clustering, l: nat, r: nat)

  /** The loop after `n` rounds; a round classifies a pair or moves on to the next row. */
  function Reached(records: seq<Record>, n: nat): (p: Point)
    ensures p.l < p.r && p.l <= |records| && |p.st.rep| == |records|
  {
    if n == 0 then Point(Initial(|records|), 0, 1)
    else
      var p := Reached(records, n - 1);
      if p.l >= |records| then p
      else if p.r >= |records| then Point(p.st, p.l + 1, p.l + 2)
      else Point(Step(records, p.st, p.l, p.r), p.l, p.r + 1)
  }

  /** Every point of the pair loop is sound, and leads to the clustering. */
  lemma {:induction false} EveryPointSound(records: seq<Record>, n: nat)
    ensures var p := Reached(records, n);
            Sound(records, p.st, p.l, p.r) && FuseFrom(records, p.st, p.l, p.r) == Clusters(records)
  {
    hide Step, Sound;
    if n == 0 {
      InitialSound(records);
    } else {
      var p := Reached(records, n - 1);
      EveryPointSound(records, n - 1);
      if p.l < |records| {
        if p.r >= |records| {
          NextRowKeepsSound(records, p.st, p.l, p.r);
        } else {
          StepKeepsSound(records, p.st, p.l, p.r);
        }
      }
    }
  }

  /** So is its end. */
  lemma ClustersSound(records: seq<Record>)
    ensures Sound(records, Clusters(records), |records|, |records| + 1)
  {
    InitialSound(records);
    LoopKeepsSound(records, Initial(|records|), 0, 1);
  }

  // --- the fused result ---------------------------------------------------------------------

  /** The groups of a labelling, keyed by their roots. */
  ghost function Groups(rep: seq<nat>): map<nat, seq<nat>>
  {
    map k | k in Labels(rep) :: Members(rep, k)
  }

  /** Safe, and as large as the rule allows: a strong pair that is not fused could not have been. */
  lemma FusionSafeAndMaximal(records: seq<Record>)
    ensures var st := Clusters(records);
      && (forall i, j | 0 <= i < |records| && 0 <= j < |records| && st.rep[i] == st.rep[j] ::
          Agree(records[i], records[j]))
      && (forall i: nat, j: nat | i < j < |records| && IsStrong(records, i, j) ::
            || (st.rep[i] == st.rep[j] && EdgeOf(records, i, j) in st.edges)
            || (&& Candidate(i, j, ClassifyMatch(records[i], records[j]).matchedOn, CONFLICT) in st.low
                && !MayJoin(records, Members(st.rep, st.rep[i]), Members(st.rep, st.rep[j]))))
      && (forall c | c in st.low && c.reason == CONFLICT ::
            c.left < c.right < |records| && st.rep[c.left] != st.rep[c.right])
  {
    hide ClassifyMatch, Agree, MayJoin, Members, Clusters;
    ClustersSound(records);
    var st := Clusters(records);
    forall i: nat, j: nat | i < j < |records| && IsStrong(records, i, j)
      ensures || (st.rep[i] == st.rep[j] && EdgeOf(records, i, j) in st.edges)
            || (&& Candidate(i, j, ClassifyMatch(records[i], records[j]).matchedOn, CONFLICT) in st.low
                && !MayJoin(records, Members(st.rep, st.rep[i]), Members(st.rep, st.rep[j])))
    {
      assert Before(i, j, |records|, |records| + 1);
      MayJoinIffAgree(records, st.rep, st.rep[i], st.rep[j]);
    }
    forall c | c in st.low && c.reason == CONFLICT
      ensures c.left < c.right < |records| && st.rep[c.left] != st.rep[c.right]
    {
      assert Rejected(records, st.rep, c);
      LowReason(records[c.left], records[c.right]);
    }
  }

  /** No reason of a low match reads like a cluster conflict, so the two kinds of entry never mix. */
  lemma LowReason(left: Record, right: Record)
    ensures ClassifyMatch(left, right).reason != CONFLICT
  {
    hide CompatibleTypes, SiteAlias;
    var reason := ClassifyMatch(left, right).reason;
    assert |reason| != |CONFLICT| || reason[0] != CONFLICT[0];
  }

  /** The groups share the records out: each record in exactly one, led by its smallest index. */
  lemma GroupsPartition(rep: seq<nat>)
    requires Canonical(rep)
    ensures forall i | 0 <= i < |rep| :: rep[i] in Groups(rep) && i in Groups(rep)[rep[i]]
    ensures forall k | k in Groups(rep) :: forall i: nat | i in Groups(rep)[k] :: i < |rep| && rep[i] == k
    ensures forall k | k in Groups(rep) :: Groups(rep)[k] != [] && Groups(rep)[k][0] == k
    ensures forall k | k in Groups(rep) ::
              forall a, b | 0 <= a < b < |Groups(rep)[k]| :: Groups(rep)[k][a] < Groups(rep)[k][b]
  {
    forall i | 0 <= i < |rep| ensures rep[i] in Groups(rep) && i in Groups(rep)[rep[i]] {
      assert rep[i] in Labels(rep);
    }
    forall k | k in Groups(rep)
      ensures forall i: nat | i in Groups(rep)[k] :: i < |rep| && rep[i] == k
      ensures Groups(rep)[k] != [] && Groups(rep)[k][0] == k
      ensures forall a, b | 0 <= a < b < |Groups(rep)[k]| :: Groups(rep)[k][a] < Groups(rep)[k][b]
    {
      LeadIsRoot(rep, k);
    }
  }

  lemma LeadIsRoot(rep: seq<nat>, k: nat)
    requires Canonical(rep) && k in Labels(rep)
    ensures Members(rep, k) != [] && Members(rep, k)[0] == k
    ensures forall a, b | 0 <= a < b < |Members(rep, k)| :: Members(rep, k)[a] < Members(rep, k)[b]
  {
    var members := Members(rep, k);
    assert k in members;
    assert members[0] in members;
  }

  /** Accepted edges connect each group: no proper part of it is without an edge to the rest. */
  lemma GroupsConnected(records: seq<Record>, part: set<nat>, i: nat, j: nat)
    requires i < |records| && j < |records| && i in part && j !in part
    requires Clusters(records).rep[i] == Clusters(records).rep[j]
    ensures exists e | e in Clusters(records).edges :: (e.left in part) != (e.right in part)
  {
    hide ClassifyMatch, Agree, MayJoin, Clusters;
    ClustersSound(records);
    var st := Clusters(records);
    assert !ClosedUnder(st.edges, part);
    var k :| 0 <= k < |st.edges| && (st.edges[k].left in part) != (st.edges[k].right in part);
    assert st.edges[k] in st.edges;
  }

  predicate Within(e: Edge, members: seq<nat>)
  {
    e.left in members && e.right in members
  }

  /** The best confidence among the accepted edges inside a group. */
  function GroupConfidence(edges: seq<Edge>, members: seq<nat>): (c: Confidence)
    ensures forall e | e in edges && Within(e, members) :: Rank(e.confidence) <= Rank(c)
    ensures c == Unmerged || exists e | e in edges && Within(e, members) :: e.confidence == c
  {
    if edges == [] then Unmerged
    else
      var init, last := edges[..|edges| - 1], edges[|edges| - 1];
      assert edges == init + [last];
      var best := GroupConfidence(init, members);
      if Within(last, members) && Rank(last.confidence) > Rank(best) then last.confidence else best
  }

  /** "unmerged" is the confidence of exactly the single-record groups. */
  lemma UnmergedIffSingle(records: seq<Record>, k: nat)
    requires k in Labels(Clusters(records).rep)
    ensures var members := Members(Clusters(records).rep, k);
            var c := GroupConfidence(Clusters(records).edges, members);
            if |members| == 1 then c == Unmerged else |members| >= 2 && Strong(c)
  {
    hide Clusters, GroupConfidence, Members;
    EdgesInside(records);
    var st := Clusters(records);
    var members := Members(st.rep, k);
    LeadIsRoot(st.rep, k);
    if |members| > 1 {
      var other := members[1];
      assert other in members && k in members;
      GroupsConnected(records, {k}, k, other);
      var e :| e in st.edges && (e.left in {k}) != (e.right in {k});
      assert Within(e, members);
      assert Rank(e.confidence) <= Rank(GroupConfidence(st.edges, members));
    }
  }

  lemma EdgesInside(records: seq<Record>)
    ensures var st := Clusters(records);
      && |st.rep| == |records| && Canonical(st.rep) && |Labels(st.rep)| + st.joined == |records|
      && forall e | e in st.edges ::
          e.left < e.right < |records| && Strong(e.confidence) && st.rep[e.left] == st.rep[e.right]
  {
    hide Clusters, ClassifyMatch, EdgeOf, LowExact, Maximal, Safe;
    ClustersSound(records);
    var st := Clusters(records);
    forall e | e in st.edges
      ensures e.left < e.right < |records| && Strong(e.confidence) && st.rep[e.left] == st.rep[e.right]
    {
      var k :| 0 <= k < |st.edges| && st.edges[k] == e;
      EdgeEnds(records, e.left, e.right);
    }
  }

  datatype Statistics = Statistics(
    sourceRecords: nat,
    canonicalAssets: nat,
    recordsFused: int,
    exactMatches: nat,
    highConfidenceMatches: nat,
    mediumConfidenceMatches: nat,
    lowConfidenceCandidates: nat)

  /** How many groups with a root below `n` have confidence `c`. */
  ghost function Tally(st: Clustering, n: nat, c: Confidence): nat
  {
    if n == 0 then 0
    else Tally(st, n - 1, c) +
         (if n - 1 in Labels(st.rep) && GroupConfidence(st.edges, Members(st.rep, n - 1)) == c then 1 else 0)
  }

  /** How many groups with a root below `n` hold two records or more. */
  ghost function FusedGroups(st: Clustering, n: nat): nat
  {
    if n == 0 then 0
    else FusedGroups(st, n - 1) +
         (if n - 1 in Labels(st.rep) && |Members(st.rep, n - 1)| >= 2 then 1 else 0)
  }

  lemma {:induction false} TalliesAddUp(records: seq<Record>, n: nat)
    ensures var st := Clusters(records);
            Tally(st, n, Exact) + Tally(st, n, High) + Tally(st, n, Medium) == FusedGroups(st, n)
  {
    hide Clusters, GroupConfidence, Members;
    if n > 0 {
      TalliesAddUp(records, n - 1);
      if n - 1 in Labels(Clusters(records).rep) {
        UnmergedIffSingle(records, n - 1);
      }
    }
  }

  /** The statistics are the true counts: of groups, of unions that joined two groups, and of fused groups. */
  ghost predicate TrueCounts(records: seq<Record>, s: Statistics)
  {
    var st := Clusters(records);
    var n := |records|;
    && s.sourceRecords == n
    && s.canonicalAssets == |Groups(st.rep)|
    && s.recordsFused == st.joined
    && s.exactMatches == Tally(st, n, Exact)
    && s.highConfidenceMatches == Tally(st, n, High)
    && s.mediumConfidenceMatches == Tally(st, n, Medium)
    && s.exactMatches + s.highConfidenceMatches + s.mediumConfidenceMatches == FusedGroups(st, n)
    && s.lowConfidenceCandidates == |st.low|
  }

  // --- the methods --------------------------------------------------------------------------

  /** Joins two clusters unless the veto forbids it; says whether they are one cluster afterwards. */
  method Union(records: seq<Record>, parent: array<nat>, left: nat, right: nat) returns (merged: bool)
    requires parent.Length == |records| && Forest(parent[..]) && left < |records| && right < |records|
    modifies parent
    ensures Forest(parent[..])
    ensures var rep := old(Roots(parent[..]));
            var a, b := rep[left], rep[right];
            && merged == (a == b || MayJoin(records, Members(rep, a), Members(rep, b)))
            && Roots(parent[..]) == if a != b && merged then Merge(rep, a, b) else rep
  {
    hide CompatibleTypes;
    ghost var rep := Roots(parent[..]);
    var a := Find(parent, left);
    var b := Find(parent, right);
    if a == b {
      return true;
    }
    var leftMembers := CollectMembers(parent, a);
    var rightMembers := CollectMembers(parent, b);
    if !MayJoin(records, leftMembers, rightMembers) {
      return false;
    }
    var low, high := if a < b then a else b, if a < b then b else a;
    ghost var p := parent[..];
    assert p[low] == low && p[high] == high by {
      assert Roots(p)[left] == a && Roots(p)[right] == b;
    }
    forall i | 0 <= i < |p|
      ensures Forest(p[high := low]) && Root(p[high := low], i) == if Root(p, i) == high then low else Root(p, i) {
      LinkMovesClass(p, low, high, i);
    }
    parent[high] := low;
    assert parent[..] == p[high := low];
    assert Roots(parent[..]) == Merge(rep, a, b);
    return true;
  }

  method Fuse(records: seq<Record>)
    returns (groups: map<nat, seq<nat>>, edges: seq<Edge>, low: seq<Candidate>, statistics: Statistics)
    ensures groups == Groups(Clusters(records).rep)
    ensures edges == Clusters(records).edges && low == Clusters(records).low
    ensures TrueCounts(records, statistics)
  {
    var parent: array<nat>;
    parent, edges, low := ClusterPairs(records);
    groups := CollectGroups(parent);
    statistics := Summarise(records, groups, edges, low);
  }

  /** Classifies one pair and, if it is a strong one, fuses the two unless a cluster rule forbids it. */
  method TryPair(records: seq<Record>, parent: array<nat>, edges: seq<Edge>, low: seq<Candidate>, left: nat, right: nat)
    returns (edges2: seq<Edge>, low2: seq<Candidate>)
    requires parent.Length == |records| && Forest(parent[..]) && left < |records| && right < |records|
    modifies parent
    ensures Forest(parent[..])
    ensures forall joined ::
              var next := Step(records, Clustering(old(Roots(parent[..])), edges, low, joined), left, right);
              Roots(parent[..]) == next.rep && edges2 == next.edges && low2 == next.low
  {
    hide ClassifyMatch, MayJoin, Forest, Roots, Members, Merge;
    edges2, low2 := edges, low;
    var m := ClassifyMatch(records[left], records[right]);
    if Strong(m.confidence) {
      var merged := Union(records, parent, left, right);
      if merged {
        edges2 := edges + [Edge(left, right, m.confidence, m.matchedOn)];
      } else {
        low2 := low + [Candidate(left, right, m.matchedOn, CONFLICT)];
      }
    } else if m.confidence == Low {
      low2 := low + [Candidate(left, right, m.matchedOn, m.reason)];
    }
  }

  method ClusterPairs(records: seq<Record>) returns (parent: array<nat>, edges: seq<Edge>, low: seq<Candidate>)
    ensures fresh(parent) && parent.Length == |records| && Forest(parent[..])
    ensures Roots(parent[..]) == Clusters(records).rep
    ensures edges == Clusters(records).edges && low == Clusters(records).low
  {
    hide Step;
    var count := |records|;
    parent := new nat[count](i => i);
    edges, low := [], [];
    ghost var joined := 0;
    assert Roots(parent[..]) == Initial(count).rep;
    hide Forest, Roots;
    var left := 0;
    while left < count
      invariant left <= count == parent.Length && Forest(parent[..])
      invariant FuseFrom(records, Clustering(Roots(parent[..]), edges, low, joined), left, left + 1) ==
                Clusters(records)
    {
      var right := left + 1;
      while right < count
        invariant left < right <= count == parent.Length && Forest(parent[..])
        invariant FuseFrom(records, Clustering(Roots(parent[..]), edges, low, joined), left, right) == Clusters(records)
      {
        ghost var next := Step(records, Clustering(Roots(parent[..]), edges, low, joined), left, right);
        edges, low := TryPair(records, parent, edges, low, left, right);
        joined := next.joined;
        assert Clustering(Roots(parent[..]), edges, low, joined) == next;
        right := right + 1;
      }
      left := left + 1;
    }
  }

  /** The groups of the first `n` elements. */
  ghost function GroupsUpTo(rep: seq<nat>, n: nat): map<nat, seq<nat>>
    requires n <= |rep|
  {
    map k | k in Labels(rep) && k < n :: MembersUpTo(rep, k, n)
  }

  lemma MembersGrow(rep: seq<nat>, k: nat, n: nat)
    requires n < |rep|
    ensures MembersUpTo(rep, k, n + 1) == MembersUpTo(rep, k, n) + (if rep[n] == k then [n] else [])
  {
  }

  lemma GroupsGrow(rep: seq<nat>, n: nat)
    requires Canonical(rep) && n < |rep|
    ensures var groups := GroupsUpTo(rep, n);
            var members := if rep[n] in groups then groups[rep[n]] else [];
            GroupsUpTo(rep, n + 1) == groups[rep[n] := members + [n]]
  {
    hide MembersUpTo;
    var was := GroupsUpTo(rep, n);
    var now := GroupsUpTo(rep, n + 1);
    assert rep[n] in Labels(rep) && rep[n] <= n;
    assert now.Keys == was.Keys + {rep[n]};
    MembersGrow(rep, rep[n], n);
    if rep[n] == n {
      NoMembersBelow(rep, n, n);
    }
    forall k | k in now && k != rep[n] ensures k in was && now[k] == was[k] {
      MembersGrow(rep, k, n);
    }
  }

  lemma GroupsEnds(rep: seq<nat>)
    ensures GroupsUpTo(rep, 0) == map[] && GroupsUpTo(rep, |rep|) == Groups(rep)
  {
    assert forall k | k in Labels(rep) :: k < |rep|;
    assert GroupsUpTo(rep, |rep|).Keys == Groups(rep).Keys;
  }

  /** Files every index under its root, in ascending order. */
  method CollectGroups(parent: array<nat>) returns (groups: map<nat, seq<nat>>)
    requires Forest(parent[..])
    modifies parent
    ensures groups == Groups(old(Roots(parent[..])))
  {
    hide GroupsUpTo, Groups, Root;
    ghost var rep := Roots(parent[..]);
    RootsCanonical(parent[..]);
    GroupsEnds(rep);
    groups := map[];
    for index := 0 to parent.Length
      invariant Forest(parent[..]) && Roots(parent[..]) == rep
      invariant groups == GroupsUpTo(rep, index)
    {
      var root := Find(parent, index);
      GroupsGrow(rep, index);
      var members := if root in groups then groups[root] else [];
      groups := groups[root := members + [index]];
    }
  }

  lemma LabelBelow(rep: seq<nat>, i: nat)
    requires Canonical(rep) && i < |rep|
    ensures rep[i] <= i
  {
  }

  lemma {:induction false} NoMembersBelow(rep: seq<nat>, root: nat, n: nat)
    requires Canonical(rep) && n <= root && n <= |rep|
    ensures |MembersUpTo(rep, root, n)| == 0
  {
    if n > 0 {
      LabelBelow(rep, n - 1);
      assert rep[n - 1] != root;
      hide Canonical;
      NoMembersBelow(rep, root, n - 1);
    }
  }

  method Summarise(records: seq<Record>, groups: map<nat, seq<nat>>, edges: seq<Edge>, low: seq<Candidate>)
    returns (statistics: Statistics)
    requires groups == Groups(Clusters(records).rep)
    requires edges == Clusters(records).edges && low == Clusters(records).low
    ensures TrueCounts(records, statistics)
  {
    hide Clusters, Members, GroupConfidence, FusedGroups, Labels;
    var count := |records|;
    ghost var st := Clusters(records);
    var exact, high, medium := 0, 0, 0;
    for root := 0 to count
      invariant exact == Tally(st, root, Exact) && high == Tally(st, root, High) && medium == Tally(st, root, Medium)
    {
      if root in groups {
        var confidence := GroupConfidence(edges, groups[root]);
        if confidence == Exact {
          exact := exact + 1;
        } else if confidence == High {
          high := high + 1;
        } else if confidence == Medium {
          medium := medium + 1;
        }
      }
    }
    TalliesAddUp(records, count);
    EdgesInside(records);
    assert groups.Keys == Labels(st.rep);
    statistics := Statistics(count, |groups|, count - |groups|, exact, high, medium, |low|);
  }
}
