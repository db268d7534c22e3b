/** Pairwise reconciliation of assets that different sources report. */
module Reconciliation {
  import opened Options
  import opened Ordering
  import opened InventoryTypes

  function MatchRank(m: Match): nat
  {
    match m
    case Unmatched => 0
    case SourceOnly => 1
    case Ambiguous => 2
    case StrongMatch => 3
    case ExactMatch => 4
    case Conflicting => 5
  }

  /** The verdict on two assets, if there is anything to say. */
  function PairStatus(cfg: Config, left: Asset, right: Asset): Option<(Match, seq<string>)>
  {
    var a, b := cfg.identifiers(left.fields), cfg.identifiers(right.fields);
    var sameSerial, sameMac := a.serial != "" && a.serial == b.serial, a.mac != "" && a.mac == b.mac;
    var otherSerial := a.serial != "" && b.serial != "" && a.serial != b.serial;
    var otherMac := a.mac != "" && b.mac != "" && a.mac != b.mac;
    var sameHost := a.host != "" && a.host == b.host;
    if left.source == right.source then None
    else if sameSerial && otherMac then Some((Conflicting, ["serial_number agrees", "mac_address conflicts"]))
    else if sameMac && otherSerial then Some((Conflicting, ["mac_address agrees", "serial_number conflicts"]))
    else if sameHost && (otherSerial || otherMac) then
      Some((Conflicting, ["hostname agrees but strong identifiers conflict"]))
    else if sameSerial && sameMac then Some((ExactMatch, ["serial_number", "mac_address"]))
    else if sameSerial then
      Some((StrongMatch, ["serial_number"] + (if a.model != "" && a.model == b.model then ["model"] else [])))
    else if sameMac then Some((StrongMatch, ["mac_address"]))
    else if a.sourceId != "" && a.sourceId == b.sourceId && a.vendor != "" && a.vendor == b.vendor then
      Some((StrongMatch, ["shared_vendor_device_id", "vendor"]))
    else if sameHost then Some((Ambiguous, ["hostname_only"]))
    else None
  }

  function EntryOf(cfg: Config, left: Asset, right: Asset): Option<Entry>
  {
    var verdict := PairStatus(cfg, left, right);
    if verdict.None? then None
    else
      var ordered := StringLe(left.id, right.id);
      Some(Entry(if ordered then left.id else right.id, if ordered then right.id else left.id,
                 verdict.value.0, verdict.value.1))
  }

  function BaseStatus(a: Asset): Match
  {
    if Truthy(Lookup(a.fields, SerialNumber)) || Truthy(Lookup(a.fields, MacAddress))
       || Truthy(Lookup(a.fields, SourceAssetId))
    then SourceOnly else Unmatched
  }

  predicate EntryLe(a: Entry, b: Entry)
  {
    PairLe((a.first, a.second), (b.first, b.second))
  }

  function Raise(current: Match, e: Entry): Match
  {
    if MatchRank(e.status) >= MatchRank(current) then e.status else current
  }

  /** The entries asset `k` takes part in, with partners below `b`, in the order the loops meet them. */
  function Partners(cfg: Config, assets: seq<Asset>, k: nat, b: nat): seq<Entry>
    requires k < |assets| && b <= |assets|
  {
    if b == 0 then []
    else
      var e := EntryOf(cfg, assets[k], assets[b - 1]);
      Partners(cfg, assets, k, b - 1) + (if b - 1 == k || e.None? then [] else [e.value])
  }

  function Best(base: Match, entries: seq<Entry>): Match
  {
    if entries == [] then base else Raise(Best(base, entries[..|entries| - 1]), entries[|entries| - 1])
  }

  function ReconciledAsset(cfg: Config, assets: seq<Asset>, k: nat): (a: Asset)
    requires k < |assets|
    ensures a.id == assets[k].id && a.source == assets[k].source && a.lifecycle == assets[k].lifecycle
    ensures a.fields == assets[k].fields && a.online == assets[k].online && a.lastSeen == assets[k].lastSeen
    ensures a.observedRun == assets[k].observedRun
  {
    var partners := Partners(cfg, assets, k, |assets|);
    assets[k].(status := Best(BaseStatus(assets[k]), partners), evidence := Sort(EntryLe, partners))
  }

  function Reconciled(cfg: Config, assets: seq<Asset>): (r: seq<Asset>)
    ensures |r| == |assets| && forall k | 0 <= k < |r| :: r[k] == ReconciledAsset(cfg, assets, k)
  {
    seq(|assets|, k requires 0 <= k < |assets| => ReconciledAsset(cfg, assets, k))
  }

  /** All entries of the pairs from (l, r) on. */
  function EntriesFrom(cfg: Config, assets: seq<Asset>, l: nat, r: nat): seq<Entry>
    requires l < r
    decreases |assets| - l, |assets| - r
  {
    if l >= |assets| then []
    else if r >= |assets| then EntriesFrom(cfg, assets, l + 1, l + 2)
    else
      var e := EntryOf(cfg, assets[l], assets[r]);
      (if e.None? then [] else [e.value]) + EntriesFrom(cfg, assets, l, r + 1)
  }

  // --- the method ---------------------------------------------------------------------------

  /** How far the partners of asset `k` have been met when the loops stand at (l, r). */
  function Met(k: nat, l: nat, r: nat, n: nat): (b: nat)
    requires l <= n && l < r && (l < n ==> r <= n) && k < n
    ensures b <= n
  {
    if k < l then n else if k == l then r else if k < r then l + 1 else l
  }

  /** Which asset comes first makes no difference to the verdict, and one source is never compared with itself. */
  lemma PairSymmetric(cfg: Config, left: Asset, right: Asset)
    ensures PairStatus(cfg, left, right) == PairStatus(cfg, right, left)
    ensures left.source == right.source ==> PairStatus(cfg, left, right) == None
  {
  }

  lemma EntrySymmetric(cfg: Config, left: Asset, right: Asset)
    requires left.id != right.id
    ensures EntryOf(cfg, left, right) == EntryOf(cfg, right, left)
  {
    hide PairStatus;
    PairSymmetric(cfg, left, right);
    StringLeTotal(left.id, right.id);
    if StringLe(left.id, right.id) && StringLe(right.id, left.id) {
      StringLeAntisymmetric(left.id, right.id);
    }
  }

  lemma PartnersNext(cfg: Config, assets: seq<Asset>, k: nat, b: nat)
    requires k < |assets| && b < |assets|
    ensures var e := EntryOf(cfg, assets[k], assets[b]);
            Partners(cfg, assets, k, b + 1) ==
            Partners(cfg, assets, k, b) + (if b == k || e.None? then [] else [e.value])
  {
  }

  lemma BestNext(base: Match, entries: seq<Entry>, e: Entry)
    ensures Best(base, entries + [e]) == Raise(Best(base, entries), e)
  {
    assert (entries + [e])[..|entries|] == entries;
  }

  /** What the two dictionaries hold for asset `k` when the loops stand at (l, r). */
  ghost predicate Standing(cfg: Config, assets: seq<Asset>, status: map<string, Match>,
                           evidence: map<string, seq<Entry>>, k: nat, b: nat)
    requires k < |assets| && b <= |assets|
  {
    && assets[k].id in status && assets[k].id in evidence
    && evidence[assets[k].id] == Partners(cfg, assets, k, b)
    && status[assets[k].id] == Best(BaseStatus(assets[k]), Partners(cfg, assets, k, b))
  }

  /** Meeting one partner brings an asset's two dictionary entries one step forward. */
  lemma StandingNext(cfg: Config, assets: seq<Asset>, status: map<string, Match>, evidence: map<string, seq<Entry>>,
                     k: nat, b: nat)
    requires k < |assets| && b < |assets| && b != k && Standing(cfg, assets, status, evidence, k, b)
    ensures var id := assets[k].id;
            var e := EntryOf(cfg, assets[k], assets[b]);
            if e.None? then Standing(cfg, assets, status, evidence, k, b + 1)
            else Standing(cfg, assets, status[id := Raise(status[id], e.value)],
                          evidence[id := evidence[id] + [e.value]], k, b + 1)
  {
    hide EntryOf, Partners, Best, Raise;
    PartnersNext(cfg, assets, k, b);
    var e := EntryOf(cfg, assets[k], assets[b]);
    if e.Some? {
      BestNext(BaseStatus(assets[k]), Partners(cfg, assets, k, b), e.value);
    } else {
      assert Partners(cfg, assets, k, b) + [] == Partners(cfg, assets, k, b);
    }
  }

  /** An asset meets itself without effect. */
  lemma StandingSelf(cfg: Config, assets: seq<Asset>, status: map<string, Match>, evidence: map<string, seq<Entry>>,
                     k: nat)
    requires k < |assets| && Standing(cfg, assets, status, evidence, k, k)
    ensures Standing(cfg, assets, status, evidence, k, k + 1)
  {
    hide EntryOf, Best;
    PartnersNext(cfg, assets, k, k);
    assert Partners(cfg, assets, k, k) + [] == Partners(cfg, assets, k, k);
  }

  /** One pair's verdict goes to both of its assets. */
  method MeetPair(cfg: Config, assets: seq<Asset>, l: nat, r: nat, entries: seq<Entry>,
                  statusIn: map<string, Match>, evidenceIn: map<string, seq<Entry>>)
    returns (grown: seq<Entry>, status: map<string, Match>, evidence: map<string, seq<Entry>>)
    requires UniqueIds(assets) && l < r < |assets|
    requires AllStanding(cfg, assets, statusIn, evidenceIn, l, r)
    ensures AllStanding(cfg, assets, status, evidence, l, r + 1)
    ensures var e := EntryOf(cfg, assets[l], assets[r]);
            grown == entries + (if e.None? then [] else [e.value])
  {
    hide EntryOf, Partners, Best, Raise;
    grown, status, evidence := entries, statusIn, evidenceIn;
    var left, right := assets[l], assets[r];
    EntrySymmetric(cfg, left, right);
    assert Standing(cfg, assets, statusIn, evidenceIn, l, Met(l, l, r, |assets|));
    assert Standing(cfg, assets, statusIn, evidenceIn, r, Met(r, l, r, |assets|));
    StandingNext(cfg, assets, statusIn, evidenceIn, l, r);
    StandingNext(cfg, assets, statusIn, evidenceIn, r, l);
    var entry := EntryOf(cfg, left, right);
    if entry.Some? {
      grown := grown + [entry.value];
      status := status[left.id := Raise(status[left.id], entry.value)];
      evidence := evidence[left.id := evidence[left.id] + [entry.value]];
      status := status[right.id := Raise(status[right.id], entry.value)];
      evidence := evidence[right.id := evidence[right.id] + [entry.value]];
    }
    ghost var next := r + 1;
    forall k | 0 <= k < |assets| ensures Standing(cfg, assets, status, evidence, k, Met(k, l, next, |assets|)) {
      assert Standing(cfg, assets, statusIn, evidenceIn, k, Met(k, l, r, |assets|));
    }
  }

  method Reconcile(cfg: Config, assets: seq<Asset>) returns (entries: seq<Entry>, result: seq<Asset>)
    requires UniqueIds(assets)
    ensures result == Reconciled(cfg, assets)
    ensures entries == Sort(EntryLe, EntriesFrom(cfg, assets, 0, 1))
  {
    hide Standing, EntryOf, Sort, Fresh, EntriesFrom;
    var status: map<string, Match> := map[];
    var evidence: map<string, seq<Entry>> := map[];
    for k := 0 to |assets|
      invariant forall i | 0 <= i < k :: Fresh(assets, status, evidence, i)
    {
      ghost var statusBefore, evidenceBefore := status, evidence;
      status := status[assets[k].id := BaseStatus(assets[k])];
      evidence := evidence[assets[k].id := []];
      FreshGrows(assets, statusBefore, evidenceBefore, k, status, evidence);
    }
    entries := [];
    var index := 0;
    FreshStands(cfg, assets, status, evidence);
    while index < |assets|
      invariant index <= |assets|
      invariant AllStanding(cfg, assets, status, evidence, index, index + 1)
      invariant entries + EntriesFrom(cfg, assets, index, index + 1) == EntriesFrom(cfg, assets, 0, 1)
    {
      var other := index + 1;
      while other < |assets|
        invariant index < other <= |assets|
        invariant AllStanding(cfg, assets, status, evidence, index, other)
        invariant entries + EntriesFrom(cfg, assets, index, other) == EntriesFrom(cfg, assets, 0, 1)
      {
        ghost var before := entries;
        entries, status, evidence := MeetPair(cfg, assets, index, other, entries, status, evidence);
        EntriesStep(cfg, assets, index, other, before, entries);
        other := other + 1;
      }
      NextRow(cfg, assets, status, evidence, index);
      index := index + 1;
    }
    NoEntries(cfg, assets);
    assert entries + [] == entries;
    entries := Sort(EntryLe, entries);
    result := Settled(cfg, assets, status, evidence);
  }

  method Settled(cfg: Config, assets: seq<Asset>, status: map<string, Match>, evidence: map<string, seq<Entry>>)
    returns (result: seq<Asset>)
    requires AllStanding(cfg, assets, status, evidence, |assets|, |assets| + 1)
    ensures result == Reconciled(cfg, assets)
  {
    hide Standing, Sort, ReconciledAsset;
    result := [];
    for k := 0 to |assets|
      invariant result == Reconciled(cfg, assets)[..k]
    {
      assert Met(k, |assets|, |assets| + 1, |assets|) == |assets|;
      StandingEnd(cfg, assets, status, evidence, k);
      result := result + [assets[k].(status := status[assets[k].id],
                                     evidence := Sort(EntryLe, evidence[assets[k].id]))];
    }
  }

  ghost predicate AllStanding(cfg: Config, assets: seq<Asset>, status: map<string, Match>,
                              evidence: map<string, seq<Entry>>, l: nat, r: nat)
    requires l <= |assets| && l < r && (l < |assets| ==> r <= |assets|)
  {
    forall k | 0 <= k < |assets| :: Standing(cfg, assets, status, evidence, k, Met(k, l, r, |assets|))
  }

  ghost predicate Fresh(assets: seq<Asset>, status: map<string, Match>, evidence: map<string, seq<Entry>>, k: nat)
    requires k < |assets|
  {
    && assets[k].id in status && status[assets[k].id] == BaseStatus(assets[k])
    && assets[k].id in evidence && evidence[assets[k].id] == []
  }

  lemma FreshGrows(assets: seq<Asset>, status: map<string, Match>, evidence: map<string, seq<Entry>>, k: nat,
                   nextStatus: map<string, Match>, nextEvidence: map<string, seq<Entry>>)
    requires UniqueIds(assets) && k < |assets| && forall i | 0 <= i < k :: Fresh(assets, status, evidence, i)
    requires nextStatus == status[assets[k].id := BaseStatus(assets[k])]
    requires nextEvidence == evidence[assets[k].id := []]
    ensures forall i | 0 <= i <= k :: Fresh(assets, nextStatus, nextEvidence, i)
  {
    forall i | 0 <= i <= k ensures Fresh(assets, nextStatus, nextEvidence, i) {
      if i < k {
        assert Fresh(assets, status, evidence, i);
        assert assets[i].id != assets[k].id;
      }
    }
  }

  lemma FreshStands(cfg: Config, assets: seq<Asset>, status: map<string, Match>, evidence: map<string, seq<Entry>>)
    requires forall i | 0 <= i < |assets| :: Fresh(assets, status, evidence, i)
    ensures AllStanding(cfg, assets, status, evidence, 0, 1)
  {
    forall k | 0 <= k < |assets| ensures Standing(cfg, assets, status, evidence, k, Met(k, 0, 1, |assets|)) {
      assert Fresh(assets, status, evidence, k);
      if k == 0 {
        StandingSelf(cfg, assets, status, evidence, k);
      }
    }
  }

  lemma NextRow(cfg: Config, assets: seq<Asset>, status: map<string, Match>, evidence: map<string, seq<Entry>>, l: nat)
    requires l < |assets| && AllStanding(cfg, assets, status, evidence, l, |assets|)
    ensures AllStanding(cfg, assets, status, evidence, l + 1, l + 2)
    ensures EntriesFrom(cfg, assets, l, |assets|) == EntriesFrom(cfg, assets, l + 1, l + 2)
  {
    hide Standing;
    var row, column := l + 1, l + 2;
    forall k | 0 <= k < |assets| ensures Standing(cfg, assets, status, evidence, k, Met(k, row, column, |assets|)) {
      assert Standing(cfg, assets, status, evidence, k, Met(k, l, |assets|, |assets|));
      if k == l + 1 {
        StandingSelf(cfg, assets, status, evidence, k);
      }
    }
  }

  lemma NoEntries(cfg: Config, assets: seq<Asset>)
    ensures EntriesFrom(cfg, assets, |assets|, |assets| + 1) == []
  {
  }

  lemma StandingEnd(cfg: Config, assets: seq<Asset>, status: map<string, Match>, evidence: map<string, seq<Entry>>,
                    k: nat)
    requires k < |assets| && Standing(cfg, assets, status, evidence, k, |assets|)
    ensures assets[k].id in status && assets[k].id in evidence
    ensures assets[k].(status := status[assets[k].id], evidence := Sort(EntryLe, evidence[assets[k].id])) ==
            ReconciledAsset(cfg, assets, k)
  {
  }

  lemma EntriesStep(cfg: Config, assets: seq<Asset>, l: nat, r: nat, before: seq<Entry>, after: seq<Entry>)
    requires l < r < |assets|
    requires var e := EntryOf(cfg, assets[l], assets[r]); after == before + (if e.None? then [] else [e.value])
    ensures after + EntriesFrom(cfg, assets, l, r + 1) == before + EntriesFrom(cfg, assets, l, r)
  {
    hide EntryOf;
  }

  // --- what reconciliation decides ----------------------------------------------------------

  /** The final status ranks as high as the base status and every entry, and is one of them. */
  lemma {:induction false} BestIsHighest(base: Match, entries: seq<Entry>)
    ensures var best := Best(base, entries);
      && MatchRank(best) >= MatchRank(base)
      && (forall e | e in entries :: MatchRank(best) >= MatchRank(e.status))
      && (best == base || exists e | e in entries :: best == e.status)
  {
    if entries != [] {
      var init, last := entries[..|entries| - 1], entries[|entries| - 1];
      assert entries == init + [last];
      BestIsHighest(base, init);
      if Best(base, init) != base {
        var e :| e in init && Best(base, init) == e.status;
        assert e in entries;
      }
      assert last in entries;
    }
  }

  lemma RankInjective(a: Match, b: Match)
    ensures MatchRank(a) == MatchRank(b) ==> a == b
  {
  }

  /** The highest of a base and the same entries in any order is the same. */
  lemma BestIgnoresOrder(base: Match, a: seq<Entry>, b: seq<Entry>)
    requires forall e :: e in a <==> e in b
    ensures Best(base, a) == Best(base, b)
  {
    hide Best, MatchRank;
    BestIsHighest(base, a);
    BestIsHighest(base, b);
    RankInjective(Best(base, a), Best(base, b));
  }

  /** An asset's entries are exactly its verdicts with the other assets. */
  ghost predicate HasEntry(cfg: Config, assets: seq<Asset>, x: Asset, e: Entry)
  {
    exists y | y in assets && y.id != x.id :: EntryOf(cfg, x, y) == Some(e)
  }

  lemma {:induction false} PartnersAre(cfg: Config, assets: seq<Asset>, k: nat, b: nat)
    requires UniqueIds(assets) && k < |assets| && b <= |assets|
    ensures forall e :: e in Partners(cfg, assets, k, b) <==>
              exists j | 0 <= j < b && j != k :: EntryOf(cfg, assets[k], assets[j]) == Some(e)
  {
    hide EntryOf, UniqueIds;
    if b > 0 {
      PartnersAre(cfg, assets, k, b - 1);
    }
  }

  lemma PartnersHave(cfg: Config, assets: seq<Asset>, k: nat)
    requires UniqueIds(assets) && k < |assets|
    ensures forall e :: e in Partners(cfg, assets, k, |assets|) <==> HasEntry(cfg, assets, assets[k], e)
  {
    hide EntryOf, Partners;
    PartnersAre(cfg, assets, k, |assets|);
    forall e ensures e in Partners(cfg, assets, k, |assets|) <==> HasEntry(cfg, assets, assets[k], e) {
      if e in Partners(cfg, assets, k, |assets|) {
        var j :| 0 <= j < |assets| && j != k && EntryOf(cfg, assets[k], assets[j]) == Some(e);
        assert assets[j] in assets && assets[j].id != assets[k].id;
      }
      if HasEntry(cfg, assets, assets[k], e) {
        var y :| y in assets && y.id != assets[k].id && EntryOf(cfg, assets[k], y) == Some(e);
        var j :| 0 <= j < |assets| && assets[j] == y;
      }
    }
  }

  /** Entries with different partners name different assets. */
  lemma EntriesDiffer(cfg: Config, x: Asset, y: Asset, z: Asset, e: Entry, f: Entry)
    requires y.id != z.id && y.id != x.id && z.id != x.id
    requires EntryOf(cfg, x, y) == Some(e) && EntryOf(cfg, x, z) == Some(f)
    ensures (e.first, e.second) != (f.first, f.second)
  {
    hide PairStatus, StringLe;
  }

  ghost predicate DistinctPairs(entries: seq<Entry>)
  {
    forall i, j | 0 <= i < j < |entries| ::
      (entries[i].first, entries[i].second) != (entries[j].first, entries[j].second)
  }

  lemma {:induction false} PartnersDistinct(cfg: Config, assets: seq<Asset>, k: nat, b: nat)
    requires UniqueIds(assets) && k < |assets| && b <= |assets|
    ensures DistinctPairs(Partners(cfg, assets, k, b))
  {
    hide EntryOf;
    if b > 0 {
      PartnersDistinct(cfg, assets, k, b - 1);
      PartnersAre(cfg, assets, k, b - 1);
      var earlier := Partners(cfg, assets, k, b - 1);
      var e := EntryOf(cfg, assets[k], assets[b - 1]);
      if b - 1 != k && e.Some? {
        forall i | 0 <= i < |earlier| ensures (earlier[i].first, earlier[i].second) != (e.value.first, e.value.second) {
          assert earlier[i] in earlier;
          var j :| 0 <= j < b - 1 && j != k && EntryOf(cfg, assets[k], assets[j]) == Some(earlier[i]);
          EntriesDiffer(cfg, assets[k], assets[j], assets[b - 1], earlier[i], e.value);
        }
      }
    }
  }

  lemma EntryOrder()
    ensures Total(EntryLe) && Transitive(EntryLe)
  {
    hide PairLe;
    PairOrder();
  }

  /** Entries with distinct pairs sort to one list, whatever order they come in. */
  lemma SortedEntriesSame(a: seq<Entry>, b: seq<Entry>)
    requires DistinctPairs(a) && DistinctPairs(b) && forall e :: e in a <==> e in b
    ensures Sort(EntryLe, a) == Sort(EntryLe, b)
  {
    hide Sort, PairLe;
    SameSetSameMultiset(a, b);
    EntryOrder();
    forall i, j | 0 <= i < |a| && 0 <= j < |a| && EntryLe(a[i], a[j]) && EntryLe(a[j], a[i]) ensures a[i] == a[j] {
      PairLeAntisymmetric((a[i].first, a[i].second), (a[j].first, a[j].second));
    }
    SortIgnoresOrder(EntryLe, a, b);
  }

  /** Status and evidence of an asset do not depend on the order the assets are listed in. */
  lemma ReconcileIgnoresOrder(cfg: Config, a: seq<Asset>, b: seq<Asset>, i: nat, j: nat)
    requires UniqueIds(a) && UniqueIds(b) && multiset(a) == multiset(b)
    requires i < |a| && j < |b| && a[i] == b[j]
    ensures Reconciled(cfg, a)[i] == Reconciled(cfg, b)[j]
  {
    hide EntryOf, Partners, Best, Sort, UniqueIds, DistinctPairs;
    SameElements(a, b);
    PartnersHave(cfg, a, i);
    PartnersHave(cfg, b, j);
    forall e ensures HasEntry(cfg, a, a[i], e) <==> HasEntry(cfg, b, a[i], e) {
    }
    BestIgnoresOrder(BaseStatus(a[i]), Partners(cfg, a, i, |a|), Partners(cfg, b, j, |b|));
    PartnersDistinct(cfg, a, i, |a|);
    PartnersDistinct(cfg, b, j, |b|);
    SortedEntriesSame(Partners(cfg, a, i, |a|), Partners(cfg, b, j, |b|));
  }

  /** Each asset ends with the highest of its base status and all its verdicts, which are its evidence. */
  lemma ReconciledIsHighest(cfg: Config, assets: seq<Asset>, k: nat)
    requires UniqueIds(assets) && k < |assets|
    ensures var a := Reconciled(cfg, assets)[k];
      && (forall e :: e in a.evidence <==> HasEntry(cfg, assets, assets[k], e))
      && MatchRank(a.status) >= MatchRank(BaseStatus(assets[k]))
      && (forall e | e in a.evidence :: MatchRank(a.status) >= MatchRank(e.status))
      && (a.status == BaseStatus(assets[k]) || exists e | e in a.evidence :: a.status == e.status)
  {
    hide EntryOf, Partners, Best, Sort, MatchRank;
    var partners := Partners(cfg, assets, k, |assets|);
    PartnersHave(cfg, assets, k);
    BestIsHighest(BaseStatus(assets[k]), partners);
    SameElements(partners, Sort(EntryLe, partners));
  }

  ghost predicate Gives(cfg: Config, assets: seq<Asset>, i: nat, j: nat, e: Entry)
  {
    i < j < |assets| && EntryOf(cfg, assets[i], assets[j]) == Some(e)
  }

  /** The pair or a later one of the nested loops gives the entry. */
  ghost predicate GivenFrom(cfg: Config, assets: seq<Asset>, l: nat, r: nat, e: Entry)
  {
    exists i: nat, j: nat :: (l < i || (l == i && r <= j)) && Gives(cfg, assets, i, j, e)
  }

  lemma GivenNext(cfg: Config, assets: seq<Asset>, l: nat, r: nat, e: Entry)
    ensures GivenFrom(cfg, assets, l, r, e) <==> Gives(cfg, assets, l, r, e) || GivenFrom(cfg, assets, l, r + 1, e)
    ensures r >= |assets| && l < |assets| ==>
              (GivenFrom(cfg, assets, l, r, e) <==> GivenFrom(cfg, assets, l + 1, l + 2, e))
    ensures l >= |assets| ==> !GivenFrom(cfg, assets, l, r, e)
  {
    hide EntryOf;
  }

  /** All entries are the verdicts on two different assets. */
  lemma {:induction false} EntriesAre(cfg: Config, assets: seq<Asset>, l: nat, r: nat, e: Entry)
    requires l < r
    ensures e in EntriesFrom(cfg, assets, l, r) <==> GivenFrom(cfg, assets, l, r, e)
    decreases |assets| - l, |assets| - r
  {
    hide EntryOf, GivenFrom;
    GivenNext(cfg, assets, l, r, e);
    if l >= |assets| {
    } else if r >= |assets| {
      EntriesAre(cfg, assets, l + 1, l + 2, e);
    } else {
      EntriesAre(cfg, assets, l, r + 1, e);
    }
  }

  /** The set of entries does not depend on the order of the assets. */
  lemma EntriesIgnoreOrder(cfg: Config, a: seq<Asset>, b: seq<Asset>, e: Entry)
    requires UniqueIds(a) && UniqueIds(b) && multiset(a) == multiset(b) && e in EntriesFrom(cfg, a, 0, 1)
    ensures e in EntriesFrom(cfg, b, 0, 1)
  {
    hide EntryOf, EntriesFrom;
    SameElements(a, b);
    EntriesAre(cfg, a, 0, 1, e);
    EntriesAre(cfg, b, 0, 1, e);
    var i: nat, j: nat :| i < j < |a| && Gives(cfg, a, i, j, e);
    assert a[i] in b && a[j] in b;
    var k: nat :| k < |b| && b[k] == a[i];
    var l: nat :| l < |b| && b[l] == a[j];
    EntrySymmetric(cfg, a[i], a[j]);
    if k < l {
      assert Gives(cfg, b, k, l, e);
    } else {
      assert Gives(cfg, b, l, k, e);
    }
  }

  lemma {:induction false} PartnersLocal(cfg: Config, a: seq<Asset>, b: seq<Asset>, k: nat, n: nat)
    requires |a| == |b| && k < |a| && n <= |a|
    requires forall i | 0 <= i < |a| :: a[i].id == b[i].id && a[i].source == b[i].source && a[i].fields == b[i].fields
    ensures Partners(cfg, a, k, n) == Partners(cfg, b, k, n)
  {
    hide EntryOf;
    if n > 0 {
      PartnersLocal(cfg, a, b, k, n - 1);
      EntryLocal(cfg, a[k], a[n - 1], b[k], b[n - 1]);
    }
  }

  lemma EntryLocal(cfg: Config, a: Asset, b: Asset, c: Asset, d: Asset)
    requires a.id == c.id && a.source == c.source && a.fields == c.fields
    requires b.id == d.id && b.source == d.source && b.fields == d.fields
    ensures EntryOf(cfg, a, b) == EntryOf(cfg, c, d)
  {
  }

  /** Reconciling a second time changes nothing. */
  lemma ReconcileIdempotent(cfg: Config, assets: seq<Asset>)
    ensures Reconciled(cfg, Reconciled(cfg, assets)) == Reconciled(cfg, assets)
  {
    hide Partners, Best, Sort;
    var once := Reconciled(cfg, assets);
    forall k | 0 <= k < |assets| ensures Reconciled(cfg, once)[k] == once[k] {
      PartnersLocal(cfg, once, assets, k, |assets|);
    }
  }
}
