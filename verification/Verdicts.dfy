/** What two assets of different sources must show for each verdict, and what an asset's status therefore says. */
module Verdicts {
  import opened Ordering
  import opened InventoryTypes
  import opened Reconciliation
  import opened InventorySteps
  import opened InventoryRuns
  import ChangeLog

  predicate Agrees(x: string, y: string)
  {
    x != "" && x == y
  }

  predicate Differs(x: string, y: string)
  {
    x != "" && y != "" && x != y
  }

  /** Something agrees although both show serials that differ, or MACs that do. */
  predicate Clashing(a: Identifiers, b: Identifiers)
  {
    && (Agrees(a.serial, b.serial) || Agrees(a.mac, b.mac) || Agrees(a.host, b.host))
    && (Differs(a.serial, b.serial) || Differs(a.mac, b.mac))
  }

  predicate OneDevice(a: Identifiers, b: Identifiers)
  {
    Agrees(a.serial, b.serial) && Agrees(a.mac, b.mac)
  }

  predicate NoHardware(a: Identifiers, b: Identifiers)
  {
    !Agrees(a.serial, b.serial) && !Agrees(a.mac, b.mac)
  }

  /** Exactly one of serial and MAC agrees, or neither does and a vendor's own id for the device does. */
  predicate LikelyOne(a: Identifiers, b: Identifiers)
  {
    && !Clashing(a, b) && !OneDevice(a, b)
    && (!NoHardware(a, b) || (Agrees(a.sourceId, b.sourceId) && Agrees(a.vendor, b.vendor)))
  }

  /** Nothing agrees but the host name. */
  predicate NameOnly(a: Identifiers, b: Identifiers)
  {
    && !Clashing(a, b) && NoHardware(a, b) && Agrees(a.host, b.host)
    && !(Agrees(a.sourceId, b.sourceId) && Agrees(a.vendor, b.vendor))
  }

  /** The verdict on two assets of different sources, in terms of what they show. */
  predicate Deserves(a: Identifiers, b: Identifiers, m: Match)
  {
    match m
    case Conflicting => Clashing(a, b)
    case ExactMatch => OneDevice(a, b)
    case StrongMatch => LikelyOne(a, b)
    case Ambiguous => NameOnly(a, b)
    case _ => false
  }

  ghost predicate Verdict(cfg: Config, x: Asset, y: Asset, m: Match)
  {
    x.source != y.source && Deserves(cfg.identifiers(x.fields), cfg.identifiers(y.fields), m)
  }

  /** Two assets get a verdict exactly when they deserve it. */
  lemma VerdictMeans(cfg: Config, x: Asset, y: Asset, m: Match)
    ensures PairStatus(cfg, x, y).Some? && PairStatus(cfg, x, y).value.0 == m <==> Verdict(cfg, x, y, m)
  {
  }

  /** The evidence of a match names what agrees. */
  lemma EvidenceNames(cfg: Config, x: Asset, y: Asset)
    requires PairStatus(cfg, x, y).Some?
    ensures var a, b := cfg.identifiers(x.fields), cfg.identifiers(y.fields);
            var (m, evidence) := PairStatus(cfg, x, y).value;
      && ("serial_number" in evidence <==> Agrees(a.serial, b.serial) && m != Conflicting)
      && ("mac_address" in evidence <==> Agrees(a.mac, b.mac) && m != Conflicting)
      && ("model" in evidence <==> m == StrongMatch && Agrees(a.serial, b.serial) && Agrees(a.model, b.model))
      && ("shared_vendor_device_id" in evidence <==> m == StrongMatch && NoHardware(a, b))
      && ("hostname_only" in evidence <==> m == Ambiguous)
  {
    hide StringLe;
  }

  /** The evidence of a conflict names the agreement that others speak against. */
  lemma ConflictNames(cfg: Config, x: Asset, y: Asset)
    requires PairStatus(cfg, x, y).Some? && PairStatus(cfg, x, y).value.0 == Conflicting
    ensures var a, b := cfg.identifiers(x.fields), cfg.identifiers(y.fields);
            var evidence := PairStatus(cfg, x, y).value.1;
            evidence == if Agrees(a.serial, b.serial) then ["serial_number agrees", "mac_address conflicts"]
                        else if Agrees(a.mac, b.mac) then ["mac_address agrees", "serial_number conflicts"]
                        else ["hostname agrees but strong identifiers conflict"]
  {
  }

  /** An entry names both assets, the lesser id first, and carries the verdict. */
  lemma EntryNames(cfg: Config, x: Asset, y: Asset)
    requires x.id != y.id && EntryOf(cfg, x, y).Some?
    ensures var e := EntryOf(cfg, x, y).value;
            {e.first, e.second} == {x.id, y.id} && !StringLe(e.second, e.first) && Verdict(cfg, x, y, e.status)
  {
    hide PairStatus, Verdict, StringLe;
    StringLeTotal(x.id, y.id);
    if StringLe(x.id, y.id) && StringLe(y.id, x.id) {
      StringLeAntisymmetric(x.id, y.id);
    }
    VerdictMeans(cfg, x, y, EntryOf(cfg, x, y).value.status);
  }

  // --- the status of an asset ---------------------------------------------------------------

  /** Some other asset of the inventory gets this verdict with the asset. */
  ghost predicate Meets(cfg: Config, assets: seq<Asset>, x: Asset, m: Match)
  {
    exists y | y in assets && y.id != x.id :: Verdict(cfg, x, y, m)
  }

  /** The asset shows a serial number, a MAC address or its source's own id for it. */
  predicate Identified(a: Asset)
  {
    Shows(a, SerialNumber) || Shows(a, MacAddress) || Shows(a, SourceAssetId)
  }

  predicate Shows(a: Asset, f: Field)
  {
    f in a.fields && a.fields[f] != Text("") && a.fields[f] != Number(0) && a.fields[f] != Truth(false)
  }

  /** The status that an asset deserves among others: the worst conflict first, then the best match. */
  ghost predicate StatusFits(cfg: Config, assets: seq<Asset>, x: Asset, status: Match)
  {
    match status
    case Conflicting => Meets(cfg, assets, x, Conflicting)
    case ExactMatch => Meets(cfg, assets, x, ExactMatch) && !Meets(cfg, assets, x, Conflicting)
    case StrongMatch =>
      Meets(cfg, assets, x, StrongMatch) && !Meets(cfg, assets, x, ExactMatch) && !Meets(cfg, assets, x, Conflicting)
    case Ambiguous => Meets(cfg, assets, x, Ambiguous) && !Matched(cfg, assets, x)
    case SourceOnly => !Matched(cfg, assets, x) && !Meets(cfg, assets, x, Ambiguous) && Identified(x)
    case Unmatched => !Matched(cfg, assets, x) && !Meets(cfg, assets, x, Ambiguous) && !Identified(x)
  }

  ghost predicate Matched(cfg: Config, assets: seq<Asset>, x: Asset)
  {
    Meets(cfg, assets, x, StrongMatch) || Meets(cfg, assets, x, ExactMatch) || Meets(cfg, assets, x, Conflicting)
  }

  lemma EntryStatus(cfg: Config, assets: seq<Asset>, x: Asset, m: Match)
    ensures Meets(cfg, assets, x, m) <==> exists e :: HasEntry(cfg, assets, x, e) && e.status == m
  {
    hide PairStatus, Verdict;
    forall y ensures EntryOf(cfg, x, y).Some? && EntryOf(cfg, x, y).value.status == m <==> Verdict(cfg, x, y, m) {
      VerdictMeans(cfg, x, y, m);
    }
    if Meets(cfg, assets, x, m) {
      var y :| y in assets && y.id != x.id && Verdict(cfg, x, y, m);
      assert HasEntry(cfg, assets, x, EntryOf(cfg, x, y).value);
    }
  }

  /** Reconciliation gives each asset exactly the status that it deserves. */
  lemma ReconciledFits(cfg: Config, assets: seq<Asset>, k: nat)
    requires UniqueIds(assets) && k < |assets|
    ensures StatusFits(cfg, assets, assets[k], Reconciled(cfg, assets)[k].status)
  {
    hide HasEntry, Meets, ReconciledAsset, UniqueIds;
    var x, a := assets[k], Reconciled(cfg, assets)[k];
    ReconciledIsHighest(cfg, assets, k);
    EntryStatus(cfg, assets, x, Conflicting);
    EntryStatus(cfg, assets, x, ExactMatch);
    EntryStatus(cfg, assets, x, StrongMatch);
    EntryStatus(cfg, assets, x, Ambiguous);
    NoSuchVerdict(cfg, assets, x);
  }

  lemma NoSuchVerdict(cfg: Config, assets: seq<Asset>, x: Asset)
    ensures !exists e :: HasEntry(cfg, assets, x, e) && (e.status == SourceOnly || e.status == Unmatched)
  {
    hide HasEntry;
    EntryStatus(cfg, assets, x, SourceOnly);
    EntryStatus(cfg, assets, x, Unmatched);
  }

  // --- published by an ingest ---------------------------------------------------------------

  lemma MeetsSame(cfg: Config, a: seq<Asset>, b: seq<Asset>, x: Asset, y: Asset, m: Match)
    requires |a| == |b| && forall i | 0 <= i < |a| :: a[i].id == b[i].id && a[i].source == b[i].source
                                                      && a[i].fields == b[i].fields
    requires x.id == y.id && x.source == y.source && x.fields == y.fields
    ensures Meets(cfg, a, x, m) <==> Meets(cfg, b, y, m)
  {
    hide Deserves;
    if Meets(cfg, a, x, m) {
      var z :| z in a && z.id != x.id && Verdict(cfg, x, z, m);
      var i :| 0 <= i < |a| && a[i] == z;
      assert b[i] in b && Verdict(cfg, y, b[i], m);
    }
    if Meets(cfg, b, y, m) {
      var z :| z in b && z.id != y.id && Verdict(cfg, y, z, m);
      var i :| 0 <= i < |b| && b[i] == z;
      assert a[i] in a && Verdict(cfg, x, a[i], m);
    }
  }

  /** Every ingest leaves each asset of the inventory with the status it deserves among the others. */
  lemma IngestedFits(cfg: Config, s: Inventory, batch: Batch, x: Asset)
    requires UniqueIds(s.assets) && x in Step(cfg, s, Ingest(batch)).assets
    ensures StatusFits(cfg, Step(cfg, s, Ingest(batch)).assets, x, x.status)
  {
    hide ReconciledAsset, IngestUpTo, Sort, Meets, UniqueIds, ChangeLog.AppendChanges;
    IngestUpToStates(cfg, s, batch, |batch.records|, x.id);
    var assets := IngestUpTo(cfg, s, batch, |batch.records|).assets;
    var reconciled := Reconciled(cfg, assets);
    var published := Sort(AssetLe, reconciled);
    SameElements(reconciled, published);
    var k :| 0 <= k < |reconciled| && reconciled[k] == x;
    ReconciledFits(cfg, assets, k);
    forall m: Match ensures Meets(cfg, assets, assets[k], m) <==> Meets(cfg, published, x, m) {
      MeetsSame(cfg, assets, reconciled, assets[k], x, m);
      MeetsAnyOrder(cfg, reconciled, published, x, m);
    }
  }

  lemma MeetsAnyOrder(cfg: Config, a: seq<Asset>, b: seq<Asset>, x: Asset, m: Match)
    requires forall y :: y in a <==> y in b
    ensures Meets(cfg, a, x, m) <==> Meets(cfg, b, x, m)
  {
    hide Verdict;
  }

  // --- order --------------------------------------------------------------------------------

  /** Entries are listed by the lesser id, and then by the greater one. */
  lemma EntriesListed(cfg: Config, assets: seq<Asset>, i: nat, j: nat)
    requires i < j < |Sort(EntryLe, EntriesFrom(cfg, assets, 0, 1))|
    ensures var entries := Sort(EntryLe, EntriesFrom(cfg, assets, 0, 1));
            if entries[i].first == entries[j].first then StringLe(entries[i].second, entries[j].second)
            else StringLe(entries[i].first, entries[j].first)
  {
    hide Sort, EntriesFrom, StringLe;
    EntryOrder();
    SortSorts(EntryLe, EntriesFrom(cfg, assets, 0, 1));
  }
}
