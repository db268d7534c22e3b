/**
 The entities of the asset inventory.  Times are seconds, normalised texts are opaque values, and
 the SHA-256 identifiers are an injective numbering supplied by the configuration.
 */
module InventoryTypes {
  import opened Options
  import opened Ordering

  type Time = int

  datatype Lifecycle = Discovered | Active | Offline | Stale | Missing | Retired

  /** The fields whose changes are tracked, in the order they are compared. */
  datatype Field =
    | Hostname | DisplayName | ManagementIp | MacAddress | SerialNumber | SourceAssetId | Vendor
    | Model | Platform | DeviceType | DeviceRole | Customer | Site | Location | FirmwareVersion
    | Claimed | Managed | SourcePriority | SourceRecordId

  const TRACKED: seq<Field> :=
    [Hostname, DisplayName, ManagementIp, MacAddress, SerialNumber, SourceAssetId, Vendor, Model,
     Platform, DeviceType, DeviceRole, Customer, Site, Location, FirmwareVersion, Claimed, Managed,
     SourcePriority, SourceRecordId]

  const PROTECTED: set<Field> := {SerialNumber, MacAddress, SourceAssetId}

  datatype Value = Text(s: string) | Number(n: int) | Truth(b: bool)

  /** Python's truth value. */
  predicate Truthy(v: Option<Value>)
  {
    match v
    case None => false
    case Some(Text(s)) => s != ""
    case Some(Number(n)) => n != 0
    case Some(Truth(b)) => b
  }

  function Lookup(fields: map<Field, Value>, f: Field): Option<Value>
  {
    if f in fields then Some(fields[f]) else None
  }

  datatype Match = Unmatched | SourceOnly | Ambiguous | StrongMatch | ExactMatch | Conflicting

  /** A reconciliation entry: the two assets in id order, the verdict and what it rests on. */
  datatype Entry = Entry(first: string, second: string, status: Match, evidence: seq<string>)

  datatype Asset = Asset(
    id: string,
    source: string,
    lifecycle: Lifecycle,
    online: Option<bool>,
    lastSeen: Option<Time>,
    observedRun: Option<string>,
    fields: map<Field, Value>,
    status: Match,
    evidence: seq<Entry>)

  /** Assets are found by id; an inventory holds each id once. */
  ghost predicate UniqueIds(assets: seq<Asset>)
  {
    forall i, j | 0 <= i < j < |assets| :: assets[i].id != assets[j].id
  }

  function Find(assets: seq<Asset>, id: string): (i: nat)
    ensures i <= |assets| && (i < |assets| ==> assets[i].id == id)
    ensures forall j | 0 <= j < i :: assets[j].id != id
  {
    if assets == [] || assets[0].id == id then 0
    else
      var i := Find(assets[1..], id);
      assert forall j | 1 <= j < i + 1 :: assets[j] == assets[1..][j - 1];
      i + 1
  }

  function AssetOf(assets: seq<Asset>, id: string): (a: Option<Asset>)
    ensures a.Some? ==> a.value in assets && a.value.id == id
    ensures a.None? ==> forall i | 0 <= i < |assets| :: assets[i].id != id
  {
    var i := Find(assets, id);
    if i < |assets| then Some(assets[i]) else None
  }

  function StateOf(assets: seq<Asset>, id: string): Option<Lifecycle>
  {
    var a := AssetOf(assets, id);
    if a.Some? then Some(a.value.lifecycle) else None
  }

  /** Assignment to the inventory's dictionary of assets. */
  function PutAsset(assets: seq<Asset>, item: Asset): seq<Asset>
  {
    var i := Find(assets, item.id);
    if i < |assets| then assets[i := item] else assets + [item]
  }

  lemma AssetOfIff(assets: seq<Asset>, a: Asset)
    requires UniqueIds(assets)
    ensures AssetOf(assets, a.id) == Some(a) <==> a in assets
  {
  }

  lemma PutAssetGets(assets: seq<Asset>, item: Asset, id: string)
    requires UniqueIds(assets)
    ensures UniqueIds(PutAsset(assets, item))
    ensures AssetOf(PutAsset(assets, item), id) == if id == item.id then Some(item) else AssetOf(assets, id)
  {
    var r := PutAsset(assets, item);
    var i := Find(assets, item.id);
    if i < |assets| {
      assert forall k | 0 <= k < |r| :: r[k] == if k == i then item else assets[k];
      AssetOfIff(r, item);
      assert r[i] == item;
    } else {
      assert r[|assets|] == item;
      AssetOfIff(r, item);
    }
    if id != item.id {
      var a, b := AssetOf(assets, id), AssetOf(r, id);
      if a.Some? {
        AssetOfIff(r, a.value);
        assert a.value in r;
      }
      if b.Some? {
        AssetOfIff(assets, b.value);
      }
    }
  }

  /** Rearranging the assets changes no look-up. */
  lemma PermutationGets(a: seq<Asset>, b: seq<Asset>, id: string)
    requires UniqueIds(a) && multiset(a) == multiset(b)
    ensures UniqueIds(b) && AssetOf(b, id) == AssetOf(a, id)
  {
    var idOf := (x: Asset) => x.id;
    MapPermutation(idOf, a, b);
    var p, q := Map(idOf, a), Map(idOf, b);
    assert NoDuplicates(p);
    NoDuplicatesPermutation(p, q);
    forall i, j | 0 <= i < j < |b| ensures b[i].id != b[j].id {
      assert q[i] != q[j];
    }
    SameElements(a, b);
    var x, y := AssetOf(a, id), AssetOf(b, id);
    if x.Some? {
      AssetOfIff(b, x.value);
    }
    if y.Some? {
      AssetOfIff(a, y.value);
    }
  }

  /** Assets changed in place, each keeping its id, are found where they were. */
  lemma InPlaceGets(a: seq<Asset>, b: seq<Asset>, id: string)
    requires |a| == |b| && forall i | 0 <= i < |a| :: a[i].id == b[i].id
    ensures Find(a, id) == Find(b, id)
    ensures UniqueIds(a) ==> UniqueIds(b)
  {
    var i, j := Find(a, id), Find(b, id);
    if i < |a| {
      assert b[i].id == id;
    }
    if j < |b| {
      assert a[j].id == id;
    }
  }

  /** What is hashed into the id of a lifecycle event. */
  datatype TransitionKey = TransitionKey(
    asset: string, previous: Option<Lifecycle>, current: Lifecycle, reason: string, at: Time, runId: Option<string>)

  datatype Transition = Transition(
    eventId: int, asset: string, previous: Option<Lifecycle>, current: Lifecycle, reason: string, at: Time,
    runId: Option<string>)

  datatype Severity = Info | LowSeverity | MediumSeverity | HighSeverity

  function SeverityRank(s: Severity): nat
  {
    match s
    case Info => 0
    case LowSeverity => 1
    case MediumSeverity => 2
    case HighSeverity => 3
  }

  /** What is hashed into the id of a change event, with the values as they were compared. */
  datatype ChangeKey = ChangeKey(
    asset: string, field: Field, previous: Option<Value>, current: Option<Value>, kind: string, at: Time,
    runId: Option<string>)

  datatype Change = Change(
    eventId: int, asset: string, field: Field, previous: Option<Value>, current: Option<Value>, kind: string,
    severity: Severity, reason: string, at: Time, runId: Option<string>)

  /** The normalised identifiers two assets are compared by; "" where an asset shows none. */
  datatype Identifiers = Identifiers(
    serial: string, mac: string, host: string, sourceId: string, vendor: string, model: string)

  datatype Config = Config(
    staleAfter: int,
    missingAfter: int,
    historyMax: nat,
    historyRetention: int,
    changeMax: nat,
    changeRetention: int,
    window: int,
    detection: bool,
    ignored: set<Field>,
    enrichmentOnly: set<Field>,
    minimum: Field -> Severity,
    hostExcluded: string -> bool,
    excludedTypes: set<Value>,
    comparable: (Field, Value) -> Option<Value>,
    identifiers: map<Field, Value> -> Identifiers,
    transitionId: TransitionKey -> int,
    changeId: ChangeKey -> int)

  /** What the engine's constructor insists on; retention is counted in seconds. */
  ghost predicate Accepted(cfg: Config)
  {
    && 0 <= cfg.staleAfter <= cfg.missingAfter
    && cfg.historyMax >= 1 && cfg.historyRetention >= 86400
    && cfg.changeMax >= 1 && cfg.changeRetention >= 86400
    && cfg.window >= 0
  }

  /** Distinct events have distinct identifiers. */
  ghost predicate InjectiveIds(cfg: Config)
  {
    && (forall a, b | cfg.transitionId(a) == cfg.transitionId(b) :: a == b)
    && (forall a, b | cfg.changeId(a) == cfg.changeId(b) :: a == b)
  }
}
