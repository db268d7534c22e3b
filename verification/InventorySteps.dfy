/**
 The operations of the inventory engine as steps on its four files: assets, lifecycle history,
 change history and source runs.  Each operation holds the inventory lock, so it is one step.
 */
module InventorySteps {
  import opened Options
  import opened Ordering
  import opened InventoryTypes
  import opened History
  import opened Aging
  import ChangeLog
  import ChangeDetection
  import Reconciliation

  datatype Inventory = Inventory(
    assets: seq<Asset>,
    history: seq<Transition>,
    changes: seq<InventoryTypes.Change>,
    runs: Runs)

  /** A record as it is adapted for the inventory; `lifecycle` is what it declares, if it declares a known state. */
  datatype Observation = Observation(
    id: string,
    lifecycle: Option<Lifecycle>,
    online: Option<bool>,
    observedRun: Option<string>,
    fields: map<Field, Value>,
    declared: set<Field>)

  /** One ingest call. */
  datatype Batch = Batch(
    source: string, records: seq<Observation>, at: Time, runId: Option<string>, authoritative: set<Field>,
    partial: bool)

  datatype Op =
    | Ingest(batch: Batch)
    | MarkSeen(id: string, at: Time, online: Option<bool>)
    | Retire(id: string, reason: string, at: Time)
    | Restore(id: string, reason: string, at: Time)
    | SetLifecycle(id: string, state: Lifecycle, at: Time)
    | UpdateLifecycle(at: Time)
    | Complete(source: string, run: Run, success: bool, partial: bool)

  // --- ingest -------------------------------------------------------------------------------

  function FindSourceId(assets: seq<Asset>, source: string, sourceId: Option<Value>): (i: nat)
    ensures i <= |assets|
    ensures i < |assets| ==> assets[i].source == source && Lookup(assets[i].fields, SourceAssetId) == sourceId
    ensures forall j | 0 <= j < i ::
            !(assets[j].source == source && Lookup(assets[j].fields, SourceAssetId) == sourceId)
  {
    if assets == [] || (assets[0].source == source && Lookup(assets[0].fields, SourceAssetId) == sourceId) then 0
    else
      var i := FindSourceId(assets[1..], source, sourceId);
      assert forall j | 1 <= j < i + 1 :: assets[j] == assets[1..][j - 1];
      i + 1
  }

  /** The asset a record continues: by id, else by the source's own id for it. */
  function Continues(assets: seq<Asset>, source: string, o: Observation): (a: Option<Asset>)
    ensures a.Some? ==> a.value in assets
    ensures a.None? ==> AssetOf(assets, o.id).None?
  {
    var byId := AssetOf(assets, o.id);
    if byId.Some? then byId
    else
      var sourceId := Lookup(o.fields, SourceAssetId);
      var i := FindSourceId(assets, source, sourceId);
      if Truthy(sourceId) && i < |assets| then Some(assets[i]) else None
  }

  function Target(assets: seq<Asset>, source: string, o: Observation): string
  {
    var a := Continues(assets, source, o);
    if a.Some? then a.value.id else o.id
  }

  function ObservedState(previous: Lifecycle, online: Option<bool>): Lifecycle
  {
    if previous == Retired then Retired else if online == Some(false) then Offline else Active
  }

  function FirstState(o: Observation): Lifecycle
  {
    if o.lifecycle.Some? then o.lifecycle.value else if o.online == Some(false) then Offline else Discovered
  }

  function ObservedReason(previous: Lifecycle, current: Lifecycle): string
  {
    if (previous == Stale || previous == Missing) && current == Active then "rediscovered"
    else if current == Offline then "source_reported_offline"
    else if previous == Offline && current == Active then "source_reported_online"
    else "repeated_observation"
  }

  datatype Ingesting = Ingesting(assets: seq<Asset>, history: seq<Transition>, events: seq<InventoryTypes.Change>)

  /** What the record reports of the asset it continues: the fields it settles to, and the changes. */
  function Compared(cfg: Config, previous: Asset, batch: Batch, o: Observation)
    : (map<Field, Value>, seq<InventoryTypes.Change>)
  {
    var declared := if o.declared != {} then o.declared else batch.authoritative;
    ChangeDetection.Detect(cfg, previous.id, previous.fields, o.fields,
      ChangeDetection.Pass(declared, batch.partial, batch.at, batch.runId))
  }

  /** The asset as the record leaves it. */
  function Item(cfg: Config, assets: seq<Asset>, batch: Batch, o: Observation): (item: Asset)
    ensures item.id == Target(assets, batch.source, o)
  {
    var previous := Continues(assets, batch.source, o);
    var seen := if batch.runId.Some? then batch.runId else o.observedRun;
    Asset(
      Target(assets, batch.source, o), batch.source,
      if previous.Some? then ObservedState(previous.value.lifecycle, o.online) else FirstState(o),
      o.online, Some(batch.at), seen,
      if previous.Some? then Compared(cfg, previous.value, batch, o).0 else o.fields,
      Unmatched, [])
  }

  function IngestKey(assets: seq<Asset>, batch: Batch, o: Observation): TransitionKey
  {
    var previous := Continues(assets, batch.source, o);
    var id := Target(assets, batch.source, o);
    if previous.Some? then
      var state := ObservedState(previous.value.lifecycle, o.online);
      TransitionKey(id, Some(previous.value.lifecycle), state, ObservedReason(previous.value.lifecycle, state),
                    batch.at, batch.runId)
    else TransitionKey(id, None, FirstState(o), "first_observation", batch.at, batch.runId)
  }

  function IngestOne(cfg: Config, st: Ingesting, batch: Batch, o: Observation): Ingesting
  {
    var previous := Continues(st.assets, batch.source, o);
    Ingesting(
      PutAsset(st.assets, Item(cfg, st.assets, batch, o)),
      AppendTransition(cfg, st.history, IngestKey(st.assets, batch, o)),
      st.events + (if previous.Some? then Compared(cfg, previous.value, batch, o).1 else []))
  }

  function IngestUpTo(cfg: Config, s: Inventory, batch: Batch, n: nat): Ingesting
    requires n <= |batch.records|
  {
    if n == 0 then Ingesting(s.assets, s.history, [])
    else IngestOne(cfg, IngestUpTo(cfg, s, batch, n - 1), batch, batch.records[n - 1])
  }

  predicate AssetLe(a: Asset, b: Asset)
  {
    StringLe(a.id, b.id)
  }

  function IngestBatch(cfg: Config, s: Inventory, batch: Batch): Inventory
  {
    var st := IngestUpTo(cfg, s, batch, |batch.records|);
    Inventory(
      Sort(AssetLe, Reconciliation.Reconciled(cfg, st.assets)),
      st.history,
      ChangeLog.AppendChanges(cfg, s.changes, st.events, batch.at),
      s.runs)
  }

  // --- one asset at a time ------------------------------------------------------------------

  /** Replaces the asset at its place and records its change of state. */
  function Move(cfg: Config, s: Inventory, item: Asset, reason: string, at: Time, runId: Option<string>): Inventory
  {
    var i := Find(s.assets, item.id);
    if i >= |s.assets| then s
    else
      var key := TransitionKey(item.id, Some(s.assets[i].lifecycle), item.lifecycle, reason, at, runId);
      s.(assets := s.assets[i := item], history := AppendTransition(cfg, s.history, key))
  }

  function Seen(a: Asset, at: Time, online: Option<bool>): (r: Asset)
    ensures r.id == a.id
  {
    var updated := a.(lastSeen := Some(at), online := if online.Some? then online else a.online);
    if a.lifecycle == Retired then updated
    else updated.(lifecycle := if updated.online == Some(false) then Offline else Active)
  }

  function SeenReason(before: Lifecycle, after: Lifecycle): string
  {
    if after == Offline then "source_reported_offline"
    else if before == Stale || before == Missing then "rediscovered"
    else "source_reported_online"
  }

  function Restored(cfg: Config, a: Asset, runs: Runs, at: Time): Lifecycle
  {
    var aged := StateFromEvidence(cfg, a, runs, at).0;
    if aged.Some? then aged.value else if a.online == Some(false) then Offline else Active
  }

  function RunIdOf(run: Option<Run>): Option<string>
  {
    if run.Some? then Some(run.value.id) else None
  }

  /** What the evidence makes of one asset; retired assets are left alone. */
  function Aged(cfg: Config, a: Asset, runs: Runs, at: Time): Lifecycle
  {
    var state := StateFromEvidence(cfg, a, runs, at).0;
    if a.lifecycle == Retired || state.None? then a.lifecycle else state.value
  }

  /** The assets when the first `n` have been looked at. */
  function AgedUpTo(cfg: Config, s: Inventory, at: Time, n: nat): (r: seq<Asset>)
    requires n <= |s.assets|
    ensures |r| == |s.assets|
    ensures forall i | 0 <= i < |r| ::
              r[i] == if i < n then s.assets[i].(lifecycle := Aged(cfg, s.assets[i], s.runs, at)) else s.assets[i]
  {
    seq(|s.assets|, i requires 0 <= i < |s.assets| =>
      if i < n then s.assets[i].(lifecycle := Aged(cfg, s.assets[i], s.runs, at)) else s.assets[i])
  }

  function AgingKey(cfg: Config, a: Asset, runs: Runs, at: Time): TransitionKey
  {
    var state := Aged(cfg, a, runs, at);
    TransitionKey(a.id, Some(a.lifecycle), state,
                  if state == Missing then "missing_threshold_exceeded" else "stale_threshold_exceeded",
                  at, RunIdOf(StateFromEvidence(cfg, a, runs, at).1))
  }

  function AgingHistory(cfg: Config, s: Inventory, at: Time, n: nat): seq<Transition>
    requires n <= |s.assets|
  {
    if n == 0 then s.history
    else AppendTransition(cfg, AgingHistory(cfg, s, at, n - 1), AgingKey(cfg, s.assets[n - 1], s.runs, at))
  }

  /** The transitions an update of the first `n` assets records, in order. */
  function AgingEvents(cfg: Config, s: Inventory, at: Time, n: nat): seq<Transition>
    requires n <= |s.assets|
  {
    if n == 0 then []
    else
      var key := AgingKey(cfg, s.assets[n - 1], s.runs, at);
      AgingEvents(cfg, s, at, n - 1) +
      (if key.previous == Some(key.current) || Recorded(AgingHistory(cfg, s, at, n - 1), cfg.transitionId(key)) then []
       else [MakeTransition(cfg, key)])
  }

  function AgeAll(cfg: Config, s: Inventory, at: Time): Inventory
  {
    s.(assets := AgedUpTo(cfg, s, at, |s.assets|), history := AgingHistory(cfg, s, at, |s.assets|))
  }

  // --- all operations -----------------------------------------------------------------------

  /** An operation that the engine refuses leaves everything as it was. */
  function Step(cfg: Config, s: Inventory, op: Op): Inventory
  {
    match op
    case Ingest(batch) => IngestBatch(cfg, s, batch)
    case MarkSeen(id, at, online) =>
      var a := AssetOf(s.assets, id);
      if a.None? then s
      else
        var after := Seen(a.value, at, online);
        Move(cfg, s, after, SeenReason(a.value.lifecycle, after.lifecycle), at, None)
    case Retire(id, reason, at) =>
      var a := AssetOf(s.assets, id);
      if reason == "" || a.None? || a.value.lifecycle == Retired then s
      else Move(cfg, s, a.value.(lifecycle := Retired), "manually_retired", at, None)
    case Restore(id, reason, at) =>
      var a := AssetOf(s.assets, id);
      if reason == "" || a.None? || a.value.lifecycle != Retired then s
      else Move(cfg, s, a.value.(lifecycle := Restored(cfg, a.value, s.runs, at)), "manually_restored", at,
                RunIdOf(StateFromEvidence(cfg, a.value, s.runs, at).1))
    case SetLifecycle(id, state, at) =>
      var a := AssetOf(s.assets, id);
      if a.None? then s
      else if state == Retired then
        if a.value.lifecycle == Retired then s
        else Move(cfg, s, a.value.(lifecycle := Retired), "manually_retired", at, None)
      else Move(cfg, s, a.value.(lifecycle := state), "explicit_lifecycle_update", at, None)
    case UpdateLifecycle(at) => AgeAll(cfg, s, at)
    case Complete(source, run, success, partial) => s.(runs := CompleteRun(s.runs, source, run, success, partial))
  }

  function RunAll(cfg: Config, s: Inventory, ops: seq<Op>): Inventory
    decreases |ops|
  {
    if ops == [] then s else RunAll(cfg, Step(cfg, s, ops[0]), ops[1..])
  }

  const EMPTY := Inventory([], [], [], map[])

  /** When an operation that can touch the lifecycle takes place. */
  function TimeOf(op: Op): Option<Time>
  {
    match op
    case Ingest(batch) => Some(batch.at)
    case MarkSeen(_, at, _) => Some(at)
    case Retire(_, _, at) => Some(at)
    case Restore(_, _, at) => Some(at)
    case SetLifecycle(_, _, at) => Some(at)
    case UpdateLifecycle(at) => Some(at)
    case Complete(_, _, _, _) => None
  }

  function TargetAt(cfg: Config, s: Inventory, batch: Batch, n: nat): string
    requires n < |batch.records|
  {
    Target(IngestUpTo(cfg, s, batch, n).assets, batch.source, batch.records[n])
  }

  /** No two records of the batch continue or create the same asset. */
  ghost predicate DistinctTargets(cfg: Config, s: Inventory, batch: Batch)
  {
    forall i, j | 0 <= i < j < |batch.records| :: TargetAt(cfg, s, batch, i) != TargetAt(cfg, s, batch, j)
  }

  /** The operations come at strictly increasing times, and every batch names each asset once. */
  ghost predicate Orderly(cfg: Config, s: Inventory, ops: seq<Op>, clock: Time)
    decreases |ops|
  {
    ops == [] ||
    (&& (TimeOf(ops[0]).Some? ==> TimeOf(ops[0]).value > clock)
     && (ops[0].Ingest? ==> DistinctTargets(cfg, s, ops[0].batch))
     && Orderly(cfg, Step(cfg, s, ops[0]), ops[1..], if TimeOf(ops[0]).Some? then TimeOf(ops[0]).value else clock))
  }
}
