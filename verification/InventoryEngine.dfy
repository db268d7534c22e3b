/**
 The inventory engine as an object: its fields are the four files it keeps, and each method is the
 step of that name.  An error leaves the object as it was.
 */
module InventoryEngines {
  import opened Options
  import opened Ordering
  import opened InventoryTypes
  import opened History
  import opened Aging
  import opened InventorySteps
  import InventoryRuns
  import ChangeLog
  import ChangeDetection
  import Reconciliation

  datatype Result<+T> = Ok(value: T) | Error(message: string)

  class InventoryEngine {
    const cfg: Config
    var assets: seq<Asset>
    var history: seq<Transition>
    var changes: seq<InventoryTypes.Change>
    var runs: Runs

    constructor (cfg: Config)
      requires Accepted(cfg)
      ensures this.cfg == cfg && Files() == EMPTY
    {
      this.cfg := cfg;
      assets, history, changes, runs := [], [], [], map[];
    }

    function Files(): Inventory
      reads this
    {
      Inventory(assets, history, changes, runs)
    }

    /** Appends a state change to the history unless there is none, or it is there already. */
    method RecordTransition(key: TransitionKey) returns (event: Option<Transition>)
      modifies this`history
      ensures history == AppendTransition(cfg, old(history), key)
      ensures event == if key.previous == Some(key.current) || Recorded(old(history), cfg.transitionId(key)) then None
                       else Some(MakeTransition(cfg, key))
    {
      if key.previous == Some(key.current) {
        return None;
      }
      var made := MakeTransition(cfg, key);
      if Recorded(history, made.eventId) {
        return None;
      }
      var events := Since(history + [made], key.at - cfg.historyRetention);
      history := TakeLast(Sort(TransitionLe, events), cfg.historyMax);
      return Some(made);
    }

    /** Compares one record with the asset it continues, records its state change and stores it. */
    method IngestRecord(current: seq<Asset>, batch: Batch, o: Observation)
      returns (next: seq<Asset>, events: seq<InventoryTypes.Change>)
      modifies this`history
      ensures forall earlier ::
                IngestOne(cfg, Ingesting(current, old(history), earlier), batch, o) ==
                Ingesting(next, history, earlier + events)
    {
      hide AppendTransition, PutAsset, Target, Continues, ChangeDetection.Detect;
      var previous := Continues(current, batch.source, o);
      var id := Target(current, batch.source, o);
      var seen := if batch.runId.Some? then batch.runId else o.observedRun;
      if previous.Some? {
        assert id == previous.value.id by { TargetIs(current, batch.source, o); }
        var before := previous.value.lifecycle;
        var state := ObservedState(before, o.online);
        var _ := RecordTransition(
          TransitionKey(id, Some(before), state, ObservedReason(before, state), batch.at, batch.runId));
        var declared := if o.declared != {} then o.declared else batch.authoritative;
        var fields;
        fields, events := ChangeDetection.DetectChanges(cfg, id, previous.value.fields, o.fields,
          ChangeDetection.Pass(declared, batch.partial, batch.at, batch.runId));
        next := PutAsset(current,
          Asset(id, batch.source, state, o.online, Some(batch.at), seen, fields, Unmatched, []));
      } else {
        var state := FirstState(o);
        var _ := RecordTransition(TransitionKey(id, None, state, "first_observation", batch.at, batch.runId));
        events := [];
        next := PutAsset(current,
          Asset(id, batch.source, state, o.online, Some(batch.at), seen, o.fields, Unmatched, []));
      }
    }

    method Ingest(batch: Batch)
      requires UniqueIds(assets)
      modifies this
      ensures UniqueIds(assets)
      ensures Files() == Step(cfg, old(Files()), Op.Ingest(batch))
    {
      hide IngestOne, UniqueIds, Sort;
      var current := assets;
      var events: seq<InventoryTypes.Change> := [];
      for i := 0 to |batch.records|
        invariant assets == old(assets) && changes == old(changes) && runs == old(runs)
        invariant Ingesting(current, history, events) == IngestUpTo(cfg, old(Files()), batch, i)
      {
        var found;
        ghost var before := Ingesting(current, history, events);
        current, found := IngestRecord(current, batch, batch.records[i]);
        events := events + found;
        assert IngestOne(cfg, before, batch, batch.records[i]) == Ingesting(current, history, events);
      }
      IngestKeepsUnique(cfg, old(Files()), batch);
      var entries, reconciled := Reconciliation.Reconcile(cfg, current);
      assets := Sort(AssetLe, reconciled);
      var accepted;
      changes, accepted := ChangeLog.AppendAccepted(cfg, changes, events, batch.at);
    }

    /** Puts a changed asset back in its place and records its change of state. */
    method Replace(item: Asset, reason: string, at: Time, runId: Option<string>)
      requires AssetOf(assets, item.id).Some?
      modifies this`assets, this`history
      ensures Files() == Move(cfg, old(Files()), item, reason, at, runId)
    {
      hide AppendTransition;
      var i := Find(assets, item.id);
      var before := assets[i].lifecycle;
      assets := assets[i := item];
      var _ := RecordTransition(TransitionKey(item.id, Some(before), item.lifecycle, reason, at, runId));
    }

    method MarkSeen(id: string, at: Time, online: Option<bool>) returns (r: Result<Asset>)
      modifies this`assets, this`history
      ensures Files() == Step(cfg, old(Files()), Op.MarkSeen(id, at, online))
      ensures r.Error? <==> AssetOf(old(assets), id).None?
      ensures r.Ok? ==> r.value == Seen(AssetOf(old(assets), id).value, at, online)
    {
      hide Move;
      var found := AssetOf(assets, id);
      if found.None? {
        return Error("unknown asset_id");
      }
      var item := Seen(found.value, at, online);
      Replace(item, SeenReason(found.value.lifecycle, item.lifecycle), at, None);
      return Ok(item);
    }

    method Retire(id: string, reason: string, at: Time) returns (r: Result<Asset>)
      modifies this`assets, this`history
      ensures Files() == Step(cfg, old(Files()), Op.Retire(id, reason, at))
      ensures r.Error? <==> reason == "" || AssetOf(old(assets), id).None?
      ensures r.Ok? ==> r.value == AssetOf(old(assets), id).value.(lifecycle := Retired)
    {
      hide Move;
      var found := AssetOf(assets, id);
      if reason == "" {
        return Error("retirement reason is required");
      }
      if found.None? {
        return Error("unknown asset_id");
      }
      var item := found.value.(lifecycle := Retired);
      if found.value.lifecycle != Retired {
        Replace(item, "manually_retired", at, None);
      }
      return Ok(item);
    }

    method Restore(id: string, reason: string, at: Time) returns (r: Result<Asset>)
      modifies this`assets, this`history
      ensures Files() == Step(cfg, old(Files()), Op.Restore(id, reason, at))
      ensures r.Error? <==> reason == "" || AssetOf(old(assets), id).None?
      ensures r.Ok? ==> var a := AssetOf(old(assets), id).value;
                        r.value == if a.lifecycle == Retired then a.(lifecycle := Restored(cfg, a, runs, at)) else a
    {
      hide Move;
      var found := AssetOf(assets, id);
      if reason == "" {
        return Error("restoration reason is required");
      }
      if found.None? {
        return Error("unknown asset_id");
      }
      if found.value.lifecycle != Retired {
        return Ok(found.value);
      }
      var (aged, run) := StateFromEvidence(cfg, found.value, runs, at);
      var state := if aged.Some? then aged.value else if found.value.online == Some(false) then Offline else Active;
      var item := found.value.(lifecycle := state);
      Replace(item, "manually_restored", at, RunIdOf(run));
      return Ok(item);
    }

    method SetLifecycle(id: string, state: Lifecycle, at: Time) returns (r: Result<Asset>)
      modifies this`assets, this`history
      ensures Files() == Step(cfg, old(Files()), Op.SetLifecycle(id, state, at))
      ensures r.Error? <==> AssetOf(old(assets), id).None?
      ensures r.Ok? ==> r.value == AssetOf(old(assets), id).value.(lifecycle := state)
    {
      hide Move;
      if state == Retired {
        r := Retire(id, "explicit lifecycle update", at);
        return;
      }
      var found := AssetOf(assets, id);
      if found.None? {
        return Error("unknown asset_id");
      }
      var item := found.value.(lifecycle := state);
      Replace(item, "explicit_lifecycle_update", at, None);
      return Ok(item);
    }

    /** Ages every asset whose source's evidence calls for it; returns the recorded transitions. */
    method UpdateLifecycle(at: Time) returns (transitions: seq<Transition>)
      modifies this`assets, this`history
      ensures Files() == Step(cfg, old(Files()), Op.UpdateLifecycle(at))
      ensures transitions == AgingEvents(cfg, old(Files()), at, |old(assets)|)
    {
      hide AppendTransition, AgedUpTo, AgingHistory, AgingEvents, IngestBatch, Move, Seen, Restored;
      transitions := [];
      ghost var before := Files();
      AgingStarts(cfg, before, at);
      for i := 0 to |assets|
        invariant |assets| == |before.assets| && assets == AgedUpTo(cfg, before, at, i)
        invariant history == AgingHistory(cfg, before, at, i)
        invariant transitions == AgingEvents(cfg, before, at, i)
      {
        var item := assets[i];
        AgingNext(cfg, before, at, i);
        var (state, run) := StateFromEvidence(cfg, item, runs, at);
        var key := AgingKey(cfg, item, runs, at);
        if item.lifecycle != Retired && state.Some? && state.value != item.lifecycle {
          assets := assets[i := item.(lifecycle := state.value)];
          var event := RecordTransition(key);
          if event.Some? {
            transitions := transitions + [event.value];
          }
        } else {
          UnchangedStays(cfg, history, key);
        }
      }
    }

    method CompleteSourceRun(source: string, run: Run, success: bool, partial: bool)
      modifies this`runs
      ensures Files() == Step(cfg, old(Files()), Op.Complete(source, run, success, partial))
    {
      var state := if source in runs then runs[source] else SourceState(None, 0, 0);
      if success {
        if !partial {
          state := state.(lastComplete := Some(run));
        }
        state := state.(successes := state.successes + 1, failures := 0);
      } else {
        state := state.(failures := state.failures + 1, successes := 0);
      }
      runs := runs[source := state];
    }
  }

  lemma TargetIs(assets: seq<Asset>, source: string, o: Observation)
    ensures Continues(assets, source, o).Some? ==> Target(assets, source, o) == Continues(assets, source, o).value.id
  {
  }

  lemma UnchangedStays(cfg: Config, log: seq<Transition>, key: TransitionKey)
    requires key.previous == Some(key.current)
    ensures AppendTransition(cfg, log, key) == log
  {
  }

  lemma AgingStarts(cfg: Config, s: Inventory, at: Time)
    ensures AgedUpTo(cfg, s, at, 0) == s.assets && AgingHistory(cfg, s, at, 0) == s.history
    ensures AgingEvents(cfg, s, at, 0) == []
  {
  }

  /** Looking at one more asset changes that asset only, and records its change if there is one. */
  lemma AgingNext(cfg: Config, s: Inventory, at: Time, n: nat)
    requires n < |s.assets|
    ensures var before, a := AgedUpTo(cfg, s, at, n), s.assets[n];
      && before[n] == a
      && AgedUpTo(cfg, s, at, n + 1) ==
         (if Aged(cfg, a, s.runs, at) == a.lifecycle then before
          else before[n := a.(lifecycle := Aged(cfg, a, s.runs, at))])
      && AgingHistory(cfg, s, at, n + 1) ==
         AppendTransition(cfg, AgingHistory(cfg, s, at, n), AgingKey(cfg, a, s.runs, at))
      && var key := AgingKey(cfg, a, s.runs, at);
         AgingEvents(cfg, s, at, n + 1) == AgingEvents(cfg, s, at, n) +
         (if key.previous == Some(key.current) || Recorded(AgingHistory(cfg, s, at, n), cfg.transitionId(key)) then []
          else [MakeTransition(cfg, key)])
  {
    hide Aged, AppendTransition, Recorded;
  }

  /** An ingest never stores two assets under one id. */
  lemma IngestKeepsUnique(cfg: Config, s: Inventory, batch: Batch)
    requires UniqueIds(s.assets)
    ensures UniqueIds(IngestUpTo(cfg, s, batch, |batch.records|).assets)
    ensures UniqueIds(IngestBatch(cfg, s, batch).assets)
  {
    hide IngestUpTo, UniqueIds, Sort, Reconciliation.Reconciled, ChangeLog.AppendChanges;
    InventoryRuns.IngestUpToStates(cfg, s, batch, |batch.records|, "");
    InventoryRuns.PublishedAnswers(cfg, IngestUpTo(cfg, s, batch, |batch.records|).assets, "");
  }
}
