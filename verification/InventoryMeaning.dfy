/** What each operation leaves of the assets it concerns, in terms of what it was given. */
module InventoryMeaning {
  import opened Options
  import opened Ordering
  import opened InventoryTypes
  import opened History
  import opened Aging
  import opened InventorySteps
  import opened InventoryRuns
  import opened InventoryGuarantees
  import opened AgingRuns
  import ChangeMeaning
  import ChangeDetection
  import ChangeLog
  import Reconciliation

  // --- which asset a record is about --------------------------------------------------------

  predicate HasSourceId(a: Asset, source: string, v: Value)
  {
    a.source == source && SourceAssetId in a.fields && a.fields[SourceAssetId] == v
  }

  /** The record shows its source's own id for the device. */
  predicate ShowsSourceId(o: Observation)
  {
    ChangeMeaning.Shown(o.fields, SourceAssetId)
  }

  /**
   A record is about the asset with its id, if there is one; else about the first asset of the source
   with the source's own id for the device, if it shows one; else about a new asset.
   */
  lemma TargetMeans(assets: seq<Asset>, source: string, o: Observation)
    ensures var known := exists a | a in assets :: a.id == o.id;
            var target := Target(assets, source, o);
      && (known ==> target == o.id)
      && (!known && ShowsSourceId(o) ==>
            var v := o.fields[SourceAssetId];
            if exists a | a in assets :: HasSourceId(a, source, v) then
              exists i | 0 <= i < |assets| ::
                && assets[i].id == target && HasSourceId(assets[i], source, v)
                && forall j | 0 <= j < i :: !HasSourceId(assets[j], source, v)
            else target == o.id)
      && (!known && !ShowsSourceId(o) ==> target == o.id)
  {
    hide AssetOf;
    var byId := AssetOf(assets, o.id);
    if a :| a in assets && a.id == o.id {
      var i :| 0 <= i < |assets| && assets[i] == a;
    } else if ShowsSourceId(o) {
      var v := o.fields[SourceAssetId];
      var i := FindSourceId(assets, source, Some(v));
      if a :| a in assets && HasSourceId(a, source, v) {
        var j :| 0 <= j < |assets| && assets[j] == a;
        assert i < |assets| && HasSourceId(assets[i], source, v);
      }
    }
  }

  // --- ingest -------------------------------------------------------------------------------

  /** The state that an observation brings. */
  predicate StateFits(prior: Option<Asset>, o: Observation, state: Lifecycle)
  {
    if prior.Some? then
      if prior.value.lifecycle == Retired then state == Retired
      else if o.online == Some(false) then state == Offline else state == Active
    else
      match o.lifecycle
      case Some(declared) => state == declared
      case None => if o.online == Some(false) then state == Offline else state == Discovered
  }

  /** The pass in which a record of the batch is compared. */
  function PassOf(batch: Batch, o: Observation): ChangeDetection.Pass
  {
    ChangeDetection.Pass(if o.declared == {} then batch.authoritative else o.declared, batch.partial, batch.at,
                         batch.runId)
  }

  /** An asset that was just stored by one record keeps what that record made of it. */
  lemma {:induction false} StoredStays(cfg: Config, s: Inventory, batch: Batch, n: nat, m: nat)
    requires UniqueIds(s.assets) && n < m <= |batch.records| && DistinctTargets(cfg, s, batch)
    ensures var st := IngestUpTo(cfg, s, batch, m);
            && UniqueIds(st.assets)
            && AssetOf(st.assets, TargetAt(cfg, s, batch, n))
               == Some(Item(cfg, IngestUpTo(cfg, s, batch, n).assets, batch, batch.records[n]))
    decreases m
  {
    hide AppendTransition, PutAsset, AssetOf, Compared, UniqueIds, Item;
    var id, before := TargetAt(cfg, s, batch, n), IngestUpTo(cfg, s, batch, m - 1);
    IngestUpToStates(cfg, s, batch, m - 1, id);
    PutAssetGets(before.assets, Item(cfg, before.assets, batch, batch.records[m - 1]), id);
    if n < m - 1 {
      StoredStays(cfg, s, batch, n, m - 1);
      assert TargetAt(cfg, s, batch, m - 1) != id;
    }
  }

  /** Which asset the record continues, as the inventory knew it. */
  lemma PriorIs(cfg: Config, s: Inventory, batch: Batch, n: nat)
    requires UniqueIds(s.assets) && n < |batch.records| && DistinctTargets(cfg, s, batch)
    ensures Continues(IngestUpTo(cfg, s, batch, n).assets, batch.source, batch.records[n])
         == AssetOf(s.assets, TargetAt(cfg, s, batch, n))
  {
    hide AssetOf, Continues, UniqueIds, IngestUpTo, Target;
    var id := TargetAt(cfg, s, batch, n);
    IngestPassesBy(cfg, s, batch, n, id);
    ContinuesIs(IngestUpTo(cfg, s, batch, n).assets, batch.source, batch.records[n]);
  }

  /** After an ingest that names each asset once, each of them is as its record and what was known of it say. */
  lemma IngestMeans(cfg: Config, s: Inventory, batch: Batch, n: nat)
    requires UniqueIds(s.assets) && n < |batch.records| && DistinctTargets(cfg, s, batch)
    ensures var id, o := TargetAt(cfg, s, batch, n), batch.records[n];
            var prior, after := AssetOf(s.assets, id), AssetOf(Step(cfg, s, Ingest(batch)).assets, id);
      && after.Some? && after.value.source == batch.source && StateFits(prior, o, after.value.lifecycle)
      && after.value.lastSeen == Some(batch.at) && after.value.online == o.online
      && after.value.observedRun == (if batch.runId.None? then o.observedRun else batch.runId)
      && after.value.fields ==
         if prior.None? then o.fields
         else ChangeDetection.Detect(cfg, id, prior.value.fields, o.fields, PassOf(batch, o)).0
  {
    hide AssetOf, Continues, UniqueIds, IngestUpTo, Target, ChangeDetection.Detect, Sort, Reconciliation.Reconciled,
      AppendTransition, PutAsset, ChangeLog.AppendChanges;
    var id := TargetAt(cfg, s, batch, n);
    StoredStays(cfg, s, batch, n, |batch.records|);
    PriorIs(cfg, s, batch, n);
    PublishedKeeps(cfg, IngestUpTo(cfg, s, batch, |batch.records|).assets, id);
    PriorId(s.assets, id);
  }

  lemma PriorId(assets: seq<Asset>, id: string)
    ensures AssetOf(assets, id).Some? ==> AssetOf(assets, id).value.id == id
  {
  }

  /** And each tracked field of a known asset becomes what the comparison makes of it. */
  lemma IngestStores(cfg: Config, s: Inventory, batch: Batch, n: nat, f: Field)
    requires UniqueIds(s.assets) && n < |batch.records| && DistinctTargets(cfg, s, batch)
    requires AssetOf(s.assets, TargetAt(cfg, s, batch, n)).Some?
    requires !ChangeDetection.Excluded(cfg, AssetOf(s.assets, TargetAt(cfg, s, batch, n)).value.fields,
                                       batch.records[n].fields)
    ensures var id, o := TargetAt(cfg, s, batch, n), batch.records[n];
            var prior := AssetOf(s.assets, id).value.fields;
            var after := FieldOf(Step(cfg, s, Ingest(batch)).assets, id, f);
            var differs := ChangeMeaning.Differs(cfg, prior, o.fields, PassOf(batch, o), f);
      && (f in cfg.ignored || f !in prior ==> after == Lookup(o.fields, f))
      && (f in prior && f !in cfg.ignored && !differs ==> after == Some(prior[f]))
      && (f in prior && differs && ChangeMeaning.Identifying(f) ==> after == Some(prior[f]))
      && (f in prior && differs && !ChangeMeaning.Identifying(f) ==> after == Lookup(o.fields, f))
  {
    hide AssetOf, UniqueIds, IngestUpTo, Target, ChangeDetection.Detect, Step, ChangeMeaning.Differs,
      ChangeDetection.Excluded;
    var id, o := TargetAt(cfg, s, batch, n), batch.records[n];
    IngestMeans(cfg, s, batch, n);
    ChangeMeaning.FieldBecomes(cfg, id, AssetOf(s.assets, id).value.fields, o.fields, PassOf(batch, o), f);
  }

  lemma {:induction false} EventsAreCompared(cfg: Config, s: Inventory, batch: Batch, n: nat, e: InventoryTypes.Change)
    requires n <= |batch.records|
    ensures e in IngestUpTo(cfg, s, batch, n).events <==> exists m: nat :: m < n && ComparedAt(cfg, s, batch, m, e)
  {
    hide AppendTransition, PutAsset, Item, IngestKey, Continues, Compared;
    if n > 0 {
      EventsAreCompared(cfg, s, batch, n - 1, e);
      var st := IngestUpTo(cfg, s, batch, n - 1);
      assert ComparedAt(cfg, s, batch, n - 1, e) <==>
             var previous := Continues(st.assets, batch.source, batch.records[n - 1]);
             previous.Some? && e in Compared(cfg, previous.value, batch, batch.records[n - 1]).1;
    }
  }

  ghost predicate ComparedAt(cfg: Config, s: Inventory, batch: Batch, m: nat, e: InventoryTypes.Change)
    requires m < |batch.records|
  {
    var previous := Continues(IngestUpTo(cfg, s, batch, m).assets, batch.source, batch.records[m]);
    previous.Some? && e in Compared(cfg, previous.value, batch, batch.records[m]).1
  }

  /** What an ingest adds to the change log is what its records' comparisons with known assets report. */
  lemma IngestReports(cfg: Config, s: Inventory, batch: Batch, e: InventoryTypes.Change)
    requires UniqueIds(s.assets) && DistinctTargets(cfg, s, batch)
    ensures e in IngestUpTo(cfg, s, batch, |batch.records|).events <==>
            exists n: nat | n < |batch.records| ::
              var id, o := TargetAt(cfg, s, batch, n), batch.records[n];
              var prior := AssetOf(s.assets, id);
              prior.Some? && e in ChangeDetection.Detect(cfg, id, prior.value.fields, o.fields, PassOf(batch, o)).1
    ensures Step(cfg, s, Ingest(batch)).changes ==
            ChangeLog.AppendChanges(cfg, s.changes, IngestUpTo(cfg, s, batch, |batch.records|).events, batch.at)
  {
    hide AssetOf, UniqueIds, IngestUpTo, Target, ChangeDetection.Detect, Continues, Sort, Reconciliation.Reconciled,
      ChangeLog.AppendChanges;
    EventsAreCompared(cfg, s, batch, |batch.records|, e);
    forall n: nat | n < |batch.records|
      ensures var id, o := TargetAt(cfg, s, batch, n), batch.records[n];
              var prior := AssetOf(s.assets, id);
              ComparedAt(cfg, s, batch, n, e) <==>
              prior.Some? && e in ChangeDetection.Detect(cfg, id, prior.value.fields, o.fields, PassOf(batch, o)).1
    {
      PriorIs(cfg, s, batch, n);
      PriorId(s.assets, TargetAt(cfg, s, batch, n));
    }
  }

  // --- operations on one asset --------------------------------------------------------------

  /** Nothing but the asset named changes, and it only in state. */
  ghost predicate OnlyState(s: Inventory, next: Inventory, id: string, state: Lifecycle)
  {
    forall x :: AssetOf(next.assets, x) ==
                if x == id && AssetOf(s.assets, x).Some? then Some(AssetOf(s.assets, x).value.(lifecycle := state))
                else AssetOf(s.assets, x)
  }

  /** The history with the asset's change to this state. */
  function Recording(cfg: Config, s: Inventory, id: string, state: Lifecycle, reason: string, at: Time,
                     runId: Option<string>)
    : seq<Transition>
  {
    AppendTransition(cfg, s.history, TransitionKey(id, StateOf(s.assets, id), state, reason, at, runId))
  }

  lemma MoveRecords(cfg: Config, s: Inventory, item: Asset, reason: string, at: Time, runId: Option<string>)
    requires AssetOf(s.assets, item.id).Some?
    ensures Move(cfg, s, item, reason, at, runId).history ==
            Recording(cfg, s, item.id, item.lifecycle, reason, at, runId)
  {
    hide AppendTransition;
  }

  lemma NothingToRecord(cfg: Config, s: Inventory, id: string, state: Lifecycle, reason: string, at: Time,
                        runId: Option<string>)
    requires StateOf(s.assets, id) == Some(state)
    ensures Recording(cfg, s, id, state, reason, at, runId) == s.history
  {
  }

  lemma MovesOnly(cfg: Config, s: Inventory, item: Asset, reason: string, at: Time, runId: Option<string>)
    requires UniqueIds(s.assets) && AssetOf(s.assets, item.id).Some?
    ensures forall x :: AssetOf(Move(cfg, s, item, reason, at, runId).assets, x) ==
                        if x == item.id then Some(item) else AssetOf(s.assets, x)
    ensures Move(cfg, s, item, reason, at, runId).history ==
            Recording(cfg, s, item.id, item.lifecycle, reason, at, runId)
  {
    MoveRecords(cfg, s, item, reason, at, runId);
    hide Move, AssetOf, UniqueIds;
    forall x ensures AssetOf(Move(cfg, s, item, reason, at, runId).assets, x) ==
                     if x == item.id then Some(item) else AssetOf(s.assets, x)
    {
      MoveStates(cfg, s, item, reason, at, runId, x);
    }
  }

  /** An asset that is seen is offline if it is known to be, and active otherwise; a retired one stays retired. */
  lemma MarkSeenMeans(cfg: Config, s: Inventory, id: string, at: Time, online: Option<bool>)
    requires UniqueIds(s.assets) && AssetOf(s.assets, id).Some?
    ensures var a, next := AssetOf(s.assets, id).value, Step(cfg, s, MarkSeen(id, at, online));
            var after := AssetOf(next.assets, id);
      && (forall x | x != id :: AssetOf(next.assets, x) == AssetOf(s.assets, x))
      && after.Some? && after.value.lastSeen == Some(at)
      && after.value.online == (if online.None? then a.online else online)
      && after.value == a.(lastSeen := Some(at), online := after.value.online, lifecycle := after.value.lifecycle)
      && (after.value.lifecycle == Retired <==> a.lifecycle == Retired)
      && (a.lifecycle != Retired ==>
            (after.value.lifecycle == Offline <==> after.value.online == Some(false))
            && (after.value.lifecycle == Active <==> after.value.online != Some(false)))
      && next.history == Recording(cfg, s, id, after.value.lifecycle, SeenReason(a.lifecycle, after.value.lifecycle),
                                   at, None)
  {
    hide Move, AssetOf, UniqueIds, Recording;
    PriorId(s.assets, id);
    var after := Seen(AssetOf(s.assets, id).value, at, online);
    MovesOnly(cfg, s, after, SeenReason(AssetOf(s.assets, id).value.lifecycle, after.lifecycle), at, None);
  }

  /** A retirement with a reason retires, and nothing else does what it does not say. */
  lemma RetireMeans(cfg: Config, s: Inventory, id: string, reason: string, at: Time)
    requires UniqueIds(s.assets)
    ensures var next := Step(cfg, s, Retire(id, reason, at));
            if reason == "" || AssetOf(s.assets, id).None? then next == s
            else OnlyState(s, next, id, Retired)
                 && next.history == Recording(cfg, s, id, Retired, "manually_retired", at, None)
  {
    hide Move, AssetOf, UniqueIds, Recording;
    PriorId(s.assets, id);
    var a := AssetOf(s.assets, id);
    if reason != "" && a.Some? {
      if a.value.lifecycle != Retired {
        MovesOnly(cfg, s, a.value.(lifecycle := Retired), "manually_retired", at, None);
      } else {
        NothingToRecord(cfg, s, id, Retired, "manually_retired", at, None);
      }
    }
  }

  /** A restored asset is missing or stale if the evidence is for that, else offline if known to be, else active. */
  lemma RestoreMeans(cfg: Config, s: Inventory, id: string, reason: string, at: Time)
    requires UniqueIds(s.assets) && Accepted(cfg)
    ensures var next, a := Step(cfg, s, Restore(id, reason, at)), AssetOf(s.assets, id);
            if reason == "" || a.None? || a.value.lifecycle != Retired then next == s
            else
              var state := if Past(cfg, a.value, s.runs, at, cfg.missingAfter) then Missing
                           else if Past(cfg, a.value, s.runs, at, cfg.staleAfter) then Stale
                           else if a.value.online == Some(false) then Offline else Active;
              && OnlyState(s, next, id, state)
              && next.history == Recording(cfg, s, id, state, "manually_restored", at,
                                           RunIdOf(StateFromEvidence(cfg, a.value, s.runs, at).1))
  {
    hide Move, AssetOf, UniqueIds, Past, StateFromEvidence, Recording;
    PriorId(s.assets, id);
    var a := AssetOf(s.assets, id);
    if reason != "" && a.Some? && a.value.lifecycle == Retired {
      EvidenceMeans(cfg, a.value, s.runs, at);
      MovesOnly(cfg, s, a.value.(lifecycle := Restored(cfg, a.value, s.runs, at)), "manually_restored", at,
                RunIdOf(StateFromEvidence(cfg, a.value, s.runs, at).1));
    }
  }

  /** A state that is set is the asset's. */
  lemma SetLifecycleMeans(cfg: Config, s: Inventory, id: string, state: Lifecycle, at: Time)
    requires UniqueIds(s.assets)
    ensures var next := Step(cfg, s, SetLifecycle(id, state, at));
            var reason := if state == Retired then "manually_retired" else "explicit_lifecycle_update";
      && OnlyState(s, next, id, state)
      && (AssetOf(s.assets, id).Some? ==> next.history == Recording(cfg, s, id, state, reason, at, None))
  {
    hide Move, AssetOf, UniqueIds, Recording;
    PriorId(s.assets, id);
    var a := AssetOf(s.assets, id);
    if a.Some? {
      if a.value.lifecycle == Retired == state {
        NothingToRecord(cfg, s, id, Retired, "manually_retired", at, None);
      }
      MovesOnly(cfg, s, a.value.(lifecycle := state), "explicit_lifecycle_update", at, None);
      MovesOnly(cfg, s, a.value.(lifecycle := Retired), "manually_retired", at, None);
    }
  }

  /** An update makes every asset that is not retired missing or stale if the evidence is for that, and no other. */
  lemma UpdateMeans(cfg: Config, s: Inventory, at: Time, id: string)
    requires UniqueIds(s.assets) && Accepted(cfg)
    ensures var after, a := AssetOf(Step(cfg, s, UpdateLifecycle(at)).assets, id), AssetOf(s.assets, id);
            if a.None? then after.None?
            else
              after == Some(a.value.(lifecycle :=
                if a.value.lifecycle == Retired then Retired
                else if Past(cfg, a.value, s.runs, at, cfg.missingAfter) then Missing
                else if Past(cfg, a.value, s.runs, at, cfg.staleAfter) then Stale
                else a.value.lifecycle))
  {
    hide AssetOf, UniqueIds, Past, StateFromEvidence, AgedUpTo, AgingHistory;
    AgedGets(cfg, s, at, id);
    if AssetOf(s.assets, id).Some? {
      EvidenceMeans(cfg, AssetOf(s.assets, id).value, s.runs, at);
    }
  }

  // --- reasons ------------------------------------------------------------------------------

  /** Why an observation moves a known asset. */
  lemma ObservedReasonMeans(previous: Lifecycle, current: Lifecycle)
    ensures var reason := ObservedReason(previous, current);
      && (reason == "rediscovered" <==> current == Active && (previous == Stale || previous == Missing))
      && (reason == "source_reported_offline" <==> current == Offline)
      && (reason == "source_reported_online" <==> current == Active && previous == Offline)
      && (reason == "repeated_observation" <==>
            current != Offline && (current == Active ==> previous !in {Stale, Missing, Offline}))
  {
  }

  /** Why a sighting moves an asset. */
  lemma SeenReasonMeans(previous: Lifecycle, current: Lifecycle)
    ensures var reason := SeenReason(previous, current);
      && (reason == "source_reported_offline" <==> current == Offline)
      && (reason == "rediscovered" <==> current != Offline && (previous == Stale || previous == Missing))
      && (reason == "source_reported_online" <==> current != Offline && previous != Stale && previous != Missing)
  {
  }

  /** What is recorded of the first observation of an asset, and of a later one. */
  lemma IngestRecords(cfg: Config, s: Inventory, batch: Batch, n: nat)
    requires UniqueIds(s.assets) && n < |batch.records| && DistinctTargets(cfg, s, batch)
    ensures var id, o := TargetAt(cfg, s, batch, n), batch.records[n];
            var prior := AssetOf(s.assets, id);
            var key := IngestKey(IngestUpTo(cfg, s, batch, n).assets, batch, o);
      && key.asset == id && key.at == batch.at && key.runId == batch.runId && StateFits(prior, o, key.current)
      && key.previous == (if prior.Some? then Some(prior.value.lifecycle) else None)
      && key.reason == (if prior.Some? then ObservedReason(prior.value.lifecycle, key.current) else "first_observation")
      && IngestUpTo(cfg, s, batch, n + 1).history == AppendTransition(cfg, IngestUpTo(cfg, s, batch, n).history, key)
  {
    hide AssetOf, UniqueIds, AppendTransition, PutAsset, Compared, Continues, ObservedReason;
    PriorIs(cfg, s, batch, n);
  }

  /** Why an update moves an asset, and on the evidence of which run. */
  lemma AgingKeyMeans(cfg: Config, a: Asset, runs: Runs, at: Time)
    requires Accepted(cfg) && Aged(cfg, a, runs, at) != a.lifecycle
    ensures var key := AgingKey(cfg, a, runs, at);
      && key.asset == a.id && key.previous == Some(a.lifecycle) && key.at == at
      && (key.current == Missing || key.current == Stale)
      && (key.reason == "missing_threshold_exceeded" <==> key.current == Missing)
      && (key.reason == "stale_threshold_exceeded" <==> key.current == Stale)
      && LastComplete(runs, a.source).Some? && key.runId == Some(LastComplete(runs, a.source).value.id)
  {
    hide StateFromEvidence, Past;
    EvidenceMeans(cfg, a, runs, at);
  }

  /** After an ingest the assets are listed by id. */
  lemma IngestLists(cfg: Config, s: Inventory, batch: Batch, i: nat, j: nat)
    requires i < j < |Step(cfg, s, Ingest(batch)).assets|
    ensures var assets := Step(cfg, s, Ingest(batch)).assets; StringLe(assets[i].id, assets[j].id)
  {
    hide Sort, StringLe, IngestUpTo, Reconciliation.Reconciled, ChangeLog.AppendChanges;
    StringOrder();
    assert Total(AssetLe) && Transitive(AssetLe) by {
      forall a, b ensures AssetLe(a, b) || AssetLe(b, a) {
        assert StringLe(a.id, b.id) || StringLe(b.id, a.id);
      }
      forall a, b, c | AssetLe(a, b) && AssetLe(b, c) ensures AssetLe(a, c) {
        assert StringLe(a.id, b.id) && StringLe(b.id, c.id);
      }
    }
    SortSorts(AssetLe, Reconciliation.Reconciled(cfg, IngestUpTo(cfg, s, batch, |batch.records|).assets));
  }
}
