/** What every run of inventory operations keeps, from an empty inventory on. */
module InventoryRuns {
  import opened Options
  import opened Ordering
  import opened InventoryTypes
  import opened History
  import opened Aging
  import opened InventorySteps
  import ChangeLog
  import ChangeDetection
  import Reconciliation

  // --- the lifecycle history replays --------------------------------------------------------

  /** The history is faithful, and nothing in it lies after the clock. */
  ghost predicate FaithfulAt(cfg: Config, s: Inventory, clock: Time)
  {
    && UniqueIds(s.assets)
    && Sorted(TransitionLe, s.history) && |s.history| <= cfg.historyMax
    && (forall i | 0 <= i < |s.history| :: s.history[i].at <= clock)
    && Genuine(cfg, s.history) && Chained(s.history) && Replays(s.history, s.assets)
  }

  lemma Begin(cfg: Config, s: Inventory, clock: Time, at: Time)
    requires FaithfulAt(cfg, s, clock) && at > clock
    ensures Faithful(cfg, s.assets, s.history, at, {})
  {
    hide UniqueIds, Sorted, Genuine, Chained, Replays;
  }

  lemma End(cfg: Config, s: Inventory, at: Time, moved: set<string>)
    requires Faithful(cfg, s.assets, s.history, at, moved)
    ensures FaithfulAt(cfg, s, at)
  {
    hide UniqueIds, Sorted, Genuine, Chained, Replays;
  }

  /** The log stays faithful to any inventory that answers alike. */
  lemma FaithfulCarries(cfg: Config, a: seq<Asset>, b: seq<Asset>, log: seq<Transition>, at: Time, moved: set<string>)
    requires Faithful(cfg, a, log, at, moved) && UniqueIds(b)
    requires forall id :: StateOf(b, id) == StateOf(a, id)
    ensures Faithful(cfg, b, log, at, moved)
  {
    hide UniqueIds, Sorted, Genuine, Chained, Last, StateOf;
  }

  lemma PutMoves(cfg: Config, assets: seq<Asset>, item: Asset, log: seq<Transition>, moved: set<string>,
                 key: TransitionKey)
    requires Accepted(cfg) && InjectiveIds(cfg)
    requires Faithful(cfg, assets, log, key.at, moved) && key.asset !in moved
    requires item.id == key.asset && item.lifecycle == key.current
    requires key.previous == StateOf(assets, key.asset)
    ensures Faithful(cfg, PutAsset(assets, item), AppendTransition(cfg, log, key), key.at, moved + {key.asset})
  {
    hide UniqueIds, Sorted, Genuine, Chained, Replays, AppendTransition, PutAsset, AssetOf;
    var after := PutAsset(assets, item);
    forall id ensures StateOf(after, id) == if id == key.asset then Some(key.current) else StateOf(assets, id) {
      PutAssetGets(assets, item, id);
    }
    PutAssetGets(assets, item, key.asset);
    MoveKeepsFaithful(cfg, assets, after, log, moved, key);
  }

  lemma ContinuesIs(assets: seq<Asset>, source: string, o: Observation)
    requires UniqueIds(assets)
    ensures AssetOf(assets, Target(assets, source, o)) == Continues(assets, source, o)
  {
    hide UniqueIds, AssetOf;
    var a := Continues(assets, source, o);
    if a.Some? {
      AssetOfIff(assets, a.value);
    }
  }

  lemma IngestOneKeeps(cfg: Config, st: Ingesting, batch: Batch, o: Observation, moved: set<string>)
    requires Accepted(cfg) && InjectiveIds(cfg)
    requires Faithful(cfg, st.assets, st.history, batch.at, moved)
    requires Target(st.assets, batch.source, o) !in moved
    ensures var next := IngestOne(cfg, st, batch, o);
            Faithful(cfg, next.assets, next.history, batch.at, moved + {Target(st.assets, batch.source, o)})
  {
    hide Faithful, AppendTransition, PutAsset, AssetOf, Continues, Target, Compared;
    FaithfulUnique(cfg, st.assets, st.history, batch.at, moved);
    ContinuesIs(st.assets, batch.source, o);
    PutMoves(cfg, st.assets, Item(cfg, st.assets, batch, o), st.history, moved, IngestKey(st.assets, batch, o));
  }

  lemma FaithfulUnique(cfg: Config, assets: seq<Asset>, log: seq<Transition>, at: Time, moved: set<string>)
    requires Faithful(cfg, assets, log, at, moved)
    ensures UniqueIds(assets)
  {
  }

  ghost function Targets(cfg: Config, s: Inventory, batch: Batch, n: nat): set<string>
    requires n <= |batch.records|
  {
    set i | 0 <= i < n :: TargetAt(cfg, s, batch, i)
  }

  lemma {:induction false} IngestUpToKeeps(cfg: Config, s: Inventory, batch: Batch, n: nat)
    requires Accepted(cfg) && InjectiveIds(cfg) && n <= |batch.records|
    requires Faithful(cfg, s.assets, s.history, batch.at, {}) && DistinctTargets(cfg, s, batch)
    ensures var st := IngestUpTo(cfg, s, batch, n);
            Faithful(cfg, st.assets, st.history, batch.at, Targets(cfg, s, batch, n))
  {
    hide Faithful, IngestOne, Target;
    if n == 0 {
      assert Targets(cfg, s, batch, 0) == {};
    } else {
      IngestUpToKeeps(cfg, s, batch, n - 1);
      var st := IngestUpTo(cfg, s, batch, n - 1);
      var target := TargetAt(cfg, s, batch, n - 1);
      assert Targets(cfg, s, batch, n) == Targets(cfg, s, batch, n - 1) + {target};
      IngestOneKeeps(cfg, st, batch, batch.records[n - 1], Targets(cfg, s, batch, n - 1));
    }
  }

  /** Reconciling and sorting the assets changes no state. */
  lemma PublishedAnswers(cfg: Config, assets: seq<Asset>, id: string)
    requires UniqueIds(assets)
    ensures var published := Sort(AssetLe, Reconciliation.Reconciled(cfg, assets));
      && UniqueIds(published) && StateOf(published, id) == StateOf(assets, id)
      && (AssetOf(published, id).Some? <==> AssetOf(assets, id).Some?)
      && (AssetOf(assets, id).Some? ==> AssetOf(published, id).value.fields == AssetOf(assets, id).value.fields)
  {
    hide Sort, Reconciliation.ReconciledAsset;
    var reconciled := Reconciliation.Reconciled(cfg, assets);
    InPlaceGets(assets, reconciled, id);
    PermutationGets(reconciled, Sort(AssetLe, reconciled), id);
  }

  lemma IngestKeeps(cfg: Config, s: Inventory, batch: Batch)
    requires Accepted(cfg) && InjectiveIds(cfg)
    requires Faithful(cfg, s.assets, s.history, batch.at, {}) && DistinctTargets(cfg, s, batch)
    ensures FaithfulAt(cfg, IngestBatch(cfg, s, batch), batch.at)
  {
    hide Faithful, FaithfulAt, IngestUpTo, Sort, Reconciliation.Reconciled, StateOf, UniqueIds, ChangeLog.AppendChanges,
      DistinctTargets, Targets;
    var n := |batch.records|;
    IngestUpToKeeps(cfg, s, batch, n);
    var st := IngestUpTo(cfg, s, batch, n);
    FaithfulUnique(cfg, st.assets, st.history, batch.at, Targets(cfg, s, batch, n));
    var next := IngestBatch(cfg, s, batch);
    forall id ensures UniqueIds(next.assets) && StateOf(next.assets, id) == StateOf(st.assets, id) {
      PublishedAnswers(cfg, st.assets, id);
    }
    PublishedAnswers(cfg, st.assets, "");
    FaithfulCarries(cfg, st.assets, next.assets, st.history, batch.at, Targets(cfg, s, batch, n));
    End(cfg, next, batch.at, Targets(cfg, s, batch, n));
  }

  lemma MoveKeeps(cfg: Config, s: Inventory, item: Asset, reason: string, at: Time, runId: Option<string>)
    requires Accepted(cfg) && InjectiveIds(cfg) && Faithful(cfg, s.assets, s.history, at, {})
    ensures FaithfulAt(cfg, Move(cfg, s, item, reason, at, runId), at)
  {
    hide Faithful, FaithfulAt, AppendTransition;
    var i := Find(s.assets, item.id);
    var next := Move(cfg, s, item, reason, at, runId);
    if i < |s.assets| {
      var key := TransitionKey(item.id, Some(s.assets[i].lifecycle), item.lifecycle, reason, at, runId);
      PutMoves(cfg, s.assets, item, s.history, {}, key);
      assert next.assets == PutAsset(s.assets, item);
      End(cfg, next, at, {} + {item.id});
    } else {
      End(cfg, s, at, {});
    }
  }

  ghost function Ids(assets: seq<Asset>, n: nat): set<string>
    requires n <= |assets|
  {
    set i | 0 <= i < n :: assets[i].id
  }

  lemma AgedNext(cfg: Config, s: Inventory, at: Time, n: nat)
    requires n < |s.assets| && UniqueIds(s.assets)
    ensures var before, after := AgedUpTo(cfg, s, at, n), AgedUpTo(cfg, s, at, n + 1);
      && UniqueIds(before) && after == PutAsset(before, after[n])
      && StateOf(before, s.assets[n].id) == Some(s.assets[n].lifecycle)
  {
    hide Aged;
    var before, after := AgedUpTo(cfg, s, at, n), AgedUpTo(cfg, s, at, n + 1);
    InPlaceGets(s.assets, before, s.assets[n].id);
    AssetOfIff(before, before[n]);
  }

  lemma IdsNext(assets: seq<Asset>, n: nat)
    requires n < |assets|
    ensures Ids(assets, n + 1) == Ids(assets, n) + {assets[n].id}
    ensures UniqueIds(assets) ==> assets[n].id !in Ids(assets, n)
  {
  }

  lemma AgedItem(cfg: Config, s: Inventory, at: Time, n: nat)
    requires n < |s.assets|
    ensures var item, key := AgedUpTo(cfg, s, at, n + 1)[n], AgingKey(cfg, s.assets[n], s.runs, at);
            && item.id == key.asset == s.assets[n].id && item.lifecycle == key.current
            && key.previous == Some(s.assets[n].lifecycle) && key.at == at
            && AgingHistory(cfg, s, at, n + 1) == AppendTransition(cfg, AgingHistory(cfg, s, at, n), key)
  {
    hide Aged, AppendTransition, StateFromEvidence;
  }

  lemma NothingAged(cfg: Config, s: Inventory, at: Time)
    ensures AgedUpTo(cfg, s, at, 0) == s.assets && AgingHistory(cfg, s, at, 0) == s.history && Ids(s.assets, 0) == {}
  {
    hide Aged, AppendTransition, StateFromEvidence;
  }

  lemma AgingStep(cfg: Config, s: Inventory, at: Time, n: nat)
    requires Accepted(cfg) && InjectiveIds(cfg) && n < |s.assets| && UniqueIds(s.assets)
    requires Faithful(cfg, AgedUpTo(cfg, s, at, n), AgingHistory(cfg, s, at, n), at, Ids(s.assets, n))
    ensures Faithful(cfg, AgedUpTo(cfg, s, at, n + 1), AgingHistory(cfg, s, at, n + 1), at, Ids(s.assets, n + 1))
  {
    var before, after := AgedUpTo(cfg, s, at, n), AgedUpTo(cfg, s, at, n + 1);
    var item, key := after[n], AgingKey(cfg, s.assets[n], s.runs, at);
    hide *;
    AgedNext(cfg, s, at, n);
    IdsNext(s.assets, n);
    AgedItem(cfg, s, at, n);
    PutMoves(cfg, before, item, AgingHistory(cfg, s, at, n), Ids(s.assets, n), key);
  }

  lemma {:induction false} AgingKeeps(cfg: Config, s: Inventory, at: Time, n: nat)
    requires Accepted(cfg) && InjectiveIds(cfg) && n <= |s.assets|
    requires Faithful(cfg, s.assets, s.history, at, {})
    ensures Faithful(cfg, AgedUpTo(cfg, s, at, n), AgingHistory(cfg, s, at, n), at, Ids(s.assets, n))
  {
    hide *;
    if n == 0 {
      NothingAged(cfg, s, at);
    } else {
      AgingKeeps(cfg, s, at, n - 1);
      FaithfulUnique(cfg, s.assets, s.history, at, {});
      AgingStep(cfg, s, at, n - 1);
    }
  }

  lemma AgingIsNew(cfg: Config, s: Inventory, at: Time, n: nat)
    requires Accepted(cfg) && InjectiveIds(cfg) && n < |s.assets| && Faithful(cfg, s.assets, s.history, at, {})
    requires Aged(cfg, s.assets[n], s.runs, at) != s.assets[n].lifecycle
    ensures !Recorded(AgingHistory(cfg, s, at, n), cfg.transitionId(AgingKey(cfg, s.assets[n], s.runs, at)))
  {
    var key := AgingKey(cfg, s.assets[n], s.runs, at);
    assert key.asset == s.assets[n].id && key.at == at;
    hide *;
    FaithfulUnique(cfg, s.assets, s.history, at, {});
    AgingKeeps(cfg, s, at, n);
    IdsNext(s.assets, n);
    FaithfulNotRecorded(cfg, AgedUpTo(cfg, s, at, n), AgingHistory(cfg, s, at, n), Ids(s.assets, n), key);
  }

  lemma FaithfulNotRecorded(cfg: Config, assets: seq<Asset>, log: seq<Transition>, moved: set<string>,
                            key: TransitionKey)
    requires InjectiveIds(cfg) && Faithful(cfg, assets, log, key.at, moved) && key.asset !in moved
    ensures !Recorded(log, cfg.transitionId(key))
  {
    hide UniqueIds, Sorted, Chained, Replays;
    NotRecorded(cfg, log, moved, key);
  }

  /** An update later than everything recorded returns one transition for each asset it moves, and no other. */
  lemma {:induction false} UpdateReportsEachChange(cfg: Config, s: Inventory, clock: Time, at: Time, n: nat)
    requires Accepted(cfg) && InjectiveIds(cfg) && FaithfulAt(cfg, s, clock) && at > clock && n <= |s.assets|
    ensures forall t :: t in AgingEvents(cfg, s, at, n) <==>
              exists i: nat | i < n ::
                Aged(cfg, s.assets[i], s.runs, at) != s.assets[i].lifecycle
                && t == MakeTransition(cfg, AgingKey(cfg, s.assets[i], s.runs, at))
  {
    hide FaithfulAt, Aged, Recorded, AgingHistory, MakeTransition;
    if n > 0 {
      UpdateReportsEachChange(cfg, s, clock, at, n - 1);
      Begin(cfg, s, clock, at);
      if Aged(cfg, s.assets[n - 1], s.runs, at) != s.assets[n - 1].lifecycle {
        AgingIsNew(cfg, s, at, n - 1);
      }
    }
  }

  /** Every operation at a later time keeps the history faithful. */
  lemma StepKeepsFaithful(cfg: Config, s: Inventory, op: Op, clock: Time)
    requires Accepted(cfg) && InjectiveIds(cfg) && FaithfulAt(cfg, s, clock)
    requires TimeOf(op).Some? ==> TimeOf(op).value > clock
    requires op.Ingest? ==> DistinctTargets(cfg, s, op.batch)
    ensures FaithfulAt(cfg, Step(cfg, s, op), if TimeOf(op).Some? then TimeOf(op).value else clock)
  {
    hide FaithfulAt, Faithful, Move, IngestBatch, AgedUpTo, AgingHistory, Seen, Restored, DistinctTargets,
      StateFromEvidence;
    if op.Complete? {
      RunsDoNotMatter(cfg, s, Step(cfg, s, op), clock);
    } else {
      var at := TimeOf(op).value;
      Begin(cfg, s, clock, at);
      End(cfg, s, at, {});
      match op
      case Ingest(batch) => IngestKeeps(cfg, s, batch);
      case UpdateLifecycle(_) =>
        AgingKeeps(cfg, s, at, |s.assets|);
        End(cfg, Step(cfg, s, op), at, Ids(s.assets, |s.assets|));
      case _ =>
        var item, reason, runId := StepMoves(cfg, s, op);
        MoveKeeps(cfg, s, item, reason, at, runId);
    }
  }

  /** An operation on one asset changes nothing, or moves that asset; only two of them can leave "retired". */
  lemma StepMoves(cfg: Config, s: Inventory, op: Op) returns (item: Asset, reason: string, runId: Option<string>)
    requires op.MarkSeen? || op.Retire? || op.Restore? || op.SetLifecycle?
    ensures Step(cfg, s, op) == s ||
            (&& Step(cfg, s, op) == Move(cfg, s, item, reason, TimeOf(op).value, runId)
             && item.id == op.id && AssetOf(s.assets, op.id).Some?
             && item.fields == AssetOf(s.assets, op.id).value.fields
             && (op.MarkSeen? && AssetOf(s.assets, op.id).value.lifecycle == Retired ==> item.lifecycle == Retired)
             && (op.Retire? ==> item.lifecycle == Retired))
  {
    hide Move, StateFromEvidence;
    var a := AssetOf(s.assets, op.id);
    item := if a.Some? then a.value else Asset("", "", Active, None, None, None, map[], Unmatched, []);
    reason, runId := "", None;
    if a.Some? {
      match op
      case MarkSeen(_, at, online) =>
        item := Seen(a.value, at, online);
        reason := SeenReason(a.value.lifecycle, item.lifecycle);
      case Retire(_, _, _) =>
        item, reason := a.value.(lifecycle := Retired), "manually_retired";
      case Restore(_, _, at) =>
        item, reason := a.value.(lifecycle := Restored(cfg, a.value, s.runs, at)), "manually_restored";
        runId := RunIdOf(StateFromEvidence(cfg, a.value, s.runs, at).1);
      case SetLifecycle(_, state, _) =>
        item := a.value.(lifecycle := state);
        reason := if state == Retired then "manually_retired" else "explicit_lifecycle_update";
    }
  }

  lemma RunsDoNotMatter(cfg: Config, s: Inventory, t: Inventory, clock: Time)
    requires FaithfulAt(cfg, s, clock) && t.assets == s.assets && t.history == s.history
    ensures FaithfulAt(cfg, t, clock)
  {
  }

  lemma {:induction false} RunKeepsFaithful(cfg: Config, s: Inventory, ops: seq<Op>, clock: Time) returns (end: Time)
    requires Accepted(cfg) && InjectiveIds(cfg) && FaithfulAt(cfg, s, clock) && Orderly(cfg, s, ops, clock)
    ensures FaithfulAt(cfg, RunAll(cfg, s, ops), end)
    decreases |ops|
  {
    hide FaithfulAt, Step, DistinctTargets;
    if ops == [] {
      end := clock;
    } else {
      StepKeepsFaithful(cfg, s, ops[0], clock);
      end := RunKeepsFaithful(cfg, Step(cfg, s, ops[0]), ops[1..],
                              if TimeOf(ops[0]).Some? then TimeOf(ops[0]).value else clock);
    }
  }

  /**
   From an empty inventory, after any orderly run: the log is sorted and bounded, each asset's
   retained events chain, and the last of them ends in the asset's present state.
   */
  lemma HistoryReplays(cfg: Config, ops: seq<Op>, clock: Time)
    requires Accepted(cfg) && InjectiveIds(cfg) && Orderly(cfg, EMPTY, ops, clock)
    ensures var s := RunAll(cfg, EMPTY, ops);
      && UniqueIds(s.assets)
      && Sorted(TransitionLe, s.history) && |s.history| <= cfg.historyMax
      && Chained(s.history) && Replays(s.history, s.assets)
  {
    hide RunAll, Orderly;
    assert FaithfulAt(cfg, EMPTY, clock);
    var end := RunKeepsFaithful(cfg, EMPTY, ops, clock);
    hide UniqueIds, Sorted, Chained, Replays, Genuine;
  }

  // --- one batch that names an asset twice --------------------------------------------------

  function Reported(id: string, online: Option<bool>): Observation
  {
    Observation(id, None, online, None, map[], {})
  }

  /** A new asset, reported twice by one ingest call: the second time as offline. */
  function Twice(source: string, id: string, at: Time): Batch
  {
    Batch(source, [Reported(id, None), Reported(id, Some(false))], at, None, {}, false)
  }

  function FirstKey(id: string, at: Time): TransitionKey
  {
    TransitionKey(id, None, Discovered, "first_observation", at, None)
  }

  function SecondKey(id: string, at: Time): TransitionKey
  {
    TransitionKey(id, Some(Discovered), Offline, "source_reported_offline", at, None)
  }

  lemma AppendToNothing(cfg: Config, key: TransitionKey)
    requires Accepted(cfg) && key.previous != Some(key.current)
    ensures AppendTransition(cfg, [], key) == [MakeTransition(cfg, key)]
  {
    hide AppendTransition;
    var e := MakeTransition(cfg, key);
    var p, k := AppendCases(cfg, [], key);
    assert [][..0] + [e] + [][0..] == [e];
  }

  lemma TwiceIngested(cfg: Config, source: string, id: string, at: Time)
    ensures var st := IngestUpTo(cfg, EMPTY, Twice(source, id, at), 2);
            && UniqueIds(st.assets) && StateOf(st.assets, id) == Some(Offline)
            && st.history == AppendTransition(cfg, AppendTransition(cfg, [], FirstKey(id, at)), SecondKey(id, at))
  {
    hide AppendTransition, PutAsset, Compared, UniqueIds, AssetOf;
    var batch := Twice(source, id, at);
    assert batch.records[0] == Reported(id, None) && batch.records[1] == Reported(id, Some(false));
    var one := IngestUpTo(cfg, EMPTY, batch, 1);
    NoAssets(source, batch.records[0]);
    assert IngestUpTo(cfg, EMPTY, batch, 0) == Ingesting([], [], []);
    assert one == IngestOne(cfg, Ingesting([], [], []), batch, batch.records[0]);
    var first := Item(cfg, [], batch, batch.records[0]);
    assert one == Ingesting(PutAsset([], first), AppendTransition(cfg, [], FirstKey(id, at)), []);
    PutAssetGets([], first, id);
    assert Continues(one.assets, source, batch.records[1]) == Some(first);
    var second := Item(cfg, one.assets, batch, batch.records[1]);
    PutAssetGets(one.assets, second, id);
    assert IngestUpTo(cfg, EMPTY, batch, 2) == IngestOne(cfg, one, batch, batch.records[1]);
  }

  lemma NoAssets(source: string, o: Observation)
    ensures UniqueIds([]) && Continues([], source, o) == None && Target([], source, o) == o.id
  {
  }

  /** Such a batch leaves the asset offline, and the history agrees exactly when the second event has the greater id. */
  lemma TwiceInOneBatch(cfg: Config, source: string, id: string, at: Time)
    requires Accepted(cfg) && InjectiveIds(cfg)
    ensures var s := Step(cfg, EMPTY, Ingest(Twice(source, id, at)));
            && StateOf(s.assets, id) == Some(Offline)
            && Last(s.history, id).Some?
            && (Last(s.history, id).value.current == Offline
                <==> cfg.transitionId(FirstKey(id, at)) < cfg.transitionId(SecondKey(id, at)))
  {
    hide IngestUpTo, AppendTransition, Sort, Reconciliation.Reconciled, ChangeLog.AppendChanges, StateOf, UniqueIds,
      Last;
    var st := IngestUpTo(cfg, EMPTY, Twice(source, id, at), 2);
    TwiceIngested(cfg, source, id, at);
    PublishedAnswers(cfg, st.assets, id);
    AppendToNothing(cfg, FirstKey(id, at));
    var e := MakeTransition(cfg, FirstKey(id, at));
    LastOne(e, id);
    assert cfg.transitionId(FirstKey(id, at)) != cfg.transitionId(SecondKey(id, at));
    EndsInNewStateIff(cfg, [e], SecondKey(id, at));
  }

  /** A state set at a time before the asset's last event is behind that event in the history. */
  lemma SetBack(cfg: Config, s: Inventory, id: string, state: Lifecycle, at: Time)
    requires Accepted(cfg) && UniqueIds(s.assets) && Sorted(TransitionLe, s.history) && |s.history| <= cfg.historyMax
    requires Last(s.history, id).Some? && Last(s.history, id).value.at > at && state != Retired
    requires StateOf(s.assets, id) == Some(Last(s.history, id).value.current) != Some(state)
    requires var key := TransitionKey(id, StateOf(s.assets, id), state, "explicit_lifecycle_update", at, None);
             !Recorded(s.history, cfg.transitionId(key))
    ensures var t := Step(cfg, s, SetLifecycle(id, state, at));
            && StateOf(t.assets, id) == Some(state)
            && Last(t.history, id).Some? && Last(t.history, id).value.current != state
  {
    hide AppendTransition, UniqueIds, Last, Sorted, TransitionLe, Recorded;
    var key := TransitionKey(id, StateOf(s.assets, id), state, "explicit_lifecycle_update", at, None);
    var item := AssetOf(s.assets, id).value.(lifecycle := state);
    MoveStates(cfg, s, item, "explicit_lifecycle_update", at, None, id);
    assert Step(cfg, s, SetLifecycle(id, state, at)).history == AppendTransition(cfg, s.history, key);
    EndsInNewStateIff(cfg, s.history, key);
  }

  // --- retirement ---------------------------------------------------------------------------

  lemma MoveStates(cfg: Config, s: Inventory, item: Asset, reason: string, at: Time, runId: Option<string>, id: string)
    requires UniqueIds(s.assets) && AssetOf(s.assets, item.id).Some?
    ensures var t := Move(cfg, s, item, reason, at, runId);
      && UniqueIds(t.assets)
      && AssetOf(t.assets, id) == if id == item.id then Some(item) else AssetOf(s.assets, id)
  {
    hide AppendTransition;
    PutAssetGets(s.assets, item, id);
    assert Move(cfg, s, item, reason, at, runId).assets == PutAsset(s.assets, item);
  }

  lemma IngestOneStates(cfg: Config, st: Ingesting, batch: Batch, o: Observation, id: string)
    requires UniqueIds(st.assets)
    ensures var next := IngestOne(cfg, st, batch, o);
      && UniqueIds(next.assets)
      && (StateOf(st.assets, id) == Some(Retired) ==> StateOf(next.assets, id) == Some(Retired))
  {
    hide AppendTransition, PutAsset, AssetOf, Continues, Target, Compared, UniqueIds;
    ContinuesIs(st.assets, batch.source, o);
    PutAssetGets(st.assets, Item(cfg, st.assets, batch, o), id);
  }

  lemma {:induction false} IngestUpToStates(cfg: Config, s: Inventory, batch: Batch, n: nat, id: string)
    requires UniqueIds(s.assets) && n <= |batch.records|
    ensures var st := IngestUpTo(cfg, s, batch, n);
      && UniqueIds(st.assets)
      && (StateOf(s.assets, id) == Some(Retired) ==> StateOf(st.assets, id) == Some(Retired))
  {
    hide IngestOne, StateOf, UniqueIds;
    if n > 0 {
      IngestUpToStates(cfg, s, batch, n - 1, id);
      IngestOneStates(cfg, IngestUpTo(cfg, s, batch, n - 1), batch, batch.records[n - 1], id);
    }
  }

  /** "retired" is left only by a restoration or by setting the state by hand; ids stay unique throughout. */
  lemma RetiredStays(cfg: Config, s: Inventory, op: Op, id: string)
    requires UniqueIds(s.assets)
    ensures UniqueIds(Step(cfg, s, op).assets)
    ensures StateOf(s.assets, id) == Some(Retired) && StateOf(Step(cfg, s, op).assets, id) != Some(Retired) ==>
              (op.Restore? || op.SetLifecycle?) && op.id == id
  {
    hide Move, UniqueIds, AgedUpTo, AgingHistory, IngestUpTo, Sort, Reconciliation.Reconciled, ChangeLog.AppendChanges,
      StateFromEvidence;
    match op
    case Ingest(batch) =>
      IngestUpToStates(cfg, s, batch, |batch.records|, id);
      PublishedAnswers(cfg, IngestUpTo(cfg, s, batch, |batch.records|).assets, id);
    case UpdateLifecycle(at) =>
      InPlaceGets(s.assets, AgedUpTo(cfg, s, at, |s.assets|), id);
    case Complete(_, _, _, _) =>
    case _ =>
      var item, reason, runId := StepMoves(cfg, s, op);
      if AssetOf(s.assets, item.id).Some? {
        MoveStates(cfg, s, item, reason, TimeOf(op).value, runId, id);
      }
  }

  // --- change history -----------------------------------------------------------------------

  lemma ComparedMade(cfg: Config, previous: Asset, batch: Batch, o: Observation)
    ensures ChangeLog.Made(cfg, Compared(cfg, previous, batch, o).1)
  {
    hide ChangeDetection.DetectUpTo, ChangeDetection.Excluded, ChangeLog.IsMade;
    var declared := if o.declared != {} then o.declared else batch.authoritative;
    ChangeDetection.DetectedAreMade(cfg, previous.id, previous.fields, o.fields,
      ChangeDetection.Pass(declared, batch.partial, batch.at, batch.runId), |TRACKED|);
  }

  lemma {:induction false} IngestEventsMade(cfg: Config, s: Inventory, batch: Batch, n: nat)
    requires n <= |batch.records|
    ensures ChangeLog.Made(cfg, IngestUpTo(cfg, s, batch, n).events)
  {
    hide AppendTransition, PutAsset, Item, IngestKey, Continues, Compared, ChangeLog.IsMade;
    if n > 0 {
      IngestEventsMade(cfg, s, batch, n - 1);
      var previous := Continues(IngestUpTo(cfg, s, batch, n - 1).assets, batch.source, batch.records[n - 1]);
      if previous.Some? {
        ComparedMade(cfg, previous.value, batch, batch.records[n - 1]);
      }
    }
  }

  lemma StepKeepsTidy(cfg: Config, s: Inventory, op: Op)
    requires Accepted(cfg) && InjectiveIds(cfg) && ChangeLog.Tidy(cfg, s.changes)
    ensures ChangeLog.Tidy(cfg, Step(cfg, s, op).changes)
  {
    hide ChangeLog.AppendChanges, ChangeLog.Tidy, IngestUpTo, Sort, Reconciliation.Reconciled, AppendTransition,
      AgedUpTo, AgingHistory, StateFromEvidence, ChangeLog.Made;
    if op.Ingest? {
      IngestEventsMade(cfg, s, op.batch, |op.batch.records|);
      ChangeLog.AppendKeepsTidy(cfg, s.changes, IngestUpTo(cfg, s, op.batch, |op.batch.records|).events, op.batch.at);
    }
  }

  /**
   Over any run whatever, at any times: the change log stays sorted and bounded, its ids unique, and
   two stored changes that report the same lie more than the suppression window apart.
   */
  lemma {:induction false} ChangesStayTidy(cfg: Config, s: Inventory, ops: seq<Op>)
    requires Accepted(cfg) && InjectiveIds(cfg) && ChangeLog.Tidy(cfg, s.changes)
    ensures ChangeLog.Tidy(cfg, RunAll(cfg, s, ops).changes)
    decreases |ops|
  {
    hide Step, ChangeLog.Tidy;
    if ops != [] {
      StepKeepsTidy(cfg, s, ops[0]);
      ChangesStayTidy(cfg, Step(cfg, s, ops[0]), ops[1..]);
    }
  }

  lemma ComparedAt(cfg: Config, previous: Asset, batch: Batch, o: Observation)
    ensures ChangeDetection.AllAt(Compared(cfg, previous, batch, o).1, batch.at)
  {
    hide ChangeDetection.DetectUpTo, ChangeDetection.Excluded;
    var declared := if o.declared != {} then o.declared else batch.authoritative;
    ChangeDetection.DetectedAt(cfg, previous.id, previous.fields, o.fields,
      ChangeDetection.Pass(declared, batch.partial, batch.at, batch.runId), |TRACKED|);
  }

  lemma {:induction false} IngestEventsAt(cfg: Config, s: Inventory, batch: Batch, n: nat)
    requires n <= |batch.records|
    ensures ChangeDetection.AllAt(IngestUpTo(cfg, s, batch, n).events, batch.at)
  {
    hide AppendTransition, PutAsset, Item, IngestKey, Continues, Compared;
    if n > 0 {
      IngestEventsAt(cfg, s, batch, n - 1);
      var previous := Continues(IngestUpTo(cfg, s, batch, n - 1).assets, batch.source, batch.records[n - 1]);
      if previous.Some? {
        ComparedAt(cfg, previous.value, batch, batch.records[n - 1]);
      }
    }
  }

  /** Operations whose times never step back. */
  predicate Onward(ops: seq<Op>, clock: Time)
    decreases |ops|
  {
    ops == [] ||
    (&& (TimeOf(ops[0]).Some? ==> TimeOf(ops[0]).value >= clock)
     && Onward(ops[1..], if TimeOf(ops[0]).Some? then TimeOf(ops[0]).value else clock))
  }

  lemma RecentLater(cfg: Config, log: seq<InventoryTypes.Change>, clock: Time, later: Time)
    requires ChangeLog.Recent(cfg, log, clock) && clock <= later
    ensures ChangeLog.Recent(cfg, log, later)
  {
  }

  lemma StepKeepsRecent(cfg: Config, s: Inventory, op: Op, clock: Time)
    requires Accepted(cfg) && InjectiveIds(cfg) && ChangeLog.Tidy(cfg, s.changes)
             && ChangeLog.Recent(cfg, s.changes, clock)
    requires TimeOf(op).Some? ==> TimeOf(op).value >= clock
    ensures ChangeLog.Recent(cfg, Step(cfg, s, op).changes, if TimeOf(op).Some? then TimeOf(op).value else clock)
  {
    hide ChangeLog.AppendChanges, ChangeLog.Tidy, ChangeLog.Recent, IngestUpTo, Sort, Reconciliation.Reconciled,
      AppendTransition, AgedUpTo, AgingHistory, StateFromEvidence, ChangeLog.Made;
    if op.Ingest? {
      var events := IngestUpTo(cfg, s, op.batch, |op.batch.records|).events;
      IngestEventsMade(cfg, s, op.batch, |op.batch.records|);
      IngestEventsAt(cfg, s, op.batch, |op.batch.records|);
      ChangeLog.AppendKeepsRecent(cfg, s.changes, events, clock, op.batch.at);
    } else if TimeOf(op).Some? {
      RecentLater(cfg, s.changes, clock, TimeOf(op).value);
    }
  }

  lemma {:induction false} RunKeepsRecent(cfg: Config, s: Inventory, ops: seq<Op>, clock: Time) returns (end: Time)
    requires Accepted(cfg) && InjectiveIds(cfg) && Onward(ops, clock)
    requires ChangeLog.Tidy(cfg, s.changes) && ChangeLog.Recent(cfg, s.changes, clock)
    ensures ChangeLog.Recent(cfg, RunAll(cfg, s, ops).changes, end)
    decreases |ops|
  {
    hide Step, ChangeLog.Tidy, ChangeLog.Recent;
    if ops == [] {
      end := clock;
    } else {
      StepKeepsTidy(cfg, s, ops[0]);
      StepKeepsRecent(cfg, s, ops[0], clock);
      end := RunKeepsRecent(cfg, Step(cfg, s, ops[0]), ops[1..],
                            if TimeOf(ops[0]).Some? then TimeOf(ops[0]).value else clock);
    }
  }

  /** From an empty inventory, over any run whose times never step back, the change log stays within its retention. */
  lemma ChangesStayWithinRetention(cfg: Config, ops: seq<Op>, clock: Time)
    requires Accepted(cfg) && InjectiveIds(cfg) && Onward(ops, clock)
    ensures var log := RunAll(cfg, EMPTY, ops).changes;
            forall i, j | 0 <= i < |log| && 0 <= j < |log| :: log[i].at >= log[j].at - cfg.changeRetention
  {
    hide RunAll;
    var end := RunKeepsRecent(cfg, EMPTY, ops, clock);
  }
}
