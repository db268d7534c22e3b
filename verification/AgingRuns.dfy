/** Evidence-based aging over runs of inventory operations, asset by asset. */
module AgingRuns {
  import opened Options
  import opened Ordering
  import opened InventoryTypes
  import opened History
  import opened Aging
  import opened InventorySteps
  import opened InventoryRuns
  import ChangeLog
  import Reconciliation

  // --- operations on other assets -----------------------------------------------------------

  /** The operation neither observes the asset nor names it. */
  ghost predicate Harmless(cfg: Config, s: Inventory, op: Op, id: string)
  {
    match op
    case Ingest(batch) => forall n | 0 <= n < |batch.records| :: TargetAt(cfg, s, batch, n) != id
    case UpdateLifecycle(_) => true
    case Complete(_, _, _, _) => true
    case _ => op.id != id
  }

  ghost predicate Untouched(cfg: Config, s: Inventory, ops: seq<Op>, id: string)
    decreases |ops|
  {
    ops == [] || (Harmless(cfg, s, ops[0], id) && Untouched(cfg, Step(cfg, s, ops[0]), ops[1..], id))
  }

  /** The same asset, but for its reconciliation with other sources. */
  predicate SameAsset(a: Asset, b: Asset)
  {
    b == a.(status := b.status, evidence := b.evidence)
  }

  lemma PublishedKeeps(cfg: Config, assets: seq<Asset>, id: string)
    requires UniqueIds(assets)
    ensures var published := Sort(AssetLe, Reconciliation.Reconciled(cfg, assets));
            && (AssetOf(published, id).Some? <==> AssetOf(assets, id).Some?)
            && (AssetOf(assets, id).Some? ==> SameAsset(AssetOf(assets, id).value, AssetOf(published, id).value))
  {
    hide Sort, Reconciliation.ReconciledAsset;
    var reconciled := Reconciliation.Reconciled(cfg, assets);
    InPlaceGets(assets, reconciled, id);
    PermutationGets(reconciled, Sort(AssetLe, reconciled), id);
  }

  lemma {:induction false} IngestPassesBy(cfg: Config, s: Inventory, batch: Batch, n: nat, id: string)
    requires UniqueIds(s.assets) && n <= |batch.records|
    requires forall i | 0 <= i < n :: TargetAt(cfg, s, batch, i) != id
    ensures var st := IngestUpTo(cfg, s, batch, n);
            UniqueIds(st.assets) && AssetOf(st.assets, id) == AssetOf(s.assets, id)
  {
    hide AppendTransition, PutAsset, AssetOf, Continues, Target, Compared, UniqueIds;
    if n > 0 {
      IngestPassesBy(cfg, s, batch, n - 1, id);
      var st, o := IngestUpTo(cfg, s, batch, n - 1), batch.records[n - 1];
      assert Target(st.assets, batch.source, o) == TargetAt(cfg, s, batch, n - 1);
      PutAssetGets(st.assets, Item(cfg, st.assets, batch, o), id);
    }
  }

  lemma AgedGets(cfg: Config, s: Inventory, at: Time, id: string)
    ensures var aged, a := AgedUpTo(cfg, s, at, |s.assets|), AssetOf(s.assets, id);
            && (UniqueIds(s.assets) ==> UniqueIds(aged))
            && AssetOf(aged, id) ==
               if a.Some? then Some(a.value.(lifecycle := Aged(cfg, a.value, s.runs, at))) else None
  {
    hide Aged;
    InPlaceGets(s.assets, AgedUpTo(cfg, s, at, |s.assets|), id);
  }

  /** What an operation that does not concern it leaves of an asset: everything, but that updates may age it. */
  lemma HarmlessKeeps(cfg: Config, s: Inventory, op: Op, id: string)
    requires UniqueIds(s.assets) && AssetOf(s.assets, id).Some? && Harmless(cfg, s, op, id)
    ensures var a, after := AssetOf(s.assets, id).value, AssetOf(Step(cfg, s, op).assets, id);
            && UniqueIds(Step(cfg, s, op).assets) && after.Some?
            && SameAsset(if op.UpdateLifecycle? then a.(lifecycle := Aged(cfg, a, s.runs, op.at)) else a, after.value)
  {
    hide Move, UniqueIds, AgedUpTo, AgingHistory, IngestUpTo, Sort, Reconciliation.Reconciled, ChangeLog.AppendChanges,
      StateFromEvidence, Target;
    RetiredStays(cfg, s, op, id);
    match op
    case Ingest(batch) =>
      IngestPassesBy(cfg, s, batch, |batch.records|, id);
      PublishedKeeps(cfg, IngestUpTo(cfg, s, batch, |batch.records|).assets, id);
    case UpdateLifecycle(at) => AgedGets(cfg, s, at, id);
    case Complete(_, _, _, _) =>
    case _ =>
      var item, reason, runId := StepMoves(cfg, s, op);
      if AssetOf(s.assets, item.id).Some? {
        MoveStates(cfg, s, item, reason, TimeOf(op).value, runId, id);
      }
  }

  lemma RunsOnlyByCompletion(cfg: Config, s: Inventory, op: Op)
    ensures Step(cfg, s, op).runs ==
            if op.Complete? then CompleteRun(s.runs, op.source, op.run, op.success, op.partial) else s.runs
  {
    hide AppendTransition, AgedUpTo, AgingHistory, IngestUpTo, Sort, Reconciliation.Reconciled, ChangeLog.AppendChanges,
      StateFromEvidence, CompleteRun;
  }

  /** Only completed runs change what evidence there is, and only full successes of a source change that source's. */
  lemma EvidenceKept(cfg: Config, s: Inventory, op: Op, source: string)
    ensures LastComplete(Step(cfg, s, op).runs, source) ==
            if op.Complete? && op.source == source && op.success && !op.partial then Some(op.run)
            else LastComplete(s.runs, source)
  {
    hide Step;
    RunsOnlyByCompletion(cfg, s, op);
  }

  // --- poor evidence ------------------------------------------------------------------------

  /** The last complete successful run says nothing against the asset, whatever the time. */
  predicate Unsuspected(cfg: Config, a: Asset, runs: Runs)
  {
    var run := LastComplete(runs, a.source);
    || a.lastSeen.None? || run.None?
    || run.value.completed <= a.lastSeen.value
    || a.observedRun == Some(run.value.id)
    || run.value.completed - a.lastSeen.value < cfg.staleAfter
  }

  lemma UnsuspectedStays(cfg: Config, a: Asset, runs: Runs, at: Time)
    requires Accepted(cfg) && Unsuspected(cfg, a, runs)
    ensures Aged(cfg, a, runs, at) == a.lifecycle
  {
  }

  /** The source's runs fail or are partial; anything else may happen. */
  predicate OnlyPoorEvidence(ops: seq<Op>, source: string)
  {
    forall i | 0 <= i < |ops| && ops[i].Complete? && ops[i].source == source :: !ops[i].success || ops[i].partial
  }

  /**
   Failed and partial runs of its source never age an asset, however the clock moves and whatever
   happens to other assets and other sources.
   */
  lemma {:induction false} PoorEvidenceNeverAges(cfg: Config, s: Inventory, ops: seq<Op>, id: string)
    requires Accepted(cfg) && UniqueIds(s.assets) && AssetOf(s.assets, id).Some?
    requires Unsuspected(cfg, AssetOf(s.assets, id).value, s.runs)
    requires Untouched(cfg, s, ops, id) && OnlyPoorEvidence(ops, AssetOf(s.assets, id).value.source)
    ensures var after := AssetOf(RunAll(cfg, s, ops).assets, id);
            after.Some? && SameAsset(AssetOf(s.assets, id).value, after.value)
    decreases |ops|
  {
    hide Step, UniqueIds, AssetOf, Harmless, Aged, Accepted;
    if ops != [] {
      var a, t := AssetOf(s.assets, id).value, Step(cfg, s, ops[0]);
      HarmlessKeeps(cfg, s, ops[0], id);
      EvidenceKept(cfg, s, ops[0], a.source);
      if ops[0].UpdateLifecycle? {
        UnsuspectedStays(cfg, a, s.runs, ops[0].at);
      }
      PoorEvidenceNeverAges(cfg, t, ops[1..], id);
    }
  }

  // --- missing stays missing ----------------------------------------------------------------

  /** Updates and full successes of the source come at times that never step back. */
  predicate Forward(runs: Runs, ops: seq<Op>, clock: Time, source: string)
    decreases |ops|
  {
    ops == [] ||
    match ops[0]
    case UpdateLifecycle(at) => at >= clock && Forward(runs, ops[1..], at, source)
    case Complete(reporter, run, success, partial) =>
      && (reporter == source && success && !partial && LastComplete(runs, source).Some? ==>
            run.completed >= LastComplete(runs, source).value.completed)
      && Forward(CompleteRun(runs, reporter, run, success, partial), ops[1..], clock, source)
    case _ => Forward(runs, ops[1..], clock, source)
  }

  /** The asset is missing, and both clocks have passed the threshold for it. */
  predicate LongGone(cfg: Config, a: Asset, runs: Runs, clock: Time)
  {
    var run := LastComplete(runs, a.source);
    && a.lifecycle == Missing && a.lastSeen.Some? && run.Some?
    && clock - a.lastSeen.value >= cfg.missingAfter && run.value.completed - a.lastSeen.value >= cfg.missingAfter
  }

  lemma LongGoneStays(cfg: Config, a: Asset, runs: Runs, clock: Time, at: Time)
    requires Accepted(cfg) && LongGone(cfg, a, runs, clock) && at >= clock
    ensures Aged(cfg, a, runs, at) == Missing && LongGone(cfg, a, runs, at)
  {
  }

  /** An asset that nobody observes never goes back from missing to stale, whatever happens to others. */
  lemma {:induction false} MissingStaysMissing(cfg: Config, s: Inventory, ops: seq<Op>, clock: Time, id: string)
    requires Accepted(cfg) && UniqueIds(s.assets) && AssetOf(s.assets, id).Some?
    requires LongGone(cfg, AssetOf(s.assets, id).value, s.runs, clock)
    requires Untouched(cfg, s, ops, id) && Forward(s.runs, ops, clock, AssetOf(s.assets, id).value.source)
    ensures var after := AssetOf(RunAll(cfg, s, ops).assets, id);
            after.Some? && SameAsset(AssetOf(s.assets, id).value, after.value)
    decreases |ops|
  {
    hide Step, UniqueIds, AssetOf, Harmless, Aged, Accepted, CompleteRun;
    if ops != [] {
      var a, t := AssetOf(s.assets, id).value, Step(cfg, s, ops[0]);
      var later := if ops[0].UpdateLifecycle? then ops[0].at else clock;
      HarmlessKeeps(cfg, s, ops[0], id);
      EvidenceKept(cfg, s, ops[0], a.source);
      RunsOnlyByCompletion(cfg, s, ops[0]);
      LongGoneStays(cfg, a, s.runs, clock, later);
      assert LongGone(cfg, AssetOf(t.assets, id).value, t.runs, later);
      MissingStaysMissing(cfg, t, ops[1..], later, id);
    }
  }

  // --- what makes an asset stale or missing -------------------------------------------------

  function Threshold(cfg: Config, state: Lifecycle): int
  {
    if state == Missing then cfg.missingAfter else cfg.staleAfter
  }

  /** The n-th record of the batch first reports the asset, and declares it to be in this state. */
  ghost predicate FirstDeclares(cfg: Config, s: Inventory, batch: Batch, n: nat, id: string, state: Lifecycle)
    requires n < |batch.records|
  {
    && TargetAt(cfg, s, batch, n) == id
    && AssetOf(IngestUpTo(cfg, s, batch, n).assets, id).None?
    && batch.records[n].lifecycle == Some(state)
  }

  lemma IngestOneAges(cfg: Config, st: Ingesting, batch: Batch, o: Observation, id: string, state: Lifecycle)
    requires UniqueIds(st.assets) && (state == Stale || state == Missing)
    requires StateOf(IngestOne(cfg, st, batch, o).assets, id) == Some(state)
    ensures UniqueIds(IngestOne(cfg, st, batch, o).assets)
    ensures StateOf(st.assets, id) == Some(state)
            || (Target(st.assets, batch.source, o) == id && AssetOf(st.assets, id).None? && o.lifecycle == Some(state))
  {
    hide AppendTransition, PutAsset, AssetOf, Continues, Target, Compared, UniqueIds;
    ContinuesIs(st.assets, batch.source, o);
    PutAssetGets(st.assets, Item(cfg, st.assets, batch, o), id);
  }

  lemma {:induction false} IngestAges(cfg: Config, s: Inventory, batch: Batch, n: nat, id: string, state: Lifecycle)
    requires UniqueIds(s.assets) && n <= |batch.records| && (state == Stale || state == Missing)
    requires StateOf(IngestUpTo(cfg, s, batch, n).assets, id) == Some(state) != StateOf(s.assets, id)
    ensures exists m: nat | m < n :: FirstDeclares(cfg, s, batch, m, id, state)
  {
    hide IngestOne, StateOf, UniqueIds, AssetOf, Target;
    if n > 0 {
      var st := IngestUpTo(cfg, s, batch, n - 1);
      IngestUpToStates(cfg, s, batch, n - 1, id);
      IngestOneAges(cfg, st, batch, batch.records[n - 1], id, state);
      if StateOf(st.assets, id) == Some(state) {
        IngestAges(cfg, s, batch, n - 1, id, state);
      } else {
        assert TargetAt(cfg, s, batch, n - 1) == Target(st.assets, batch.source, batch.records[n - 1]);
        assert FirstDeclares(cfg, s, batch, n - 1, id, state);
      }
    }
  }

  /** What may make an asset stale or missing: evidence past that threshold on both clocks, or somebody's word. */
  ghost predicate AgedBy(cfg: Config, s: Inventory, op: Op, id: string, state: Lifecycle)
  {
    match op
    case UpdateLifecycle(at) =>
      var a := AssetOf(s.assets, id);
      a.Some? && a.value.lifecycle != Retired && Past(cfg, a.value, s.runs, at, Threshold(cfg, state))
    case Restore(x, _, at) =>
      var a := AssetOf(s.assets, id);
      x == id && a.Some? && a.value.lifecycle == Retired && Past(cfg, a.value, s.runs, at, Threshold(cfg, state))
    case SetLifecycle(x, chosen, _) => x == id && chosen == state
    case Ingest(batch) => exists n: nat | n < |batch.records| :: FirstDeclares(cfg, s, batch, n, id, state)
    case _ => false
  }

  lemma UpdateAges(cfg: Config, s: Inventory, at: Time, id: string, state: Lifecycle)
    requires Accepted(cfg) && UniqueIds(s.assets) && (state == Stale || state == Missing)
    requires StateOf(AgedUpTo(cfg, s, at, |s.assets|), id) == Some(state) != StateOf(s.assets, id)
    ensures AgedBy(cfg, s, UpdateLifecycle(at), id, state)
  {
    hide UniqueIds, AssetOf, Past, StateFromEvidence, AgedUpTo;
    AgedGets(cfg, s, at, id);
    EvidenceMeans(cfg, AssetOf(s.assets, id).value, s.runs, at);
  }

  lemma RestoreAges(cfg: Config, s: Inventory, op: Op, id: string, state: Lifecycle)
    requires Accepted(cfg) && UniqueIds(s.assets) && (state == Stale || state == Missing) && op.Restore?
    requires StateOf(Step(cfg, s, op).assets, id) == Some(state) != StateOf(s.assets, id)
    ensures AgedBy(cfg, s, op, id, state)
  {
    hide Move, UniqueIds, AssetOf, Past, StateFromEvidence;
    var a := AssetOf(s.assets, op.id);
    if op.reason != "" && a.Some? && a.value.lifecycle == Retired {
      var item := a.value.(lifecycle := Restored(cfg, a.value, s.runs, op.at));
      assert item.id == op.id;
      MoveStates(cfg, s, item, "manually_restored", op.at,
                 RunIdOf(StateFromEvidence(cfg, a.value, s.runs, op.at).1), id);
      EvidenceMeans(cfg, a.value, s.runs, op.at);
    }
  }

  lemma HandAges(cfg: Config, s: Inventory, op: Op, id: string, state: Lifecycle)
    requires UniqueIds(s.assets) && (state == Stale || state == Missing)
             && (op.SetLifecycle? || op.MarkSeen? || op.Retire?)
    requires StateOf(Step(cfg, s, op).assets, id) == Some(state) != StateOf(s.assets, id)
    ensures AgedBy(cfg, s, op, id, state)
  {
    hide Move, UniqueIds, AssetOf;
    var a := AssetOf(s.assets, op.id);
    if a.Some? {
      match op
      case MarkSeen(_, at, online) =>
        var after := Seen(a.value, at, online);
        MoveStates(cfg, s, after, SeenReason(a.value.lifecycle, after.lifecycle), at, None, id);
      case Retire(_, _, at) =>
        MoveStates(cfg, s, a.value.(lifecycle := Retired), "manually_retired", at, None, id);
      case SetLifecycle(_, chosen, at) =>
        MoveStates(cfg, s, a.value.(lifecycle := chosen), "explicit_lifecycle_update", at, None, id);
        MoveStates(cfg, s, a.value.(lifecycle := Retired), "manually_retired", at, None, id);
    }
  }

  /**
   An asset becomes stale or missing only by an update or a restoration with that threshold past on
   both clocks, by being set so by hand, or by a first observation that declares it.
   */
  lemma AgingNeedsEvidence(cfg: Config, s: Inventory, op: Op, id: string, state: Lifecycle)
    requires Accepted(cfg) && UniqueIds(s.assets) && (state == Stale || state == Missing)
    requires StateOf(Step(cfg, s, op).assets, id) == Some(state) != StateOf(s.assets, id)
    ensures AgedBy(cfg, s, op, id, state)
  {
    hide Move, UniqueIds, AgedUpTo, AgingHistory, IngestUpTo, Sort, Reconciliation.Reconciled, ChangeLog.AppendChanges,
      StateFromEvidence, AssetOf, FirstDeclares, Past;
    match op
    case Ingest(batch) =>
      var st := IngestUpTo(cfg, s, batch, |batch.records|);
      IngestUpToStates(cfg, s, batch, |batch.records|, id);
      PublishedAnswers(cfg, st.assets, id);
      IngestAges(cfg, s, batch, |batch.records|, id, state);
    case UpdateLifecycle(at) => UpdateAges(cfg, s, at, id, state);
    case Complete(_, _, _, _) =>
    case Restore(_, _, _) => RestoreAges(cfg, s, op, id, state);
    case _ => HandAges(cfg, s, op, id, state);
  }

  /** An update or restoration that makes an asset missing leaves it with the evidence that keeps it there. */
  lemma MissingMeansLongGone(cfg: Config, s: Inventory, op: Op, id: string)
    requires Accepted(cfg) && UniqueIds(s.assets) && (op.UpdateLifecycle? || op.Restore?)
    requires StateOf(Step(cfg, s, op).assets, id) == Some(Missing) != StateOf(s.assets, id)
    ensures var t := Step(cfg, s, op);
            AssetOf(t.assets, id).Some? && LongGone(cfg, AssetOf(t.assets, id).value, t.runs, op.at)
  {
    hide Move, UniqueIds, AgedUpTo, AgingHistory, AssetOf, StateFromEvidence;
    AgingNeedsEvidence(cfg, s, op, id, Missing);
    RunsOnlyByCompletion(cfg, s, op);
    if op.UpdateLifecycle? {
      AgedGets(cfg, s, op.at, id);
    } else {
      var a := AssetOf(s.assets, id).value;
      var item := a.(lifecycle := Restored(cfg, a, s.runs, op.at));
      assert item.id == id;
      MoveStates(cfg, s, item, "manually_restored", op.at, RunIdOf(StateFromEvidence(cfg, a, s.runs, op.at).1), id);
    }
  }

  // --- updating twice -----------------------------------------------------------------------

  lemma AgedAgain(cfg: Config, a: Asset, runs: Runs, at: Time)
    requires Accepted(cfg)
    ensures var b := a.(lifecycle := Aged(cfg, a, runs, at)); Aged(cfg, b, runs, at) == b.lifecycle
  {
  }

  lemma {:induction false} NothingToAge(cfg: Config, s: Inventory, at: Time, n: nat)
    requires n <= |s.assets| && forall i | 0 <= i < n :: Aged(cfg, s.assets[i], s.runs, at) == s.assets[i].lifecycle
    ensures AgingHistory(cfg, s, at, n) == s.history
  {
    hide Aged, StateFromEvidence;
    if n > 0 {
      NothingToAge(cfg, s, at, n - 1);
    }
  }

  /** A second update at the same time changes nothing, and records nothing. */
  lemma UpdateTwice(cfg: Config, s: Inventory, at: Time)
    requires Accepted(cfg)
    ensures var once := Step(cfg, s, UpdateLifecycle(at)); Step(cfg, once, UpdateLifecycle(at)) == once
  {
    hide Aged, AgingHistory;
    var once := Step(cfg, s, UpdateLifecycle(at));
    forall i | 0 <= i < |once.assets| ensures Aged(cfg, once.assets[i], once.runs, at) == once.assets[i].lifecycle {
      AgedAgain(cfg, s.assets[i], s.runs, at);
    }
    NothingToAge(cfg, once, at, |once.assets|);
    assert AgedUpTo(cfg, once, at, |once.assets|) == once.assets;
  }

  // --- what is kept of source runs ----------------------------------------------------------

  predicate CompletionOf(op: Op, source: string)
  {
    op.Complete? && op.source == source
  }

  /** How many of the source's completions since the last one with the other outcome had this outcome. */
  function Trailing(ops: seq<Op>, source: string, success: bool): nat
  {
    if ops == [] then 0
    else
      var earlier, last := Trailing(ops[..|ops| - 1], source, success), ops[|ops| - 1];
      if !CompletionOf(last, source) then earlier else if last.success == success then earlier + 1 else 0
  }

  /** The source's last full success. */
  function LastFull(ops: seq<Op>, source: string): Option<Run>
  {
    if ops == [] then None
    else
      var last := ops[|ops| - 1];
      if CompletionOf(last, source) && last.success && !last.partial then Some(last.run)
      else LastFull(ops[..|ops| - 1], source)
  }

  lemma {:induction false} RunAllSnoc(cfg: Config, s: Inventory, ops: seq<Op>, op: Op)
    ensures RunAll(cfg, s, ops + [op]) == Step(cfg, RunAll(cfg, s, ops), op)
    decreases |ops|
  {
    hide Step;
    if ops == [] {
      assert [] + [op] == [op] && [op][1..] == [];
    } else {
      RunAllSnoc(cfg, Step(cfg, s, ops[0]), ops[1..], op);
      assert (ops + [op])[1..] == ops[1..] + [op];
    }
  }

  function CountsOf(runs: Runs, source: string): SourceState
  {
    if source in runs then runs[source] else SourceState(None, 0, 0)
  }

  /**
   After any run of operations a source's counters are its trailing successes and failures, and the
   evidence kept of it is its last full success.
   */
  lemma {:induction false} CountersAreTrailing(cfg: Config, ops: seq<Op>, source: string)
    ensures CountsOf(RunAll(cfg, EMPTY, ops).runs, source)
         == SourceState(LastFull(ops, source), Trailing(ops, source, true), Trailing(ops, source, false))
    decreases |ops|
  {
    hide Step;
    if ops != [] {
      var init, last := ops[..|ops| - 1], ops[|ops| - 1];
      CountersAreTrailing(cfg, init, source);
      assert init + [last] == ops;
      RunAllSnoc(cfg, EMPTY, init, last);
      RunsOnlyByCompletion(cfg, RunAll(cfg, EMPTY, init), last);
    }
  }
}
