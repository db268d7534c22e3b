/** Identity protection over runs of inventory operations. */
module InventoryGuarantees {
  import opened Options
  import opened Ordering
  import opened InventoryTypes
  import opened History
  import opened Aging
  import opened InventorySteps
  import opened InventoryRuns
  import ChangeLog
  import ChangeDetection
  import Reconciliation

  // --- protected identifiers ----------------------------------------------------------------

  /** Detection is on and nothing is excluded from it. */
  ghost predicate NoExclusions(cfg: Config)
  {
    cfg.detection && cfg.excludedTypes == {} && forall host :: !cfg.hostExcluded(host)
  }

  function FieldOf(assets: seq<Asset>, id: string, f: Field): Option<Value>
  {
    var a := AssetOf(assets, id);
    if a.Some? then Lookup(a.value.fields, f) else None
  }

  lemma NeverExcluded(cfg: Config, prior: map<Field, Value>, item: map<Field, Value>)
    requires NoExclusions(cfg)
    ensures !ChangeDetection.Excluded(cfg, prior, item)
  {
  }

  /** What a comparison keeps of a value that is set. */
  lemma ComparedKeeps(cfg: Config, previous: Asset, batch: Batch, o: Observation, f: Field)
    requires NoExclusions(cfg) && f !in cfg.ignored && f in previous.fields
    ensures f in PROTECTED ==> Lookup(Compared(cfg, previous, batch, o).0, f) == Some(previous.fields[f])
    ensures batch.partial ==> Lookup(Compared(cfg, previous, batch, o).0, f).Some?
  {
    hide ChangeDetection.Detect, ChangeDetection.Excluded;
    var declared := if o.declared != {} then o.declared else batch.authoritative;
    var pass := ChangeDetection.Pass(declared, batch.partial, batch.at, batch.runId);
    NeverExcluded(cfg, previous.fields, o.fields);
    if f in PROTECTED {
      ChangeDetection.ProtectedFieldStays(cfg, previous.id, previous.fields, o.fields, pass, f);
    }
    if batch.partial {
      ChangeDetection.PartialRemovesNothing(cfg, previous.id, previous.fields, o.fields, pass, f);
    }
  }

  lemma IngestOneFields(cfg: Config, st: Ingesting, batch: Batch, o: Observation, id: string, f: Field)
    requires UniqueIds(st.assets) && NoExclusions(cfg) && f !in cfg.ignored && FieldOf(st.assets, id, f).Some?
    ensures var next := IngestOne(cfg, st, batch, o);
      && UniqueIds(next.assets)
      && (f in PROTECTED ==> FieldOf(next.assets, id, f) == FieldOf(st.assets, id, f))
      && (batch.partial ==> FieldOf(next.assets, id, f).Some?)
  {
    hide AppendTransition, PutAsset, AssetOf, Continues, Target, Compared, UniqueIds, NoExclusions;
    ContinuesIs(st.assets, batch.source, o);
    PutAssetGets(st.assets, Item(cfg, st.assets, batch, o), id);
    if id == Target(st.assets, batch.source, o) {
      ComparedKeeps(cfg, Continues(st.assets, batch.source, o).value, batch, o, f);
    }
  }

  lemma {:induction false} IngestUpToFields(cfg: Config, s: Inventory, batch: Batch, n: nat, id: string, f: Field)
    requires n <= |batch.records|
    requires UniqueIds(s.assets) && NoExclusions(cfg) && f !in cfg.ignored && FieldOf(s.assets, id, f).Some?
    requires f in PROTECTED || batch.partial
    ensures var st := IngestUpTo(cfg, s, batch, n);
      && UniqueIds(st.assets) && FieldOf(st.assets, id, f).Some?
      && (f in PROTECTED ==> FieldOf(st.assets, id, f) == FieldOf(s.assets, id, f))
  {
    hide IngestOne, FieldOf, UniqueIds, NoExclusions;
    if n > 0 {
      IngestUpToFields(cfg, s, batch, n - 1, id, f);
      IngestOneFields(cfg, IngestUpTo(cfg, s, batch, n - 1), batch, batch.records[n - 1], id, f);
    }
  }

  /** Any operation keeps a protected identifier; a partial ingest keeps every tracked field it does not ignore set. */
  lemma StepKeepsField(cfg: Config, s: Inventory, op: Op, id: string, f: Field)
    requires UniqueIds(s.assets) && NoExclusions(cfg) && f !in cfg.ignored && FieldOf(s.assets, id, f).Some?
    ensures UniqueIds(Step(cfg, s, op).assets)
    ensures f in PROTECTED ==> FieldOf(Step(cfg, s, op).assets, id, f) == FieldOf(s.assets, id, f)
    ensures op.Ingest? && op.batch.partial ==> FieldOf(Step(cfg, s, op).assets, id, f).Some?
  {
    hide Move, UniqueIds, AgedUpTo, AgingHistory, IngestUpTo, Sort, Reconciliation.Reconciled, ChangeLog.AppendChanges,
      StateFromEvidence, NoExclusions, PROTECTED;
    RetiredStays(cfg, s, op, id);
    match op
    case Ingest(batch) =>
      var st := IngestUpTo(cfg, s, batch, |batch.records|);
      IngestUpToStates(cfg, s, batch, |batch.records|, id);
      if f in PROTECTED || batch.partial {
        IngestUpToFields(cfg, s, batch, |batch.records|, id, f);
        PublishedAnswers(cfg, st.assets, id);
      }
    case UpdateLifecycle(at) =>
      AgedFields(cfg, s, at, id);
    case Complete(_, _, _, _) =>
    case _ =>
      var item, reason, runId := StepMoves(cfg, s, op);
      if AssetOf(s.assets, item.id).Some? {
        MoveStates(cfg, s, item, reason, TimeOf(op).value, runId, id);
      }
  }

  lemma AgedFields(cfg: Config, s: Inventory, at: Time, id: string)
    ensures var aged := AgedUpTo(cfg, s, at, |s.assets|);
      && (AssetOf(aged, id).Some? <==> AssetOf(s.assets, id).Some?)
      && (AssetOf(s.assets, id).Some? ==> AssetOf(aged, id).value.fields == AssetOf(s.assets, id).value.fields)
  {
    hide Aged;
    InPlaceGets(s.assets, AgedUpTo(cfg, s, at, |s.assets|), id);
  }

  /**
   Over any run of operations, a serial number, MAC address or source asset id that is once set never
   changes and never disappears.
   */
  lemma {:induction false} ProtectedOverRuns(cfg: Config, s: Inventory, ops: seq<Op>, id: string, f: Field)
    requires UniqueIds(s.assets) && NoExclusions(cfg)
    requires f in PROTECTED && f !in cfg.ignored && FieldOf(s.assets, id, f).Some?
    ensures FieldOf(RunAll(cfg, s, ops).assets, id, f) == FieldOf(s.assets, id, f)
    decreases |ops|
  {
    hide Step, FieldOf, UniqueIds, NoExclusions;
    if ops != [] {
      StepKeepsField(cfg, s, ops[0], id, f);
      ProtectedOverRuns(cfg, Step(cfg, s, ops[0]), ops[1..], id, f);
    }
  }
}
