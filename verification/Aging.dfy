/**
 Source runs, and the lifecycle state an asset's silence is evidence for: an asset ages only when
 its source has since completed a full successful run without it.
 */
module Aging {
  import opened Options
  import opened InventoryTypes

  datatype Run = Run(id: string, completed: Time)

  datatype SourceState = SourceState(lastComplete: Option<Run>, successes: nat, failures: nat)

  type Runs = map<string, SourceState>

  /** Ends a source run; only a full success becomes evidence. */
  function CompleteRun(runs: Runs, source: string, run: Run, success: bool, partial: bool): Runs
  {
    var s := if source in runs then runs[source] else SourceState(None, 0, 0);
    runs[source :=
      if success then
        SourceState(if partial then s.lastComplete else Some(run), s.successes + 1, 0)
      else SourceState(s.lastComplete, 0, s.failures + 1)]
  }

  function LastComplete(runs: Runs, source: string): Option<Run>
  {
    if source in runs then runs[source].lastComplete else None
  }

  /** The state the evidence calls for, if any, and the run it rests on. */
  function StateFromEvidence(cfg: Config, a: Asset, runs: Runs, now: Time): (Option<Lifecycle>, Option<Run>)
  {
    var run := LastComplete(runs, a.source);
    if a.lastSeen.None? || run.None? || run.value.completed <= a.lastSeen.value
       || a.observedRun == Some(run.value.id)
    then (None, None)
    else
      var age, evidenceAge := now - a.lastSeen.value, run.value.completed - a.lastSeen.value;
      if age >= cfg.missingAfter && evidenceAge >= cfg.missingAfter then (Some(Missing), run)
      else if age >= cfg.staleAfter && evidenceAge >= cfg.staleAfter then (Some(Stale), run)
      else (None, run)
  }

  /** Both the clock and the evidence have passed a threshold since the asset was last seen. */
  predicate Past(cfg: Config, a: Asset, runs: Runs, now: Time, threshold: int)
  {
    var run := LastComplete(runs, a.source);
    && a.lastSeen.Some? && run.Some? && run.value.completed > a.lastSeen.value
    && a.observedRun != Some(run.value.id)
    && now - a.lastSeen.value >= threshold && run.value.completed - a.lastSeen.value >= threshold
  }

  /** Missing and stale are exactly the thresholds passed by both clocks. */
  lemma EvidenceMeans(cfg: Config, a: Asset, runs: Runs, now: Time)
    requires Accepted(cfg)
    ensures var state := StateFromEvidence(cfg, a, runs, now).0;
      && (state == Some(Missing) <==> Past(cfg, a, runs, now, cfg.missingAfter))
      && (state == Some(Stale) <==>
            Past(cfg, a, runs, now, cfg.staleAfter) && !Past(cfg, a, runs, now, cfg.missingAfter))
      && (state == None || state == Some(Missing) || state == Some(Stale))
      && (state.Some? ==> StateFromEvidence(cfg, a, runs, now).1 == LastComplete(runs, a.source)
                          && LastComplete(runs, a.source).Some?)
  {
  }

  /** As long as time and completions move forward, evidence for missing never weakens to stale. */
  lemma MissingNeverWeakens(cfg: Config, a: Asset, runs: Runs, now: Time, laterRuns: Runs, later: Time)
    requires Accepted(cfg) && now <= later
    requires StateFromEvidence(cfg, a, runs, now).0 == Some(Missing)
    requires LastComplete(laterRuns, a.source).Some?
    requires LastComplete(laterRuns, a.source).value.completed >= LastComplete(runs, a.source).value.completed
    ensures StateFromEvidence(cfg, a, laterRuns, later).0 in {None, Some(Missing)}
  {
  }
}
