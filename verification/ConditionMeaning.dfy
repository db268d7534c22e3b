/** What a status report must show for each notification condition, and so which incidents are open. */
module ConditionMeaning {
  import opened Options
  import opened Ordering
  import opened NotificationRules
  import opened Incidents
  import opened IncidentRuns

  /** The condition that a rule raises about a subject, word for word. */
  function Raised(digest: Digest, rule: RuleId, subject: string, summary: string): Condition
  {
    match rule
    case CollectionFailed =>
      Condition(digest(rule, subject), rule, Critical, "Connector collection failed", summary, "pipeline", subject)
    case ConnectorStale =>
      Condition(digest(rule, subject), rule, Warning, "Connector telemetry is stale", summary, "freshness", subject)
    case DaemonStopped =>
      Condition(digest(rule, subject), rule, Critical, "ITP daemon is stopped", summary, "daemon", subject)
    case HeartbeatStale =>
      Condition(digest(rule, subject), rule, Critical, "ITP daemon heartbeat is stale", summary, "daemon", subject)
    case DoctorFailed =>
      Condition(digest(rule, subject), rule, Critical, "ITP Doctor check failed", summary, "doctor", subject)
    case PipelinePartial =>
      Condition(digest(rule, subject), rule, Warning, "PipelineRun partially failed", summary, "pipeline", subject)
    case PipelineFailed =>
      Condition(digest(rule, subject), rule, Critical, "PipelineRun failed", summary, "pipeline", subject)
  }

  lemma RaisedAll(digest: Digest)
    ensures forall rule: RuleId, subject, summary ::
              var c := Raised(digest, rule, subject, summary);
              c == MakeCondition(digest, rule, subject, summary)
              && c.rule == rule && c.subject == subject && c.summary == summary
  {
  }

  // --- what the reports must show -----------------------------------------------------------

  ghost predicate ShowsFailure(status: Status, subject: string, summary: string)
  {
    exists r | r in status.results :: r.failed && subject == r.connector && summary == r.name + " collection failed."
  }

  ghost predicate ShowsStale(status: Status, subject: string, summary: string)
  {
    exists c | c in status.connectors ::
      c.enabled && c.stale && subject == c.connector
      && summary == c.name + " has exceeded its configured freshness threshold."
  }

  ghost predicate ShowsBroken(doctor: Option<seq<Check>>, subject: string, summary: string)
  {
    doctor.Some? &&
    exists c | c in doctor.value ::
      c.failed && subject == c.id
      && summary == "Doctor check failed: " + (if c.subject == "" then c.id else c.subject) + "."
  }

  predicate Overdue(daemon: Daemon, staleAfter: int)
  {
    daemon.Running? && (daemon.heartbeatAge.None? || daemon.heartbeatAge.value > staleAfter)
  }

  /** What the reports must show for a rule to raise a condition with this subject and summary. */
  ghost predicate Shows(status: Status, doctor: Option<seq<Check>>, staleAfter: int, rule: RuleId, subject: string,
                        summary: string)
  {
    match rule
    case CollectionFailed => ShowsFailure(status, subject, summary)
    case ConnectorStale => ShowsStale(status, subject, summary)
    case DaemonStopped =>
      && status.daemon == Stopped && subject == "operator-daemon"
      && summary == "The ITP continuous collection daemon is stopped."
    case HeartbeatStale =>
      && Overdue(status.daemon, staleAfter) && subject == "operator-daemon"
      && summary == "The ITP daemon heartbeat is overdue."
    case DoctorFailed => ShowsBroken(doctor, subject, summary)
    case PipelinePartial =>
      && status.pipeline == Partial && subject == "latest-pipeline"
      && summary == "The latest PipelineRun completed with partial source coverage."
    case PipelineFailed =>
      && status.pipeline == Failed && subject == "latest-pipeline" && summary == "The latest PipelineRun failed."
  }

  // --- each rule ----------------------------------------------------------------------------

  lemma {:induction false} FailuresAre(digest: Digest, results: seq<ConnectorResult>, c: Condition)
    ensures c in FailedResults(digest, results) <==>
            exists r | r in results ::
              r.failed && c == MakeCondition(digest, CollectionFailed, r.connector, r.name + " collection failed.")
  {
    hide MakeCondition;
    if results != [] {
      FailuresAre(digest, results[..|results| - 1], c);
      assert results == results[..|results| - 1] + [results[|results| - 1]];
    }
  }

  lemma {:induction false} StaleAre(digest: Digest, connectors: seq<Freshness>, c: Condition)
    ensures c in StaleConnectors(digest, connectors) <==>
            exists r | r in connectors ::
              r.enabled && r.stale
              && c == MakeCondition(digest, ConnectorStale, r.connector,
                                    r.name + " has exceeded its configured freshness threshold.")
  {
    hide MakeCondition;
    if connectors != [] {
      StaleAre(digest, connectors[..|connectors| - 1], c);
      assert connectors == connectors[..|connectors| - 1] + [connectors[|connectors| - 1]];
    }
  }

  lemma {:induction false} ChecksAre(digest: Digest, checks: seq<Check>, c: Condition)
    ensures c in FailedChecks(digest, checks) <==>
            exists r | r in checks ::
              r.failed
              && c == MakeCondition(digest, DoctorFailed, r.id,
                                    "Doctor check failed: " + (if r.subject == "" then r.id else r.subject) + ".")
  {
    hide MakeCondition;
    if checks != [] {
      ChecksAre(digest, checks[..|checks| - 1], c);
      assert checks == checks[..|checks| - 1] + [checks[|checks| - 1]];
    }
  }

  lemma RaisedIs(digest: Digest, rule: RuleId, subject: string, summary: string, c: Condition)
    ensures c == MakeCondition(digest, rule, subject, summary) <==>
            c.rule == rule && c.subject == subject && c.summary == summary
            && c == Raised(digest, c.rule, c.subject, c.summary)
  {
    hide MakeCondition, Raised;
    RaisedAll(digest);
  }

  lemma FailuresMean(digest: Digest, status: Status, c: Condition)
    ensures c in FailedResults(digest, status.results) <==>
            c.rule == CollectionFailed && c == Raised(digest, c.rule, c.subject, c.summary)
            && ShowsFailure(status, c.subject, c.summary)
  {
    hide MakeCondition, Raised, FailedResults;
    FailuresAre(digest, status.results, c);
    forall r: ConnectorResult
      ensures c == MakeCondition(digest, CollectionFailed, r.connector, r.name + " collection failed.") <==>
              && c.rule == CollectionFailed && c.subject == r.connector && c.summary == r.name + " collection failed."
              && c == Raised(digest, c.rule, c.subject, c.summary)
    {
      RaisedIs(digest, CollectionFailed, r.connector, r.name + " collection failed.", c);
    }
  }

  lemma StaleMean(digest: Digest, status: Status, c: Condition)
    ensures c in StaleConnectors(digest, status.connectors) <==>
            c.rule == ConnectorStale && c == Raised(digest, c.rule, c.subject, c.summary)
            && ShowsStale(status, c.subject, c.summary)
  {
    hide MakeCondition, Raised, StaleConnectors;
    StaleAre(digest, status.connectors, c);
    forall r: Freshness
      ensures var summary := r.name + " has exceeded its configured freshness threshold.";
              c == MakeCondition(digest, ConnectorStale, r.connector, summary) <==>
              && c.rule == ConnectorStale && c.subject == r.connector && c.summary == summary
              && c == Raised(digest, c.rule, c.subject, c.summary)
    {
      RaisedIs(digest, ConnectorStale, r.connector, r.name + " has exceeded its configured freshness threshold.", c);
    }
  }

  lemma ChecksMean(digest: Digest, doctor: Option<seq<Check>>, c: Condition)
    ensures c in FailedChecks(digest, if doctor.Some? then doctor.value else []) <==>
            c.rule == DoctorFailed && c == Raised(digest, c.rule, c.subject, c.summary)
            && ShowsBroken(doctor, c.subject, c.summary)
  {
    hide MakeCondition, Raised, FailedChecks;
    ChecksAre(digest, if doctor.Some? then doctor.value else [], c);
    forall r: Check
      ensures var summary := "Doctor check failed: " + (if r.subject == "" then r.id else r.subject) + ".";
              c == MakeCondition(digest, DoctorFailed, r.id, summary) <==>
              && c.rule == DoctorFailed && c.subject == r.id && c.summary == summary
              && c == Raised(digest, c.rule, c.subject, c.summary)
    {
      RaisedIs(digest, DoctorFailed, r.id,
               "Doctor check failed: " + (if r.subject == "" then r.id else r.subject) + ".", c);
    }
  }

  lemma DaemonMeans(digest: Digest, status: Status, doctor: Option<seq<Check>>, staleAfter: int, c: Condition)
    ensures c in DaemonConditions(digest, status.daemon, staleAfter) <==>
            (c.rule == DaemonStopped || c.rule == HeartbeatStale)
            && c == Raised(digest, c.rule, c.subject, c.summary)
            && Shows(status, doctor, staleAfter, c.rule, c.subject, c.summary)
  {
    hide MakeCondition, Raised, ShowsFailure, ShowsStale, ShowsBroken;
    RaisedIs(digest, DaemonStopped, "operator-daemon", "The ITP continuous collection daemon is stopped.", c);
    RaisedIs(digest, HeartbeatStale, "operator-daemon", "The ITP daemon heartbeat is overdue.", c);
  }

  lemma PipelineMeans(digest: Digest, status: Status, doctor: Option<seq<Check>>, staleAfter: int, c: Condition)
    ensures c in PipelineConditions(digest, status.pipeline) <==>
            (c.rule == PipelinePartial || c.rule == PipelineFailed)
            && c == Raised(digest, c.rule, c.subject, c.summary)
            && Shows(status, doctor, staleAfter, c.rule, c.subject, c.summary)
  {
    hide MakeCondition, Raised, ShowsFailure, ShowsStale, ShowsBroken, Overdue;
    RaisedIs(digest, PipelinePartial, "latest-pipeline",
             "The latest PipelineRun completed with partial source coverage.", c);
    RaisedIs(digest, PipelineFailed, "latest-pipeline", "The latest PipelineRun failed.", c);
  }

  /** A condition is found exactly when its rule raises it and the reports show it. */
  lemma ConditionsMean(digest: Digest, status: Status, doctor: Option<seq<Check>>, staleAfter: int, c: Condition)
    ensures c in Conditions(digest, status, doctor, staleAfter) <==>
            && c == Raised(digest, c.rule, c.subject, c.summary)
            && Shows(status, doctor, staleAfter, c.rule, c.subject, c.summary)
  {
    hide Sort, FailedResults, StaleConnectors, FailedChecks, DaemonConditions, PipelineConditions, Raised;
    hide ShowsFailure, ShowsStale, ShowsBroken, Overdue;
    var checks := if doctor.Some? then doctor.value else [];
    var all := FailedResults(digest, status.results) + StaleConnectors(digest, status.connectors)
      + DaemonConditions(digest, status.daemon, staleAfter) + FailedChecks(digest, checks)
      + PipelineConditions(digest, status.pipeline);
    SameElements(all, Sort(ConditionLe, all));
    FailuresMean(digest, status, c);
    StaleMean(digest, status, c);
    ChecksMean(digest, doctor, c);
    DaemonMeans(digest, status, doctor, staleAfter, c);
    PipelineMeans(digest, status, doctor, staleAfter, c);
  }

  // --- which incidents are open -------------------------------------------------------------

  /** The least severity asked for leaves out the two warnings at most. */
  predicate Admits(minimum: Severity, rule: RuleId)
  {
    minimum == Critical ==> rule != ConnectorStale && rule != PipelinePartial
  }

  /** The reports show what a rule raises that is admitted, and the incident is known by its fingerprint. */
  ghost predicate Alarmed(cfg: Settings, status: Status, doctor: Option<seq<Check>>, k: Fingerprint)
  {
    exists rule: RuleId, subject: string, summary: string ::
      && k == cfg.digest(rule, subject) && Admits(cfg.minimum, rule)
      && Shows(status, doctor, cfg.staleSeconds * cfg.ticks, rule, subject, summary)
  }

  lemma SeverityAdmits(minimum: Severity, digest: Digest, rule: RuleId, subject: string, summary: string)
    ensures var c := Raised(digest, rule, subject, summary);
            && c.rule == rule && c.subject == subject && c.summary == summary && c.fingerprint == digest(rule, subject)
            && (SeverityOrder(c.severity) >= SeverityOrder(minimum) <==> Admits(minimum, rule))
  {
  }

  lemma ReportedMeans(cfg: Settings, status: Status, doctor: Option<seq<Check>>, k: Fingerprint)
    ensures Reported(cfg, status, doctor, k) <==> Alarmed(cfg, status, doctor, k)
  {
    hide Conditions, Raised, Shows, Admits, SeverityOrder;
    assert StaleAfter(cfg) == cfg.staleSeconds * cfg.ticks;
    if Reported(cfg, status, doctor, k) {
      var c :| c in Conditions(cfg.digest, status, doctor, StaleAfter(cfg))
        && c.fingerprint == k && SeverityOrder(c.severity) >= SeverityOrder(cfg.minimum);
      ConditionsMean(cfg.digest, status, doctor, StaleAfter(cfg), c);
      SeverityAdmits(cfg.minimum, cfg.digest, c.rule, c.subject, c.summary);
    }
    if Alarmed(cfg, status, doctor, k) {
      var rule: RuleId, subject: string, summary: string :|
        k == cfg.digest(rule, subject) && Admits(cfg.minimum, rule)
        && Shows(status, doctor, StaleAfter(cfg), rule, subject, summary);
      var c := Raised(cfg.digest, rule, subject, summary);
      SeverityAdmits(cfg.minimum, cfg.digest, rule, subject, summary);
      ConditionsMean(cfg.digest, status, doctor, StaleAfter(cfg), c);
    }
  }

  /**
   After a run and an evaluation, an incident is open if and only if the reports show what its rule
   raises, and the rule is severe enough; or it is the doctor's, was open, and the doctor was silent.
   */
  lemma RunsOpenAlarmed(cfg: Settings, ops: seq<Op>, world: World, status: Status, doctor: Option<seq<Check>>,
                        k: Fingerprint)
    requires StrictlyLater(ops + [Evaluate(world, status, doctor)]) && InjectiveDigest(cfg.digest)
    ensures var st := RunAll(cfg, ops);
            k in RunAll(cfg, ops + [Evaluate(world, status, doctor)]).active
            <==> Alarmed(cfg, status, doctor, k) || (doctor.None? && k in st.active && st.active[k].source == "doctor")
  {
    hide *;
    RunsOpenReported(cfg, ops, world, status, doctor, k);
    ReportedMeans(cfg, status, doctor, k);
  }

  /** Conditions are listed by fingerprint. */
  lemma ConditionsListed(digest: Digest, status: Status, doctor: Option<seq<Check>>, staleAfter: int, i: nat, j: nat)
    requires i < j < |Conditions(digest, status, doctor, staleAfter)|
    ensures var found := Conditions(digest, status, doctor, staleAfter); found[i].fingerprint <= found[j].fingerprint
  {
    hide Sort, FailedResults, StaleConnectors, FailedChecks, DaemonConditions, PipelineConditions;
    assert Total(ConditionLe) && Transitive(ConditionLe);
    var checks := if doctor.Some? then doctor.value else [];
    SortSorts(ConditionLe,
      FailedResults(digest, status.results) + StaleConnectors(digest, status.connectors)
      + DaemonConditions(digest, status.daemon, staleAfter) + FailedChecks(digest, checks)
      + PipelineConditions(digest, status.pipeline));
  }
}
