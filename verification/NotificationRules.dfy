/** The notification rules, and the conditions they find in a status report. */
module NotificationRules {
  import opened Options
  import opened Ordering

  datatype RuleId =
    | CollectionFailed | ConnectorStale | DaemonStopped | HeartbeatStale | DoctorFailed
    | PipelinePartial | PipelineFailed

  datatype Severity = Info | Warning | Critical | Recovery

  function SeverityOrder(s: Severity): nat
  {
    match s
    case Info => 0
    case Recovery => 0
    case Warning => 1
    case Critical => 2
  }

  datatype Rule = Rule(title: string, severity: Severity, source: string)

  function RuleOf(id: RuleId): Rule
  {
    match id
    case CollectionFailed => Rule("Connector collection failed", Critical, "pipeline")
    case ConnectorStale => Rule("Connector telemetry is stale", Warning, "freshness")
    case DaemonStopped => Rule("ITP daemon is stopped", Critical, "daemon")
    case HeartbeatStale => Rule("ITP daemon heartbeat is stale", Critical, "daemon")
    case DoctorFailed => Rule("ITP Doctor check failed", Critical, "doctor")
    case PipelinePartial => Rule("PipelineRun partially failed", Warning, "pipeline")
    case PipelineFailed => Rule("PipelineRun failed", Critical, "pipeline")
  }

  type Fingerprint = int

  /** A condition is known by the fingerprint of its rule and subject. */
  datatype Condition = Condition(
    fingerprint: Fingerprint, rule: RuleId, severity: Severity, title: string, summary: string, source: string,
    subject: string)

  /** The digest of a rule and a subject. */
  type Digest = (RuleId, string) -> int

  ghost predicate InjectiveDigest(digest: Digest)
  {
    forall r, s, p, q | digest(r, s) == digest(p, q) :: r == p && s == q
  }

  function MakeCondition(digest: Digest, id: RuleId, subject: string, summary: string): Condition
  {
    var rule := RuleOf(id);
    Condition(digest(id, subject), id, rule.severity, rule.title, summary, rule.source, subject)
  }

  /** Every condition is one of the rule table's, under its own fingerprint. */
  ghost predicate IsCondition(digest: Digest, c: Condition)
  {
    exists id, subject, summary :: c == MakeCondition(digest, id, subject, summary)
  }

  lemma ConditionMatchesRule(digest: Digest, c: Condition)
    requires IsCondition(digest, c)
    ensures c.fingerprint == digest(c.rule, c.subject)
    ensures c.severity == RuleOf(c.rule).severity && c.source == RuleOf(c.rule).source
            && c.title == RuleOf(c.rule).title
    ensures c.source == "doctor" <==> c.rule == DoctorFailed
  {
    var id, subject, summary :| c == MakeCondition(digest, id, subject, summary);
  }

  // --- the status report --------------------------------------------------------------------

  datatype ConnectorResult = ConnectorResult(connector: string, name: string, failed: bool)
  datatype Freshness = Freshness(connector: string, name: string, enabled: bool, stale: bool)

  /** The age of the last heartbeat, in ticks, is None where it cannot be read. */
  datatype Daemon = Stopped | Running(heartbeatAge: Option<int>) | Other

  datatype Pipeline = Partial | Failed | Fine

  datatype Status = Status(
    results: seq<ConnectorResult>, connectors: seq<Freshness>, daemon: Daemon, pipeline: Pipeline)

  datatype Check = Check(id: string, subject: string, failed: bool)

  function FailedResults(digest: Digest, results: seq<ConnectorResult>): seq<Condition>
  {
    if results == [] then []
    else
      var last := results[|results| - 1];
      FailedResults(digest, results[..|results| - 1]) +
      (if last.failed then [MakeCondition(digest, CollectionFailed, last.connector, last.name + " collection failed.")]
       else [])
  }

  function StaleConnectors(digest: Digest, connectors: seq<Freshness>): seq<Condition>
  {
    if connectors == [] then []
    else
      var last := connectors[|connectors| - 1];
      StaleConnectors(digest, connectors[..|connectors| - 1]) +
      (if last.enabled && last.stale then
         [MakeCondition(digest, ConnectorStale, last.connector,
                        last.name + " has exceeded its configured freshness threshold.")]
       else [])
  }

  function DaemonConditions(digest: Digest, daemon: Daemon, staleAfter: int): seq<Condition>
  {
    match daemon
    case Stopped =>
      [MakeCondition(digest, DaemonStopped, "operator-daemon", "The ITP continuous collection daemon is stopped.")]
    case Running(age) =>
      if age.None? || age.value > staleAfter then
        [MakeCondition(digest, HeartbeatStale, "operator-daemon", "The ITP daemon heartbeat is overdue.")]
      else []
    case Other => []
  }

  function FailedChecks(digest: Digest, checks: seq<Check>): seq<Condition>
  {
    if checks == [] then []
    else
      var last := checks[|checks| - 1];
      FailedChecks(digest, checks[..|checks| - 1]) +
      (if last.failed then
         [MakeCondition(digest, DoctorFailed, last.id,
                        "Doctor check failed: " + (if last.subject != "" then last.subject else last.id) + ".")]
       else [])
  }

  function PipelineConditions(digest: Digest, pipeline: Pipeline): seq<Condition>
  {
    match pipeline
    case Partial =>
      [MakeCondition(digest, PipelinePartial, "latest-pipeline",
                     "The latest PipelineRun completed with partial source coverage.")]
    case Failed => [MakeCondition(digest, PipelineFailed, "latest-pipeline", "The latest PipelineRun failed.")]
    case Fine => []
  }

  predicate ConditionLe(a: Condition, b: Condition)
  {
    a.fingerprint <= b.fingerprint
  }

  /** The conditions of a status report, sorted; without a doctor report there are no doctor conditions. */
  function Conditions(digest: Digest, status: Status, doctor: Option<seq<Check>>, staleAfter: int): seq<Condition>
  {
    Sort(ConditionLe,
      FailedResults(digest, status.results) + StaleConnectors(digest, status.connectors)
      + DaemonConditions(digest, status.daemon, staleAfter)
      + FailedChecks(digest, if doctor.Some? then doctor.value else [])
      + PipelineConditions(digest, status.pipeline))
  }

  method FindFailures(digest: Digest, results: seq<ConnectorResult>) returns (found: seq<Condition>)
    ensures found == FailedResults(digest, results)
  {
    hide MakeCondition;
    found := [];
    for i := 0 to |results|
      invariant found == FailedResults(digest, results[..i])
    {
      var value := results[i];
      assert results[..i + 1][..i] == results[..i];
      if value.failed {
        found := found + [MakeCondition(digest, CollectionFailed, value.connector, value.name + " collection failed.")];
      }
    }
    assert results[..|results|] == results;
  }

  method FindStale(digest: Digest, connectors: seq<Freshness>) returns (found: seq<Condition>)
    ensures found == StaleConnectors(digest, connectors)
  {
    hide MakeCondition;
    found := [];
    for i := 0 to |connectors|
      invariant found == StaleConnectors(digest, connectors[..i])
    {
      var value := connectors[i];
      assert connectors[..i + 1][..i] == connectors[..i];
      if value.enabled && value.stale {
        found := found + [MakeCondition(digest, ConnectorStale, value.connector,
                                        value.name + " has exceeded its configured freshness threshold.")];
      }
    }
    assert connectors[..|connectors|] == connectors;
  }

  method FindFailedChecks(digest: Digest, checks: seq<Check>) returns (found: seq<Condition>)
    ensures found == FailedChecks(digest, checks)
  {
    hide MakeCondition;
    found := [];
    for i := 0 to |checks|
      invariant found == FailedChecks(digest, checks[..i])
    {
      var value := checks[i];
      assert checks[..i + 1][..i] == checks[..i];
      if value.failed {
        found := found + [MakeCondition(digest, DoctorFailed, value.id,
          "Doctor check failed: " + (if value.subject != "" then value.subject else value.id) + ".")];
      }
    }
    assert checks[..|checks|] == checks;
  }

  method EvaluateConditions(digest: Digest, status: Status, doctor: Option<seq<Check>>, staleAfter: int)
    returns (conditions: seq<Condition>)
    ensures conditions == Conditions(digest, status, doctor, staleAfter)
  {
    hide FailedResults, StaleConnectors, FailedChecks, DaemonConditions, PipelineConditions, Sort;
    conditions := FindFailures(digest, status.results);
    var stale := FindStale(digest, status.connectors);
    conditions := conditions + stale + DaemonConditions(digest, status.daemon, staleAfter);
    var broken := FindFailedChecks(digest, if doctor.Some? then doctor.value else []);
    conditions := conditions + broken + PipelineConditions(digest, status.pipeline);
    conditions := Sort(ConditionLe, conditions);
  }

  // --- what the conditions are --------------------------------------------------------------

  ghost predicate AllConditions(digest: Digest, s: seq<Condition>)
  {
    forall c | c in s :: IsCondition(digest, c)
  }

  ghost predicate NoDoctor(s: seq<Condition>)
  {
    forall c | c in s :: c.rule != DoctorFailed
  }

  lemma Made(digest: Digest, id: RuleId, subject: string, summary: string)
    ensures IsCondition(digest, MakeCondition(digest, id, subject, summary))
    ensures MakeCondition(digest, id, subject, summary).rule == id
  {
  }

  lemma {:induction false} FailedResultsMade(digest: Digest, results: seq<ConnectorResult>)
    ensures AllConditions(digest, FailedResults(digest, results)) && NoDoctor(FailedResults(digest, results))
  {
    hide IsCondition, MakeCondition;
    if results != [] {
      var last := results[|results| - 1];
      FailedResultsMade(digest, results[..|results| - 1]);
      Made(digest, CollectionFailed, last.connector, last.name + " collection failed.");
    }
  }

  lemma {:induction false} StaleConnectorsMade(digest: Digest, connectors: seq<Freshness>)
    ensures AllConditions(digest, StaleConnectors(digest, connectors)) && NoDoctor(StaleConnectors(digest, connectors))
  {
    hide IsCondition, MakeCondition;
    if connectors != [] {
      var last := connectors[|connectors| - 1];
      StaleConnectorsMade(digest, connectors[..|connectors| - 1]);
      Made(digest, ConnectorStale, last.connector, last.name + " has exceeded its configured freshness threshold.");
    }
  }

  lemma {:induction false} FailedChecksMade(digest: Digest, checks: seq<Check>)
    ensures AllConditions(digest, FailedChecks(digest, checks))
  {
    hide IsCondition, MakeCondition;
    if checks != [] {
      var last := checks[|checks| - 1];
      FailedChecksMade(digest, checks[..|checks| - 1]);
      Made(digest, DoctorFailed, last.id,
           "Doctor check failed: " + (if last.subject != "" then last.subject else last.id) + ".");
    }
  }

  lemma FixedConditionsMade(digest: Digest, daemon: Daemon, pipeline: Pipeline, staleAfter: int)
    ensures AllConditions(digest, DaemonConditions(digest, daemon, staleAfter))
    ensures AllConditions(digest, PipelineConditions(digest, pipeline))
    ensures NoDoctor(DaemonConditions(digest, daemon, staleAfter)) && NoDoctor(PipelineConditions(digest, pipeline))
  {
    hide IsCondition, MakeCondition;
    Made(digest, DaemonStopped, "operator-daemon", "The ITP continuous collection daemon is stopped.");
    Made(digest, HeartbeatStale, "operator-daemon", "The ITP daemon heartbeat is overdue.");
    Made(digest, PipelinePartial, "latest-pipeline", "The latest PipelineRun completed with partial source coverage.");
    Made(digest, PipelineFailed, "latest-pipeline", "The latest PipelineRun failed.");
  }

  /** Conditions come from the rule table; without a doctor report none comes from the doctor. */
  lemma ConditionsAreMade(digest: Digest, status: Status, doctor: Option<seq<Check>>, staleAfter: int)
    ensures AllConditions(digest, Conditions(digest, status, doctor, staleAfter))
    ensures doctor.None? ==> NoDoctor(Conditions(digest, status, doctor, staleAfter))
  {
    hide IsCondition, FailedResults, StaleConnectors, DaemonConditions, FailedChecks, PipelineConditions, Sort;
    var checks := if doctor.Some? then doctor.value else [];
    FailedResultsMade(digest, status.results);
    StaleConnectorsMade(digest, status.connectors);
    FixedConditionsMade(digest, status.daemon, status.pipeline, staleAfter);
    FailedChecksMade(digest, checks);
    NoChecks(digest);
    var all := FailedResults(digest, status.results) + StaleConnectors(digest, status.connectors)
      + DaemonConditions(digest, status.daemon, staleAfter) + FailedChecks(digest, checks)
      + PipelineConditions(digest, status.pipeline);
    SameElements(all, Sort(ConditionLe, all));
  }

  lemma NoChecks(digest: Digest)
    ensures FailedChecks(digest, []) == []
  {
  }
}
