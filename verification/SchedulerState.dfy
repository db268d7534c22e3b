/**
 The scheduler's stored state: each phase outcome is noted for its connector, and the connectors'
 counters and errors are folded into the root.  Connector names are compared only, so integers stand
 for them.
 */
module SchedulerState {
  import opened Options
  import opened Ordering
  import opened SortedKeys

  type Name = int
  type Time = int

  datatype Phase = Discovery | Collection

  datatype Status = Success | Failed | Skipped

  datatype Outcome = Outcome(
    connector: Name, status: Status, duration: int, errorType: string, reason: string, diagnostic: Option<string>)

  datatype Lifecycle = Starting | InitialDiscovery | InitialCollection | Ready | Degraded | Stopping | Stopped

  datatype PhaseRecord = PhaseRecord(
    failures: nat,
    outcome: Option<Status>,
    attempt: Option<Time>,
    duration: Option<int>,
    succeeded: Option<Time>,
    error: Option<string>,
    summary: Option<string>,
    diagnostic: Option<string>,
    skipReason: Option<string>)

  const NO_RECORD := PhaseRecord(0, None, None, None, None, None, None, None, None)

  datatype Connector = Connector(
    discovery: PhaseRecord, collection: PhaseRecord, lastFailure: Option<Time>, error: Option<string>,
    summary: Option<string>)
  {
    function Of(phase: Phase): PhaseRecord
    {
      if phase == Discovery then discovery else collection
    }
  }

  const NO_CONNECTOR := Connector(NO_RECORD, NO_RECORD, None, None, None)

  datatype RootPhase = RootPhase(
    attempt: Option<Time>, outcome: Option<Status>, duration: Option<int>, succeeded: Option<Time>, failures: nat)

  datatype Root = Root(
    lifecycle: Lifecycle,
    readyAt: Option<Time>,
    discovery: RootPhase,
    collection: RootPhase,
    skippedRun: Option<Time>,
    skipReason: Option<string>,
    lastFailure: Option<Time>,
    error: Option<string>,
    summary: Option<string>,
    diagnostic: Option<string>,
    connectors: map<Name, Connector>)
  {
    function Of(phase: Phase): RootPhase
    {
      if phase == Discovery then discovery else collection
    }
  }

  const DEFAULTS := Root(
    Stopped, None, RootPhase(None, None, None, None, 0), RootPhase(None, None, None, None, 0),
    None, None, None, None, None, None, map[])

  function NonEmpty(s: string): Option<string>
  {
    if s == "" then None else Some(s)
  }

  // --- one outcome --------------------------------------------------------------------------

  function Noted(r: PhaseRecord, o: Outcome, attemptedAt: Time, now: Time): PhaseRecord
  {
    var judged :=
      match o.status
      case Success => r.(failures := 0, error := None, summary := None, diagnostic := None, skipReason := None,
                         succeeded := Some(now))
      case Failed => r.(failures := r.failures + 1, error := NonEmpty(o.errorType), summary := NonEmpty(o.reason),
                        diagnostic := o.diagnostic, skipReason := None)
      case Skipped => r.(skipReason := Some(o.reason), error := None, summary := None, diagnostic := None);
    judged.(attempt := Some(attemptedAt), outcome := Some(o.status), duration := Some(o.duration))
  }

  function ConnectorNoted(c: Connector, phase: Phase, o: Outcome, attemptedAt: Time, now: Time): Connector
  {
    var noted := Noted(c.Of(phase), o, attemptedAt, now);
    var d, l := if phase == Discovery then noted else c.discovery, if phase == Collection then noted else c.collection;
    Connector(d, l, if o.status == Failed then Some(now) else c.lastFailure,
              if d.outcome == Some(Failed) then d.error else if l.outcome == Some(Failed) then l.error else None,
              if d.outcome == Some(Failed) then d.summary else if l.outcome == Some(Failed) then l.summary else None)
  }

  function Known(connectors: map<Name, Connector>, n: Name): Connector
  {
    if n in connectors then connectors[n] else NO_CONNECTOR
  }

  function Sum(connectors: map<Name, Connector>, names: seq<Name>, phase: Phase): nat
    decreases |names|
  {
    if names == [] then 0 else Known(connectors, names[0]).Of(phase).failures + Sum(connectors, names[1..], phase)
  }

  type Key = (Name, Phase)

  /** By name, and for one name "collection" comes before "discovery". */
  predicate KeyLe(a: Key, b: Key)
  {
    a.0 < b.0 || (a.0 == b.0 && (a.1 == Collection || b.1 == Discovery))
  }

  function KeysWith(connectors: map<Name, Connector>, names: seq<Name>, status: Status): seq<Key>
    decreases |names|
  {
    if names == [] then []
    else
      var c := Known(connectors, names[0]);
      (if c.discovery.outcome == Some(status) then [(names[0], Discovery)] else [])
      + (if c.collection.outcome == Some(status) then [(names[0], Collection)] else [])
      + KeysWith(connectors, names[1..], status)
  }

  /** The connector phases whose last outcome is `status`, sorted. */
  function SortedWith(connectors: map<Name, Connector>, status: Status): seq<Key>
  {
    Sort(KeyLe, KeysWith(connectors, Ascending(connectors.Keys), status))
  }

  function At(connectors: map<Name, Connector>, key: Key): PhaseRecord
  {
    Known(connectors, key.0).Of(key.1)
  }

  function RootNoted(p: RootPhase, o: Outcome, attemptedAt: Time, now: Time, failures: nat): RootPhase
  {
    RootPhase(Some(attemptedAt), Some(o.status), Some(o.duration), if o.status == Success then Some(now)
              else p.succeeded,
              failures)
  }

  predicate Recovers(root: Root, status: Status)
  {
    && status == Success && root.lifecycle == Degraded
    && root.discovery.succeeded.Some? && root.collection.succeeded.Some?
    && root.discovery.failures == 0 && root.collection.failures == 0
  }

  /** The root after an outcome, before the recovery rule. */
  function Folded(root: Root, phase: Phase, o: Outcome, attemptedAt: Time, now: Time): Root
  {
    var connectors := root.connectors[
      o.connector := ConnectorNoted(Known(root.connectors, o.connector), phase, o, attemptedAt, now)];
    var noted := RootNoted(root.Of(phase), o, attemptedAt, now, Sum(connectors, Ascending(connectors.Keys), phase));
    var errors, skips := SortedWith(connectors, Failed), SortedWith(connectors, Skipped);
    Root(root.lifecycle, root.readyAt,
         if phase == Discovery then noted else root.discovery,
         if phase == Collection then noted else root.collection,
         if o.status == Skipped then Some(now) else root.skippedRun,
         if skips == [] then None else At(connectors, skips[0]).skipReason,
         if o.status == Failed then Some(now) else root.lastFailure,
         if errors == [] then None else At(connectors, errors[0]).error,
         if errors == [] then None else At(connectors, errors[0]).summary,
         if errors == [] then None else At(connectors, errors[0]).diagnostic,
         connectors)
  }

  function Recorded(root: Root, phase: Phase, o: Outcome, attemptedAt: Time, now: Time): Root
  {
    var folded := Folded(root, phase, o, attemptedAt, now);
    if Recovers(folded, o.status) then folded.(lifecycle := Ready, readyAt := Some(now)) else folded
  }

  // --- runs ---------------------------------------------------------------------------------

  /** An outcome that is recorded, or the startup or shutdown moving the lifecycle. */
  datatype Change =
    | Record(phase: Phase, outcome: Outcome, attemptedAt: Time, now: Time)
    | Move(lifecycle: Lifecycle, readyAt: Option<Time>, skipReason: Option<string>)

  function Apply(root: Root, change: Change): Root
  {
    match change
    case Record(phase, outcome, attemptedAt, now) => Recorded(root, phase, outcome, attemptedAt, now)
    case Move(lifecycle, readyAt, skipReason) =>
      root.(lifecycle := lifecycle, readyAt := readyAt,
            skipReason := if skipReason.Some? then skipReason else root.skipReason)
  }

  function ApplyAll(changes: seq<Change>): Root
  {
    if changes == [] then DEFAULTS else Apply(ApplyAll(changes[..|changes| - 1]), changes[|changes| - 1])
  }

  predicate About(change: Change, key: Key)
  {
    change.Record? && change.outcome.connector == key.0 && change.phase == key.1
  }

  /** Failed outcomes since the last success; skips in between do not count and do not end the streak. */
  function Streak(changes: seq<Change>, key: Key): nat
  {
    if changes == [] then 0
    else
      var earlier, last := Streak(changes[..|changes| - 1], key), changes[|changes| - 1];
      if !About(last, key) || last.outcome.status == Skipped then earlier
      else if last.outcome.status == Success then 0 else earlier + 1
  }

  /** The last outcome of a connector's phase. */
  function Latest(changes: seq<Change>, key: Key): (r: Option<Outcome>)
    ensures r.Some? ==> r.value.connector == key.0
  {
    if changes == [] then None
    else if About(changes[|changes| - 1], key) then Some(changes[|changes| - 1].outcome)
    else Latest(changes[..|changes| - 1], key)
  }

  predicate EverSucceeded(changes: seq<Change>, phase: Phase)
  {
    exists i | 0 <= i < |changes| :: changes[i].Record? && changes[i].phase == phase
           && changes[i].outcome.status == Success
  }

  // --- the store ----------------------------------------------------------------------------

  class SchedulerStateStore {
    var value: Root

    constructor ()
      ensures value == DEFAULTS
    {
      value := DEFAULTS;
    }

    /** Notes an outcome and, on a success, leaves the degraded state where nothing fails any more. */
    method PhaseState(phase: Phase, o: Outcome, attemptedAt: Time, now: Time)
      modifies this
      ensures value == Recorded(old(value), phase, o, attemptedAt, now)
    {
      hide Ascending, ConnectorNoted, SortedWith, At, Sum, RootNoted;
      var state := ConnectorNoted(Known(value.connectors, o.connector), phase, o, attemptedAt, now);
      var connectors := value.connectors[o.connector := state];
      var failures := TotalFailures(connectors, phase);
      var noted := RootNoted(value.Of(phase), o, attemptedAt, now, failures);
      var errors := SortedWith(connectors, Failed);
      var skips := SortedWith(connectors, Skipped);
      if phase == Discovery {
        value := value.(discovery := noted);
      } else {
        value := value.(collection := noted);
      }
      if o.status == Skipped {
        value := value.(skippedRun := Some(now));
      } else if o.status == Failed {
        value := value.(lastFailure := Some(now));
      }
      value := value.(connectors := connectors,
                      error := if errors == [] then None else At(connectors, errors[0]).error,
                      summary := if errors == [] then None else At(connectors, errors[0]).summary,
                      diagnostic := if errors == [] then None else At(connectors, errors[0]).diagnostic,
                      skipReason := if skips == [] then None else At(connectors, skips[0]).skipReason);
      if Recovers(value, o.status) {
        value := value.(lifecycle := Ready, readyAt := Some(now));
      }
    }
  }

  method TotalFailures(connectors: map<Name, Connector>, phase: Phase) returns (failures: nat)
    ensures failures == Sum(connectors, Ascending(connectors.Keys), phase)
  {
    hide Ascending;
    var names := Ascending(connectors.Keys);
    failures := 0;
    assert names[0..] == names;
    for i := 0 to |names|
      invariant failures + Sum(connectors, names[i..], phase) == Sum(connectors, names, phase)
    {
      assert names[i..][0] == names[i] && names[i..][1..] == names[i + 1..];
      failures := failures + Known(connectors, names[i]).Of(phase).failures;
    }
  }
}
