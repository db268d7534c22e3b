/** What the scheduler's stored state reports, in terms of the outcomes recorded so far. */
module SchedulerReports {
  import opened Options
  import opened SortedKeys
  import opened SchedulerState
  import opened SchedulerAggregation

  /** The last recorded outcome that matters, with its times. */
  function LastOf(changes: seq<Change>, matters: Change -> bool): (r: Option<Change>)
    ensures r.Some? ==> r.value in changes && r.value.Record? && matters(r.value)
  {
    if changes == [] then None
    else
      var last := changes[|changes| - 1];
      assert changes == changes[..|changes| - 1] + [last];
      if last.Record? && matters(last) then Some(last) else LastOf(changes[..|changes| - 1], matters)
  }

  function TimeOf(c: Option<Change>): Option<Time>
    requires c.Some? ==> c.value.Record?
  {
    if c.Some? then Some(c.value.now) else None
  }

  function Of(key: Key): Change -> bool
  {
    (c: Change) => About(c, key)
  }

  function OfWith(key: Key, status: Status): Change -> bool
  {
    (c: Change) => About(c, key) && c.outcome.status == status
  }

  function InPhase(phase: Phase): Change -> bool
  {
    (c: Change) => c.Record? && c.phase == phase
  }

  function InPhaseWith(phase: Phase, status: Status): Change -> bool
  {
    (c: Change) => c.Record? && c.phase == phase && c.outcome.status == status
  }

  function With(status: Status): Change -> bool
  {
    (c: Change) => c.Record? && c.outcome.status == status
  }

  function ByWith(n: Name, status: Status): Change -> bool
  {
    (c: Change) => c.Record? && c.outcome.connector == n && c.outcome.status == status
  }

  // --- one phase of a connector -------------------------------------------------------------

  /** The record of a connector's phase: its last outcome, its streak and its last success. */
  function RecordOf(changes: seq<Change>, key: Key): PhaseRecord
  {
    match LastOf(changes, Of(key))
    case None => NO_RECORD
    case Some(Record(_, o, attemptedAt, _)) =>
      PhaseRecord(
        Streak(changes, key), Some(o.status), Some(attemptedAt), Some(o.duration),
        TimeOf(LastOf(changes, OfWith(key, Success))),
        if o.status == Failed && o.errorType != "" then Some(o.errorType) else None,
        if o.status == Failed && o.reason != "" then Some(o.reason) else None,
        if o.status == Failed then o.diagnostic else None,
        if o.status == Skipped then Some(o.reason) else None)
    case _ => NO_RECORD
  }

  lemma LastOfSnoc(init: seq<Change>, last: Change, matters: Change -> bool)
    ensures LastOf(init + [last], matters) ==
            if last.Record? && matters(last) then Some(last) else LastOf(init, matters)
  {
    assert (init + [last])[..|init|] == init;
  }

  lemma {:induction false} NoneBefore(changes: seq<Change>, key: Key)
    requires LastOf(changes, Of(key)).None?
    ensures LastOf(changes, OfWith(key, Success)).None? && Streak(changes, key) == 0
  {
    if changes != [] {
      NoneBefore(changes[..|changes| - 1], key);
    }
  }

  lemma NotedRecord(init: seq<Change>, last: Change, key: Key)
    requires last.Record?
    ensures RecordOf(init + [last], key) ==
            if About(last, key) then Noted(RecordOf(init, key), last.outcome, last.attemptedAt, last.now)
            else RecordOf(init, key)
  {
    assert (init + [last])[..|init|] == init;
    LastOfSnoc(init, last, Of(key));
    LastOfSnoc(init, last, OfWith(key, Success));
    if LastOf(init, Of(key)).None? {
      NoneBefore(init, key);
    }
  }

  lemma MovedRecord(init: seq<Change>, last: Change, key: Key)
    requires last.Move?
    ensures RecordOf(init + [last], key) == RecordOf(init, key)
  {
    assert (init + [last])[..|init|] == init;
    LastOfSnoc(init, last, Of(key));
    LastOfSnoc(init, last, OfWith(key, Success));
  }

  /** In every state each phase of each connector is recorded as its outcomes so far say. */
  lemma {:induction false} RecordsTell(changes: seq<Change>, key: Key)
    ensures At(ApplyAll(changes).connectors, key) == RecordOf(changes, key)
  {
    hide Recorded, Noted, RecordOf;
    if changes == [] {
      NothingTold(key);
    } else {
      var init, last := changes[..|changes| - 1], changes[|changes| - 1];
      assert changes == init + [last];
      RecordsTell(init, key);
      match last
      case Record(phase, o, attemptedAt, now) =>
        RecordedAt(ApplyAll(init), phase, o, attemptedAt, now, key);
        NotedRecord(init, last, key);
      case Move(_, _, _) =>
        MovedRecord(init, last, key);
    }
  }

  lemma NothingTold(key: Key)
    ensures At(ApplyAll([]).connectors, key) == RecordOf([], key)
  {
  }

  // --- a connector --------------------------------------------------------------------------

  /** A connector's error is that of its failing discovery, or else of its failing collection. */
  ghost predicate ConnectorTells(c: Connector, changes: seq<Change>, n: Name)
  {
    && c.lastFailure == TimeOf(LastOf(changes, ByWith(n, Failed)))
    && c.error == (if c.discovery.outcome == Some(Failed) then c.discovery.error
                   else if c.collection.outcome == Some(Failed) then c.collection.error else None)
    && c.summary == (if c.discovery.outcome == Some(Failed) then c.discovery.summary
                     else if c.collection.outcome == Some(Failed) then c.collection.summary else None)
  }

  lemma {:induction false} ConnectorsTell(changes: seq<Change>, n: Name)
    ensures ConnectorTells(Known(ApplyAll(changes).connectors, n), changes, n)
  {
    hide Noted, SortedWith, Sum, Ascending, RootNoted, At;
    if changes != [] {
      var init, last := changes[..|changes| - 1], changes[|changes| - 1];
      assert changes == init + [last];
      ConnectorsTell(init, n);
      LastOfSnoc(init, last, ByWith(n, Failed));
    }
  }

  // --- the root -----------------------------------------------------------------------------

  /** A phase of the root: the last outcome of any connector's, and the last success. */
  ghost predicate PhaseTells(p: RootPhase, changes: seq<Change>, phase: Phase)
  {
    && p.succeeded == TimeOf(LastOf(changes, InPhaseWith(phase, Success)))
    && match LastOf(changes, InPhase(phase))
       case None => p.attempt.None? && p.outcome.None? && p.duration.None?
       case Some(Record(_, o, attemptedAt, _)) =>
         p.attempt == Some(attemptedAt) && p.outcome == Some(o.status) && p.duration == Some(o.duration)
       case _ => true
  }

  /** In every state the root tells of each phase's last outcome and last success, and of the last failure and skip. */
  lemma {:induction false} RootTells(changes: seq<Change>)
    ensures var root := ApplyAll(changes);
      && PhaseTells(root.discovery, changes, Discovery) && PhaseTells(root.collection, changes, Collection)
      && root.lastFailure == TimeOf(LastOf(changes, With(Failed)))
      && root.skippedRun == TimeOf(LastOf(changes, With(Skipped)))
  {
    hide ConnectorNoted, SortedWith, Sum, Ascending, At;
    if changes != [] {
      var init, last := changes[..|changes| - 1], changes[|changes| - 1];
      assert changes == init + [last];
      RootTells(init);
      LastOfSnoc(init, last, InPhaseWith(Discovery, Success));
      LastOfSnoc(init, last, InPhaseWith(Collection, Success));
      LastOfSnoc(init, last, InPhase(Discovery));
      LastOfSnoc(init, last, InPhase(Collection));
      LastOfSnoc(init, last, With(Failed));
      LastOfSnoc(init, last, With(Skipped));
    }
  }

  predicate SkippedLast(changes: seq<Change>, key: Key)
  {
    var last := LastOf(changes, Of(key));
    last.Some? && last.value.outcome.status == Skipped
  }

  function LastReason(changes: seq<Change>, key: Key): Option<string>
  {
    var last := LastOf(changes, Of(key));
    if last.Some? then Some(last.value.outcome.reason) else None
  }

  ghost predicate LeastSkipped(changes: seq<Change>, key: Key)
  {
    SkippedLast(changes, key)
    && forall n: Name, phase: Phase | SkippedLast(changes, (n, phase)) :: NoLater(key, (n, phase))
  }

  lemma SkipIsRecorded(changes: seq<Change>, n: Name, phase: Phase)
    ensures var r := At(ApplyAll(changes).connectors, (n, phase));
            && (r.outcome == Some(Skipped) <==> SkippedLast(changes, (n, phase)))
            && (SkippedLast(changes, (n, phase)) ==>
                  r.skipReason == LastReason(changes, (n, phase)))
    ensures SkippedLast(changes, (n, phase)) ==> n in ApplyAll(changes).connectors
  {
    hide ApplyAll, Streak, LastOf, At;
    RecordsTell(changes, (n, phase));
    LastIsLatest(changes, (n, phase));
    CountersAreStreaks(changes, (n, phase));
  }

  lemma {:induction false} LastIsLatest(changes: seq<Change>, key: Key)
    ensures LastOf(changes, Of(key)).None? <==> Latest(changes, key).None?
  {
    if changes != [] {
      LastIsLatest(changes[..|changes| - 1], key);
    }
  }

  /** After each outcome the root's skip reason is that of the least connector phase skipped last, if there is one. */
  lemma SkipReasonIsLeast(init: seq<Change>, phase: Phase, o: Outcome, attemptedAt: Time, now: Time, key: Key)
    ensures var changes := init + [Record(phase, o, attemptedAt, now)];
            var reason := ApplyAll(changes).skipReason;
      && ((forall n: Name, p: Phase :: !SkippedLast(changes, (n, p))) ==> reason.None?)
      && (LeastSkipped(changes, key) ==> reason == LastReason(changes, key))
  {
    hide ConnectorNoted, Sum, Ascending, At, SortedWith, RootNoted, LastOf, SkippedLast, KeyLe, NoLater;
    var changes := init + [Record(phase, o, attemptedAt, now)];
    assert changes[..|init|] == init;
    var root := ApplyAll(changes);
    var skips := SortedWith(root.connectors, Skipped);
    assert root.skipReason == if skips == [] then None else At(root.connectors, skips[0]).skipReason;
    hide ApplyAll, Recorded;
    SortedWithIs(root.connectors, Skipped);
    forall n: Name, p: Phase
      ensures At(root.connectors, (n, p)).outcome == Some(Skipped) <==> SkippedLast(changes, (n, p))
      ensures SkippedLast(changes, (n, p)) ==> n in root.connectors
      ensures SkippedLast(changes, (n, p)) ==>
                At(root.connectors, (n, p)).skipReason == LastReason(changes, (n, p))
    {
      SkipIsRecorded(changes, n, p);
    }
    if LeastSkipped(changes, key) {
      assert (key.0, key.1) == key && SkippedLast(changes, (key.0, key.1));
      var least := skips[0];
      assert (least.0, least.1) == least;
      NoLaterIs(key, least);
      KeysMeet(key, least);
    }
  }

  lemma KeysMeet(a: Key, b: Key)
    requires KeyLe(a, b) && KeyLe(b, a)
    ensures a == b
  {
  }

  /** An outcome leaves the time of readiness alone, unless it is what makes the scheduler ready again. */
  lemma ReadySince(init: seq<Change>, phase: Phase, o: Outcome, attemptedAt: Time, now: Time)
    ensures var before, after := ApplyAll(init), ApplyAll(init + [Record(phase, o, attemptedAt, now)]);
            after.readyAt == if after.lifecycle != before.lifecycle then Some(now) else before.readyAt
  {
    hide ConnectorNoted, Sum, Ascending, At, SortedWith, RootNoted;
    assert (init + [Record(phase, o, attemptedAt, now)])[..|init|] == init;
  }
}
