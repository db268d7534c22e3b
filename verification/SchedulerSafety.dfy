/** Safety of the scheduler's protocol over every interleaving. */
module SchedulerSafety {
  import opened Options
  import opened SchedulerState
  import opened SchedulerProtocol

  // --- what a trace says --------------------------------------------------------------------

  /** Who runs a phase of the collector at the end of the trace. */
  function Running(trace: seq<Event>, n: Name): Option<(Phase, TaskId)>
  {
    if trace == [] then None
    else
      var e := trace[|trace| - 1];
      if e.name != n || e.Refused? then Running(trace[..|trace| - 1], n)
      else if e.Started? then Some((e.phase, e.task)) else None
  }

  /** Phases of one collector start only when none runs, and end where they started. */
  ghost predicate Bracketed(trace: seq<Event>)
  {
    forall i | 0 <= i < |trace| :: Fits(trace[..i], trace[i])
  }

  predicate Fits(before: seq<Event>, e: Event)
  {
    match e
    case Started(n, _, _) => Running(before, n) == None
    case Ended(n, phase, t, _) => Running(before, n) == Some((phase, t))
    case Refused(_, _, _, _) => true
  }

  ghost predicate IsDiscovery(e: Event, n: Name)
  {
    e.Ended? && e.name == n && e.phase == Discovery && e.status == Some(Success)
  }

  /** A discovery of the collector has succeeded. */
  ghost predicate Found(trace: seq<Event>, n: Name)
  {
    exists i | 0 <= i < |trace| :: IsDiscovery(trace[i], n)
  }

  // --- the invariant ------------------------------------------------------------------------

  /** A lock is held by exactly the task that is in the body or writing the health of its collector. */
  ghost predicate LocksHeld(s: Scheduler)
  {
    && (forall n | n in s.locks ::
          s.locks[n] in s.tasks && s.tasks[s.locks[n]].name == n && Holding(s.tasks[s.locks[n]].pc))
    && (forall t | t in s.tasks && Holding(s.tasks[t].pc) ::
          s.tasks[t].name in s.locks && s.locks[s.tasks[t].name] == t)
    && (forall t | t in s.tasks :: t < s.next)
  }

  /** A phase is noted as active exactly while its body runs. */
  ghost predicate ActiveIsBody(s: Scheduler)
  {
    && (forall n | n in s.active :: n in s.locks && s.locks[n] in s.tasks && s.tasks[s.locks[n]].pc.Body?
                                    && s.tasks[s.locks[n]].phase == s.active[n])
    && (forall n | n in s.locks && s.locks[n] in s.tasks && s.tasks[s.locks[n]].pc.Body? :: n in s.active)
  }

  ghost predicate TraceFollows(s: Scheduler)
  {
    && Bracketed(s.trace)
    && forall n: Name ::
         Running(s.trace, n) == if n in s.active && n in s.locks then Some((s.active[n], s.locks[n])) else None
  }

  function Result(pc: Pc): Option<Outcome>
  {
    match pc
    case WritingHealth(o) => Some(o)
    case WritingSkip(o) => Some(o)
    case Reporting(o) => Some(o)
    case Done(r) => r
    case _ => None
  }

  /** What a task claims or relies on about discoveries has happened. */
  ghost predicate Backed(trace: seq<Event>, task: Task)
  {
    && (task.phase == Discovery && Result(task.pc).Some? && Result(task.pc).value.status == Success ==>
          Found(trace, task.name))
    && (task.phase == Collection && !task.recurring ==> Found(trace, task.name))
  }

  ghost predicate DiscoveriesBacked(s: Scheduler)
  {
    && (forall n | n in s.discovered :: Found(s.trace, n))
    && (forall t | t in s.tasks :: Backed(s.trace, s.tasks[t]))
  }

  /** Every collection starts after a successful discovery of its collector. */
  ghost predicate Prepared(trace: seq<Event>)
  {
    forall i | 0 <= i < |trace| && trace[i].Started? && trace[i].phase == Collection :: Found(trace[..i], trace[i].name)
  }

  ghost predicate Safe(s: Scheduler)
  {
    LocksHeld(s) && ActiveIsBody(s) && TraceFollows(s) && DiscoveriesBacked(s) && Prepared(s.trace)
  }

  // --- traces grow --------------------------------------------------------------------------

  lemma FoundLater(trace: seq<Event>, e: Event, n: Name)
    ensures Found(trace, n) ==> Found(trace + [e], n)
    ensures IsDiscovery(e, n) ==> Found(trace + [e], n)
  {
    var all := trace + [e];
    if Found(trace, n) {
      var i :| 0 <= i < |trace| && IsDiscovery(trace[i], n);
      assert IsDiscovery(all[i], n);
    }
    if IsDiscovery(e, n) {
      assert IsDiscovery(all[|trace|], n);
    }
  }

  lemma RunningNext(trace: seq<Event>, e: Event, n: Name)
    ensures Running(trace + [e], n) ==
            if e.name != n || e.Refused? then Running(trace, n)
            else if e.Started? then Some((e.phase, e.task)) else None
  {
    assert (trace + [e])[..|trace|] == trace;
  }

  lemma BracketedNext(trace: seq<Event>, e: Event)
    requires Bracketed(trace) && Fits(trace, e)
    ensures Bracketed(trace + [e])
  {
    hide Fits;
    var all := trace + [e];
    forall i | 0 <= i < |all| ensures Fits(all[..i], all[i]) {
      if i < |trace| {
        assert all[..i] == trace[..i];
      } else {
        assert all[..i] == trace;
      }
    }
  }

  lemma PreparedNext(trace: seq<Event>, e: Event)
    requires Prepared(trace) && (e.Started? && e.phase == Collection ==> Found(trace, e.name))
    ensures Prepared(trace + [e])
  {
    hide Found;
    var all := trace + [e];
    forall i | 0 <= i < |all| && all[i].Started? && all[i].phase == Collection ensures Found(all[..i], all[i].name) {
      if i < |trace| {
        assert all[..i] == trace[..i];
      } else {
        assert all[..i] == trace;
      }
    }
  }

  lemma BackedNext(trace: seq<Event>, e: Event, task: Task)
    ensures Backed(trace, task) ==> Backed(trace + [e], task)
  {
    hide Found;
    FoundLater(trace, e, task.name);
  }

  /** Another event leaves what tasks rely on. */
  lemma AllBackedNext(s: Scheduler, e: Event)
    requires DiscoveriesBacked(s)
    ensures DiscoveriesBacked(s.(trace := s.trace + [e]))
  {
    hide Found, Backed;
    forall n | n in s.discovered ensures Found(s.trace + [e], n) {
      FoundLater(s.trace, e, n);
    }
    forall t | t in s.tasks ensures Backed(s.trace + [e], s.tasks[t]) {
      BackedNext(s.trace, e, s.tasks[t]);
    }
  }

  // --- spawning -----------------------------------------------------------------------------

  lemma {:induction false} SpawnSafe(s: Scheduler, names: seq<Name>, phase: Phase, recurring: bool)
    requires Safe(s) && (phase == Collection && !recurring ==> forall n | n in names :: Found(s.trace, n))
    ensures Safe(Spawn(s, names, phase, recurring))
    decreases |names|
  {
    hide Safe, Found;
    if names != [] {
      SpawnOneSafe(s, names[0], phase, recurring);
      SpawnSafe(SpawnOne(s, names[0], phase, recurring), names[1..], phase, recurring);
    }
  }

  lemma SpawnOneSafe(s: Scheduler, n: Name, phase: Phase, recurring: bool)
    requires Safe(s) && (phase == Collection && !recurring ==> Found(s.trace, n))
    ensures Safe(SpawnOne(s, n, phase, recurring))
  {
    hide TraceFollows, Prepared, Found;
    var next := SpawnOne(s, n, phase, recurring);
    assert forall t | t in s.tasks :: next.tasks[t] == s.tasks[t];
    assert TraceFollows(next) by {
      SameTrace(s, next);
    }
  }

  lemma SameTrace(s: Scheduler, next: Scheduler)
    requires TraceFollows(s) && next.trace == s.trace && next.locks == s.locks && next.active == s.active
    ensures TraceFollows(next)
  {
  }

  // --- the steps of a task ------------------------------------------------------------------

  /** A task that holds no lock, before and after, moves freely. */
  lemma GoesSafe(s: Scheduler, t: TaskId, pc: Pc)
    requires Safe(s) && t in s.tasks && !Holding(s.tasks[t].pc) && !Holding(pc)
    requires Result(pc).None? || Result(pc) == Result(s.tasks[t].pc) || Result(pc).value.status != Success
    ensures Safe(Goes(s, t, pc))
  {
    hide TraceFollows, Prepared, Found;
    SameTrace(s, Goes(s, t, pc));
  }

  /** One more event and one task moved: what tasks rely on still has happened. */
  lemma BackedStep(s: Scheduler, t: TaskId, e: Event, pc: Pc, next: Scheduler)
    requires DiscoveriesBacked(s) && t in s.tasks
    requires next.trace == s.trace + [e] && next.discovered == s.discovered
    requires next.tasks == s.tasks[t := s.tasks[t].(pc := pc)]
    requires Result(pc).Some? && s.tasks[t].phase == Discovery && Result(pc).value.status == Success ==>
               IsDiscovery(e, s.tasks[t].name)
    ensures DiscoveriesBacked(next)
  {
    hide Found;
    AllBackedNext(s, e);
    FoundLater(s.trace, e, s.tasks[t].name);
    assert Backed(s.trace, s.tasks[t]);
  }

  lemma TraceStep(s: Scheduler, e: Event, next: Scheduler)
    requires TraceFollows(s) && next.trace == s.trace + [e] && Fits(s.trace, e)
    requires forall n: Name | n != e.name || e.Refused? ::
               (n in next.active && n in next.locks <==> n in s.active && n in s.locks)
               && (n in s.active && n in s.locks ==> next.active[n] == s.active[n] && next.locks[n] == s.locks[n])
    requires e.Started? ==>
               e.name in next.active && e.name in next.locks
               && next.active[e.name] == e.phase && next.locks[e.name] == e.task
    requires e.Ended? ==> e.name !in next.active
    ensures TraceFollows(next)
  {
    hide Bracketed, Fits, Running;
    BracketedNext(s.trace, e);
    forall n: Name ensures Running(next.trace, n) ==
        if n in next.active && n in next.locks then Some((next.active[n], next.locks[n])) else None
    {
      RunningNext(s.trace, e, n);
    }
  }

  lemma StartsSafe(s: Scheduler, t: TaskId, now: Time)
    requires Safe(s) && t in s.tasks && s.tasks[t].pc.Due? && Refusal(s, s.tasks[t]).None?
    ensures Safe(Attempted(s, t, now))
  {
    hide Found, Bracketed, Prepared, Backed, DiscoveriesBacked, TraceFollows;
    var task := s.tasks[t];
    var e := Event.Started(task.name, task.phase, t);
    var next := Attempted(s, t, now);
    if task.phase == Collection {
      CollectionIsBacked(s, t);
    }
    PreparedNext(s.trace, e);
    NothingRuns(s, task.name);
    TraceStep(s, e, next);
    BackedStep(s, t, e, Body(now), next);
  }

  lemma NothingRuns(s: Scheduler, n: Name)
    requires TraceFollows(s) && n !in s.locks
    ensures Running(s.trace, n) == None
  {
  }

  lemma BodyRuns(s: Scheduler, t: TaskId)
    requires LocksHeld(s) && ActiveIsBody(s) && TraceFollows(s) && t in s.tasks && s.tasks[t].pc.Body?
    ensures var task := s.tasks[t];
            && task.name in s.locks && s.locks[task.name] == t && task.name in s.active
            && s.active[task.name] == task.phase
            && Running(s.trace, task.name) == Some((task.phase, t))
  {
    hide Bracketed;
  }

  /** A collection that is not refused has had its discovery. */
  lemma CollectionIsBacked(s: Scheduler, t: TaskId)
    requires DiscoveriesBacked(s) && t in s.tasks && Refusal(s, s.tasks[t]).None? && s.tasks[t].phase == Collection
    ensures Found(s.trace, s.tasks[t].name)
  {
    hide Found;
    assert Backed(s.trace, s.tasks[t]);
  }

  lemma RefusedSafe(s: Scheduler, t: TaskId, now: Time)
    requires Safe(s) && t in s.tasks && s.tasks[t].pc.Due? && Refusal(s, s.tasks[t]).Some?
    ensures Safe(Attempted(s, t, now))
  {
    hide Found, Bracketed, Prepared, Backed, DiscoveriesBacked, TraceFollows, Refusal;
    var task := s.tasks[t];
    var e := Refused(task.name, task.phase, t, Refusal(s, task).value);
    var next := Attempted(s, t, now);
    PreparedNext(s.trace, e);
    TraceStep(s, e, next);
    BackedStep(s, t, e, next.tasks[t].pc, next);
  }

  lemma FinishedSafe(s: Scheduler, t: TaskId, o: Outcome, now: Time)
    requires Safe(s) && t in s.tasks && s.tasks[t].pc.Body? && o.connector == s.tasks[t].name
    ensures Safe(Finished(s, t, o, now))
  {
    hide Found, Bracketed, Prepared, Backed, DiscoveriesBacked, TraceFollows, Running;
    var task := s.tasks[t];
    var e := Ended(task.name, task.phase, t, Some(o.status));
    var next := Finished(s, t, o, now);
    PreparedNext(s.trace, e);
    BodyRuns(s, t);
    TraceStep(s, e, next);
    BackedStep(s, t, e, WritingHealth(o), next);
  }

  lemma CancelledBodySafe(s: Scheduler, t: TaskId)
    requires Safe(s) && t in s.tasks && s.tasks[t].pc.Body?
    ensures Safe(Cancelled(s, t))
  {
    hide Found, Bracketed, Prepared, Backed, DiscoveriesBacked, TraceFollows, Running;
    var task := s.tasks[t];
    var e := Ended(task.name, task.phase, t, None);
    var next := Cancelled(s, t);
    PreparedNext(s.trace, e);
    BodyRuns(s, t);
    TraceStep(s, e, next);
    BackedStep(s, t, e, Done(None), next);
  }

  /** Giving up the lock after the health was written, or because of a cancellation. */
  lemma ReleasedSafe(s: Scheduler, t: TaskId, pc: Pc, discovered: set<Name>, next: Scheduler)
    requires Safe(s) && t in s.tasks && s.tasks[t].pc.WritingHealth? && !Holding(pc)
    requires Result(pc).None? || Result(pc) == Result(s.tasks[t].pc)
    requires discovered == s.discovered
             || (discovered == s.discovered + {s.tasks[t].name} && s.tasks[t].phase == Discovery
                 && s.tasks[t].pc.outcome.status == Success)
    requires next == Goes(s.(locks := s.locks - {s.tasks[t].name}, discovered := discovered), t, pc)
    ensures Safe(next)
  {
    hide Found, Bracketed, Prepared, Running;
    assert Backed(s.trace, s.tasks[t]);
    var n := s.tasks[t].name;
    assert n in s.locks && s.locks[n] == t && n !in s.active;
  }

  lemma TaskStepSafe(collectors: seq<Name>, s: Scheduler, move: Move)
    requires Safe(s) && Enabled(collectors, s, move)
    requires move.Wake? || move.Attempt? || move.Finish? || move.HealthWritten? || move.Reported? || move.Cancel?
    ensures Safe(TaskStep(s, move.task, move))
  {
    hide Safe, Refusal;
    var t := move.task;
    var task := s.tasks[t];
    match move
    case Wake(_) => GoesSafe(s, t, if s.shutdown || s.stop then Done(None) else Due);
    case Attempt(_, now) =>
      if Refusal(s, task).None? {
        StartsSafe(s, t, now);
      } else {
        RefusedSafe(s, t, now);
      }
    case Finish(_, o, now) => FinishedSafe(s, t, o, now);
    case HealthWritten(_) =>
      if task.pc.WritingHealth? {
        var o := task.pc.outcome;
        ReleasedSafe(s, t, Reporting(o), if task.phase == Discovery && o.status == Success
                     then s.discovered + {task.name}
                                         else s.discovered, TaskStep(s, t, move));
      } else {
        GoesSafe(s, t, Reporting(task.pc.outcome));
      }
    case Reported(_) =>
      GoesSafe(s, t, if task.recurring then Waiting else Done(Some(task.pc.outcome)));
    case Cancel(_) =>
      if task.pc.Body? {
        CancelledBodySafe(s, t);
      } else if task.pc.WritingHealth? {
        ReleasedSafe(s, t, Done(None), s.discovered, TaskStep(s, t, move));
      } else {
        GoesSafe(s, t, Done(None));
      }
  }
}
