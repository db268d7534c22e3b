/** The scheduler's guarantees in every state any interleaving reaches. */
module SchedulerTheorems {
  import opened Options
  import opened SchedulerState
  import opened SchedulerProtocol
  import opened SchedulerSafety

  // --- the main coroutine's steps -----------------------------------------------------------

  /** While startup waits for its discoveries, the tasks it waits for are discoveries. */
  ghost predicate WaitsForDiscoveries(s: Scheduler)
  {
    s.run.Discovering? ==>
      s.run.high <= s.next && forall t | t in s.tasks && s.run.low <= t < s.run.high :: s.tasks[t].phase == Discovery
  }

  lemma {:induction false} SpawnAdds(s: Scheduler, names: seq<Name>, phase: Phase, recurring: bool)
    requires forall t | t in s.tasks :: t < s.next
    ensures var r := Spawn(s, names, phase, recurring);
            && s.next <= r.next && r == s.(tasks := r.tasks, next := r.next)
            && (forall t | t in r.tasks :: t < r.next)
            && (forall t | t in r.tasks :: if t < s.next then t in s.tasks && r.tasks[t] == s.tasks[t]
                                           else r.tasks[t].phase == phase)
    decreases |names|
  {
    if names != [] {
      SpawnAdds(SpawnOne(s, names[0], phase, recurring), names[1..], phase, recurring);
    }
  }

  /** Startup counts as discovered only collectors whose discovery succeeded. */
  lemma SuccessesFound(s: Scheduler, low: TaskId, high: TaskId)
    requires DiscoveriesBacked(s)
    requires forall t | t in s.tasks && low <= t < high :: s.tasks[t].phase == Discovery
    ensures forall n | n in Successes(s, low, high) :: Found(s.trace, n)
  {
    hide Found;
    forall n | n in Successes(s, low, high) ensures Found(s.trace, n) {
      var t: TaskId :| low <= t < high && Succeeded(s, t) && s.tasks[t].name == n;
      assert Backed(s.trace, s.tasks[t]);
    }
  }

  /** What startup and shutdown change besides tasks matters to no invariant. */
  lemma OtherFieldsSafe(s: Scheduler, shutdown: bool, stop: bool, run: Run, changes: seq<Change>)
    requires Safe(s)
    ensures Safe(s.(shutdown := shutdown, stop := stop, run := run, changes := changes))
  {
    hide Bracketed, Prepared, Found, Running;
    SameTrace(s, s.(shutdown := shutdown, stop := stop, run := run, changes := changes));
  }

  lemma DiscoveredSafe(s: Scheduler, discovered: set<Name>)
    requires Safe(s) && forall n | n in discovered :: Found(s.trace, n)
    ensures Safe(s.(discovered := discovered))
  {
    hide Bracketed, Prepared, Found, Running;
    SameTrace(s, s.(discovered := discovered));
  }

  lemma StartUpSafe(collectors: seq<Name>, s: Scheduler)
    requires Safe(s)
    ensures Safe(MainStep(collectors, s, StartUp)) && WaitsForDiscoveries(MainStep(collectors, s, StartUp))
  {
    hide Safe, ApplyAll;
    var reset := Note(s.(shutdown := false, stop := false), Move(Lifecycle.Starting, None, None));
    var begun := Lifecycled(reset, InitialDiscovery);
    OtherFieldsSafe(s, false, false, s.run, begun.changes);
    var spawned := Spawn(begun, collectors, Discovery, false);
    SpawnSafe(begun, collectors, Discovery, false);
    Numbered(s);
    SpawnAdds(begun, collectors, Discovery, false);
    OtherFieldsSafe(spawned, spawned.shutdown, spawned.stop, Discovering(s.next, spawned.next), spawned.changes);
  }

  lemma Numbered(s: Scheduler)
    requires Safe(s)
    ensures forall t | t in s.tasks :: t < s.next
  {
  }

  lemma DiscoveryCompleteSafe(collectors: seq<Name>, s: Scheduler)
    requires Safe(s) && WaitsForDiscoveries(s) && s.run.Discovering?
    ensures Safe(MainStep(collectors, s, DiscoveryComplete))
  {
    hide Safe, ApplyAll, Found, Successes;
    var discovered := Successes(s, s.run.low, s.run.high);
    var eligible := Eligible(collectors, discovered);
    assert DiscoveriesBacked(s) by {
      SafeBacked(s);
    }
    SuccessesFound(s, s.run.low, s.run.high);
    DiscoveredSafe(s, discovered);
    var noted := Lifecycled(s.(discovered := discovered), InitialCollection);
    OtherFieldsSafe(s.(discovered := discovered), s.shutdown, s.stop, s.run, noted.changes);
    SpawnSafe(noted, eligible, Collection, false);
    Numbered(s);
    SpawnAdds(noted, eligible, Collection, false);
    var spawned := Spawn(noted, eligible, Collection, false);
    OtherFieldsSafe(spawned, s.shutdown, s.stop,
                    Collecting(s.next, spawned.next, AllSucceeded(s, s.run.low, s.run.high)), spawned.changes);
  }

  lemma SafeBacked(s: Scheduler)
    requires Safe(s)
    ensures DiscoveriesBacked(s) && LocksHeld(s) && ActiveIsBody(s) && TraceFollows(s) && Prepared(s.trace)
  {
    hide DiscoveriesBacked, LocksHeld, ActiveIsBody, TraceFollows, Prepared;
  }

  lemma ContinueSafe(collectors: seq<Name>, s: Scheduler, withDiscovery: bool)
    requires Safe(s)
    ensures Safe(MainStep(collectors, s, Continue(withDiscovery)))
  {
    hide Safe;
    var ready := s.(stop := false);
    OtherFieldsSafe(s, s.shutdown, false, s.run, s.changes);
    SpawnSafe(ready, collectors, Collection, true);
    var collecting := Spawn(ready, collectors, Collection, true);
    SpawnSafe(collecting, collectors, Discovery, true);
    var both := if withDiscovery then Spawn(collecting, collectors, Discovery, true) else collecting;
    OtherFieldsSafe(both, both.shutdown, both.stop, Looping, both.changes);
  }

  lemma DiscoverSafe(collectors: seq<Name>, s: Scheduler, move: Move)
    requires Safe(s) && (move.DiscoverOnce? || move.DiscoverOn?)
    ensures Safe(MainStep(collectors, s, move)) && !MainStep(collectors, s, move).run.Discovering?
  {
    hide Safe;
    if move.DiscoverOnce? {
      OtherFieldsSafe(s, s.shutdown, false, s.run, s.changes);
      SpawnSafe(s.(stop := false), collectors, Discovery, false);
      var spawned := Spawn(s.(stop := false), collectors, Discovery, false);
      OtherFieldsSafe(spawned, spawned.shutdown, spawned.stop, DiscoveringOnly(s.next, spawned.next), spawned.changes);
    } else {
      SpawnSafe(s, collectors, Discovery, true);
      var spawned := Spawn(s, collectors, Discovery, true);
      OtherFieldsSafe(spawned, spawned.shutdown, spawned.stop, DiscoveringOn, spawned.changes);
    }
  }

  lemma MainStepSafe(collectors: seq<Name>, s: Scheduler, move: Move)
    requires Safe(s) && WaitsForDiscoveries(s) && Enabled(collectors, s, move)
    requires !(move.Wake? || move.Attempt? || move.Finish? || move.HealthWritten? || move.Reported? || move.Cancel?)
    ensures Safe(MainStep(collectors, s, move)) && WaitsForDiscoveries(MainStep(collectors, s, move))
  {
    hide Safe, Spawn, ApplyAll, StartupResult, Successes, AllReturned;
    match move
    case StartUp => StartUpSafe(collectors, s);
    case DiscoveryComplete => DiscoveryCompleteSafe(collectors, s);
    case CollectionComplete(now) =>
      OtherFieldsSafe(s, s.shutdown, s.stop, Launched, MainStep(collectors, s, move).changes);
    case Continue(withDiscovery) => ContinueSafe(collectors, s, withDiscovery);
    case DiscoverOnce => DiscoverSafe(collectors, s, move);
    case DiscoverOn => DiscoverSafe(collectors, s, move);
    case Stop => OtherFieldsSafe(s, s.shutdown, true, s.run, s.changes);
    case ShutDown(_) =>
      OtherFieldsSafe(s, true, true, MainStep(collectors, s, move).run, MainStep(collectors, s, move).changes);
    case Quit => OtherFieldsSafe(s, s.shutdown, s.stop, Idle, MainStep(collectors, s, move).changes);
  }

  lemma TaskStepWaits(collectors: seq<Name>, s: Scheduler, move: Move)
    requires WaitsForDiscoveries(s) && Enabled(collectors, s, move)
    requires move.Wake? || move.Attempt? || move.Finish? || move.HealthWritten? || move.Reported? || move.Cancel?
    ensures WaitsForDiscoveries(TaskStep(s, move.task, move))
  {
    hide Refusal, Skipping;
  }

  /** Every reachable state is safe. */
  lemma {:induction false} AlwaysSafe(collectors: seq<Name>, moves: seq<Move>)
    ensures Safe(RunAll(collectors, moves)) && WaitsForDiscoveries(RunAll(collectors, moves))
    decreases |moves|
  {
    hide Safe, MainStep, TaskStep, WaitsForDiscoveries;
    if moves == [] {
      InitiallySafe();
    } else {
      var s, move := RunAll(collectors, moves[..|moves| - 1]), moves[|moves| - 1];
      AlwaysSafe(collectors, moves[..|moves| - 1]);
      if Enabled(collectors, s, move) {
        if move.Wake? || move.Attempt? || move.Finish? || move.HealthWritten? || move.Reported? || move.Cancel? {
          TaskStepSafe(collectors, s, move);
          TaskStepWaits(collectors, s, move);
        } else {
          MainStepSafe(collectors, s, move);
        }
      }
    }
  }

  lemma InitiallySafe()
    ensures Safe(INITIAL) && WaitsForDiscoveries(INITIAL)
  {
  }

  /** A run that only discovers moves no lifecycle. */
  lemma DiscoveringMovesNothing(collectors: seq<Name>, s: Scheduler, move: Move)
    requires Enabled(collectors, s, move) && !move.Wake? && !move.Attempt? && !move.Finish?
    requires s.run.DiscoveringOnly? || s.run == DiscoveringOn || s.run == Closing(false)
    ensures var next := Step(collectors, s, move);
            next.changes == s.changes
            && (next.run == Idle || next.run.DiscoveringOnly? || next.run == DiscoveringOn
                || next.run == Closing(false))
  {
    hide ApplyAll, Successes, StartupResult, AllReturned;
    if move.DiscoverOn? {
      SpawnKeepsChanges(s, collectors, Discovery, true);
    }
  }

  lemma {:induction false} SpawnKeepsChanges(s: Scheduler, names: seq<Name>, phase: Phase, recurring: bool)
    ensures Spawn(s, names, phase, recurring).changes == s.changes
    decreases |names|
  {
    if names != [] {
      SpawnKeepsChanges(SpawnOne(s, names[0], phase, recurring), names[1..], phase, recurring);
    }
  }

  // --- mutual exclusion ---------------------------------------------------------------------

  ghost predicate EndsBetween(trace: seq<Event>, i: int, j: int)
    requires 0 <= i < j <= |trace| && trace[i].Started?
  {
    exists k | i < k < j :: trace[k].Ended? && trace[k].name == trace[i].name && trace[k].phase == trace[i].phase
                            && trace[k].task == trace[i].task
  }

  /** If nothing runs at `j`, what started at `i` has ended in between. */
  lemma {:induction false} StartedEnds(trace: seq<Event>, i: nat, j: nat)
    requires Bracketed(trace) && i < j <= |trace| && trace[i].Started?
    requires Running(trace[..j], trace[i].name) != Some((trace[i].phase, trace[i].task))
    ensures EndsBetween(trace, i, j)
    decreases j
  {
    hide Bracketed;
    var n, e := trace[i].name, trace[j - 1];
    assert trace[..j][..j - 1] == trace[..j - 1] && trace[..j][j - 1] == e;
    if j - 1 > i {
      if e.name != n || e.Refused? {
        StartedEnds(trace, i, j - 1);
      } else {
        FitsAt(trace, j - 1);
        if Running(trace[..j - 1], n) != Some((trace[i].phase, trace[i].task)) {
          StartedEnds(trace, i, j - 1);
        }
      }
    }
  }

  lemma FitsAt(trace: seq<Event>, i: nat)
    requires Bracketed(trace) && i < |trace|
    ensures Fits(trace[..i], trace[i])
  {
  }

  /** Two phases of one collector never overlap: before the second starts, the first has ended. */
  lemma NoOverlap(collectors: seq<Name>, moves: seq<Move>, i: nat, j: nat)
    requires i < j < |RunAll(collectors, moves).trace|
    requires var trace := RunAll(collectors, moves).trace;
             trace[i].Started? && trace[j].Started? && trace[i].name == trace[j].name
    ensures EndsBetween(RunAll(collectors, moves).trace, i, j)
  {
    hide RunAll, Safe;
    AlwaysSafe(collectors, moves);
    var s := RunAll(collectors, moves);
    SafeBacked(s);
    FitsAt(s.trace, j);
    StartedEnds(s.trace, i, j);
  }

  /** At any time at most one task is in the body of a collector's phase. */
  lemma OneBody(collectors: seq<Name>, moves: seq<Move>, t: TaskId, u: TaskId)
    requires var s := RunAll(collectors, moves);
             t in s.tasks && u in s.tasks && s.tasks[t].pc.Body? && s.tasks[u].pc.Body?
               && s.tasks[t].name == s.tasks[u].name
    ensures t == u
  {
    hide RunAll, Safe;
    AlwaysSafe(collectors, moves);
    SafeBacked(RunAll(collectors, moves));
  }

  /** No lock outlives the tasks. */
  lemma NothingLeaks(collectors: seq<Name>, moves: seq<Move>)
    requires forall t | t in RunAll(collectors, moves).tasks :: RunAll(collectors, moves).tasks[t].pc.Done?
    ensures RunAll(collectors, moves).locks == map[] && RunAll(collectors, moves).active == map[]
  {
    hide RunAll, Safe;
    AlwaysSafe(collectors, moves);
    var s := RunAll(collectors, moves);
    SafeBacked(s);
    assert forall n :: n !in s.locks;
    assert forall n :: n !in s.active;
  }

  // --- collections come after discoveries ---------------------------------------------------

  /** No collection of a collector starts before one of its discoveries has succeeded. */
  lemma CollectsAfterDiscovery(collectors: seq<Name>, moves: seq<Move>, i: nat)
    requires i < |RunAll(collectors, moves).trace|
    requires RunAll(collectors, moves).trace[i].Started? && RunAll(collectors, moves).trace[i].phase == Collection
    ensures exists j | 0 <= j < i ::
            IsDiscovery(RunAll(collectors, moves).trace[j], RunAll(collectors, moves).trace[i].name)
  {
    hide RunAll, Safe;
    AlwaysSafe(collectors, moves);
    var trace := RunAll(collectors, moves).trace;
    SafeBacked(RunAll(collectors, moves));
    assert Found(trace[..i], trace[i].name);
    var j :| 0 <= j < |trace[..i]| && IsDiscovery(trace[..i][j], trace[i].name);
    assert trace[j] == trace[..i][j];
  }

  // --- contention ---------------------------------------------------------------------------

  /** Some task is in the body, or writing the health, of a phase of the collector. */
  ghost predicate Busy(s: Scheduler, n: Name)
  {
    exists u | u in s.tasks :: s.tasks[u].name == n && Holding(s.tasks[u].pc)
  }

  /**
   An attempt starts the phase exactly when nothing refuses it, and contention is exactly some task
   holding the collector.  A refused attempt is skipped at once: it takes no lock, ends no wait, and
   leaves every failure counter as it was.
   */
  lemma ContendingIsSkipped(collectors: seq<Name>, moves: seq<Move>, t: TaskId, now: Time)
    requires Enabled(collectors, RunAll(collectors, moves), Attempt(t, now))
    ensures var s := RunAll(collectors, moves);
            var next, task := Step(collectors, s, Attempt(t, now)), s.tasks[t];
            && (next.tasks[t].pc.Body? <==>
                  !s.shutdown && !Busy(s, task.name)
                  && (task.recurring && task.phase == Collection ==> task.name in s.discovered))
            && (!next.tasks[t].pc.Body? ==>
                  && (next.tasks[t].pc.WritingSkip? || next.tasks[t].pc.Reporting?)
                  && next.tasks[t].pc.outcome.status == Skipped
                  && next.locks == s.locks && next.active == s.active && next.discovered == s.discovered)
            && (forall u | u in s.tasks && u != t :: next.tasks[u] == s.tasks[u])
            && (forall key :: Streak(next.changes, key) == Streak(s.changes, key))
  {
    hide RunAll, Safe, Streak;
    AlwaysSafe(collectors, moves);
    var s := RunAll(collectors, moves);
    SafeBacked(s);
    BusyIsLocked(s, s.tasks[t].name);
    var next := Step(collectors, s, Attempt(t, now));
    forall key ensures Streak(next.changes, key) == Streak(s.changes, key) {
      SkipKeepsStreak(s.changes, s.tasks[t].phase, Skipping(s.tasks[t], ShuttingDown), now, key);
      if Refusal(s, s.tasks[t]).Some? {
        SkipKeepsStreak(s.changes, s.tasks[t].phase, Skipping(s.tasks[t], Refusal(s, s.tasks[t]).value), now, key);
      }
    }
  }

  lemma BusyIsLocked(s: Scheduler, n: Name)
    requires LocksHeld(s)
    ensures Busy(s, n) <==> n in s.locks
  {
    if n in s.locks {
      assert s.tasks[s.locks[n]].name == n;
    }
  }

  lemma SkipKeepsStreak(changes: seq<Change>, phase: Phase, o: Outcome, now: Time, key: Key)
    requires o.status == Skipped
    ensures Streak(changes + [Record(phase, o, now, now)], key) == Streak(changes, key)
  {
    assert (changes + [Record(phase, o, now, now)])[..|changes|] == changes;
  }

  function NamedPhase(r: Reason): Option<Phase>
  {
    match r
    case ActiveDiscovery => Some(Discovery)
    case ActiveCollection => Some(Collection)
    case _ => None
  }

  /**
   The reason given for a contended attempt names the phase that holds the collector, unless that is a
   discovery whose body is over and whose health is still being written: that one is called a collection.
   */
  lemma ReasonNamesHolder(collectors: seq<Name>, moves: seq<Move>, t: TaskId, u: TaskId)
    requires var s := RunAll(collectors, moves);
             && t in s.tasks && u in s.tasks && s.tasks[u].name == s.tasks[t].name && Holding(s.tasks[u].pc)
             && !s.shutdown && (s.tasks[t].recurring && s.tasks[t].phase == Collection
                                ==> s.tasks[t].name in s.discovered)
    ensures var s := RunAll(collectors, moves);
            var reason := Refusal(s, s.tasks[t]);
            && reason.Some?
            && (NamedPhase(reason.value) == Some(s.tasks[u].phase)
                <==> s.tasks[u].pc.Body? || s.tasks[u].phase == Collection)
  {
    hide RunAll, Safe;
    AlwaysSafe(collectors, moves);
    SafeBacked(RunAll(collectors, moves));
  }

  lemma {:induction false} SpawnKeepsTrace(s: Scheduler, names: seq<Name>, phase: Phase, recurring: bool)
    ensures Spawn(s, names, phase, recurring).trace == s.trace
            && Spawn(s, names, phase, recurring).shutdown == s.shutdown
    decreases |names|
  {
    if names != [] {
      SpawnKeepsTrace(SpawnOne(s, names[0], phase, recurring), names[1..], phase, recurring);
    }
  }

  lemma MainKeepsTrace(collectors: seq<Name>, s: Scheduler, move: Move)
    ensures MainStep(collectors, s, move).trace == s.trace
    ensures s.shutdown && move != StartUp ==> MainStep(collectors, s, move).shutdown
  {
    hide Spawn, ApplyAll, StartupResult, Successes, AllSucceeded, Eligible;
    match move
    case StartUp =>
      SpawnKeepsTrace(Lifecycled(Note(s.(shutdown := false, stop := false), Move(Lifecycle.Starting, None, None)),
                                 InitialDiscovery), collectors, Discovery, false);
    case DiscoveryComplete =>
      if s.run.Discovering? {
        var discovered := Successes(s, s.run.low, s.run.high);
        SpawnKeepsTrace(Lifecycled(s.(discovered := discovered), InitialCollection), Eligible(collectors, discovered),
                        Collection, false);
      }
    case Continue(withDiscovery) =>
      SpawnKeepsTrace(s.(stop := false), collectors, Collection, true);
      SpawnKeepsTrace(Spawn(s.(stop := false), collectors, Collection, true), collectors, Discovery, true);
    case DiscoverOnce => SpawnKeepsTrace(s.(stop := false), collectors, Discovery, false);
    case DiscoverOn => SpawnKeepsTrace(s, collectors, Discovery, true);
    case _ =>
  }

  /** After a shutdown nothing starts until the next startup. */
  lemma NothingStartsAfterShutdown(collectors: seq<Name>, s: Scheduler, move: Move)
    requires s.shutdown && move != StartUp
    ensures var next := Step(collectors, s, move);
            && next.shutdown
            && forall i | |s.trace| <= i < |next.trace| :: !next.trace[i].Started?
  {
    hide MainStep;
    MainKeepsTrace(collectors, s, move);
  }
}
