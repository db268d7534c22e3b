/** The lifecycle that the scheduler's state shows, and how its loops go on and end. */
module SchedulerLifecycle {
  import opened Options
  import opened SchedulerState
  import opened SchedulerProtocol
  import opened SchedulerStartup

  /** What the stored state shows while the main coroutine is where it is. */
  ghost predicate Shows(run: Run, root: Root)
  {
    match run
    case Discovering(_, _) => root.lifecycle == InitialDiscovery && root.readyAt.None?
    case Collecting(_, _, _) => root.lifecycle == InitialCollection && root.readyAt.None?
    case Launched => (root.lifecycle == Ready || root.lifecycle == Degraded) && root.readyAt.Some?
    case Closing(writes) =>
      writes ==> root.lifecycle == Stopping || root.lifecycle == InitialDiscovery || root.lifecycle == InitialCollection
    case _ => true
  }

  /** Outcomes only ever make a degraded scheduler ready. */
  lemma OutcomeShows(run: Run, changes: seq<Change>, last: Change)
    requires last.Record? && Shows(run, ApplyAll(changes))
    ensures Shows(run, ApplyAll(changes + [last]))
  {
    hide ConnectorNoted, Sum, SortedWith, At, RootNoted;
    assert (changes + [last])[..|changes|] == changes;
  }

  /** A task's step adds one outcome to the record, or nothing. */
  lemma TaskRecords(s: Scheduler, t: TaskId, move: Move)
    requires t in s.tasks && OfTask(move)
    ensures var next := TaskStep(s, t, move);
            next.changes == s.changes
            || (|next.changes| == |s.changes| + 1 && next.changes[..|s.changes|] == s.changes
                && next.changes[|s.changes|].Record?)
  {
    hide Refusal, Skipping;
  }

  lemma MovedShows(changes: seq<Change>, lifecycle: Lifecycle, readyAt: Option<Time>, skipReason: Option<string>)
    ensures var root := ApplyAll(changes + [Change.Move(lifecycle, readyAt, skipReason)]);
            root.lifecycle == lifecycle && root.readyAt == readyAt
  {
    hide Recorded;
    LastMove(changes, Change.Move(lifecycle, readyAt, skipReason));
  }

  lemma MainShows(collectors: seq<Name>, s: Scheduler, move: Move)
    requires Shows(s.run, ApplyAll(s.changes)) && Numbered(s) && Enabled(collectors, s, move) && !OfTask(move)
    ensures var next := MainStep(collectors, s, move); Shows(next.run, ApplyAll(next.changes))
  {
    hide ApplyAll, Spawn, AllSucceeded, Successes, Eligible, AllReturned;
    match move
    case StartUp =>
      var reset := s.changes + [Change.Move(Lifecycle.Starting, None, None)];
      MovedShows(s.changes, Lifecycle.Starting, None, None);
      MovedShows(reset, InitialDiscovery, None, None);
      var begun := Lifecycled(Note(s.(shutdown := false, stop := false), Change.Move(Lifecycle.Starting, None, None)),
                              InitialDiscovery);
      SpawnAdds(begun, collectors, Discovery, false);
    case DiscoveryComplete =>
      var discovered := Successes(s, s.run.low, s.run.high);
      MovedShows(s.changes, InitialCollection, None, None);
      SpawnAdds(Lifecycled(s.(discovered := discovered), InitialCollection), Eligible(collectors, discovered),
                Collection, false);
    case CollectionComplete(now) =>
      var ended := StartupResult(s, collectors, s.run, now);
      MovedShows(s.changes, ended.lifecycle, ended.readyAt, ended.skipReason);
    case ShutDown(_) => MovedShows(s.changes, Stopping, ApplyAll(s.changes).readyAt, None);
    case _ =>
  }

  /** In every state the stored lifecycle is that of the main coroutine. */
  lemma {:induction false} LifecycleFollows(collectors: seq<Name>, moves: seq<Move>)
    ensures var s := RunAll(collectors, moves); Shows(s.run, ApplyAll(s.changes))
    decreases |moves|
  {
    hide Shows, ApplyAll, MainStep, TaskStep, Enabled, Numbered;
    if moves == [] {
      InitiallyShows();
    } else {
      var init, move := moves[..|moves| - 1], moves[|moves| - 1];
      var s := RunAll(collectors, init);
      LifecycleFollows(collectors, init);
      AlwaysStarting(collectors, init);
      if Enabled(collectors, s, move) {
        if OfTask(move) {
          TaskShows(collectors, s, move);
        } else {
          MainShows(collectors, s, move);
        }
      }
    }
  }

  lemma InitiallyShows()
    ensures Shows(INITIAL.run, ApplyAll(INITIAL.changes))
  {
  }

  lemma TaskShows(collectors: seq<Name>, s: Scheduler, move: Move)
    requires Shows(s.run, ApplyAll(s.changes)) && Numbered(s) && Enabled(collectors, s, move) && OfTask(move)
    ensures var next := TaskStep(s, move.task, move); Shows(next.run, ApplyAll(next.changes))
  {
    hide Shows, ApplyAll, TaskStep;
    TaskStepStays(collectors, s, move);
    TaskRecords(s, move.task, move);
    var next := TaskStep(s, move.task, move);
    if next.changes != s.changes {
      assert next.changes == s.changes + [next.changes[|s.changes|]];
      OutcomeShows(s.run, s.changes, next.changes[|s.changes|]);
    }
  }

  /** A shutdown that is announced shows "stopping", and a run that writes leaves "stopped" behind when it ends. */
  lemma ShutDownShows(collectors: seq<Name>, s: Scheduler, move: Move)
    requires Enabled(collectors, s, move) && (move == ShutDown(true) || move == Quit)
    requires !s.run.DiscoveringOnly? && s.run != DiscoveringOn && s.run != Closing(false)
    ensures var root := ApplyAll(Step(collectors, s, move).changes);
            && root.lifecycle == (if move == Quit then Stopped else Stopping)
            && root.readyAt == ApplyAll(s.changes).readyAt
  {
    hide ApplyAll, AllReturned;
    MovedShows(s.changes, if move == Quit then Stopped else Stopping, ApplyAll(s.changes).readyAt, None);
  }

  // --- loops --------------------------------------------------------------------------------

  /** Nothing has asked a loop to end. */
  ghost predicate Undisturbed(moves: seq<Move>)
  {
    forall i | 0 <= i < |moves| :: !moves[i].Stop? && !moves[i].ShutDown? && !moves[i].Cancel?
  }

  ghost predicate Alive(s: Scheduler)
  {
    !s.stop && !s.shutdown && forall t | t in s.tasks && s.tasks[t].recurring :: !s.tasks[t].pc.Done?
  }

  lemma TaskStepAlive(collectors: seq<Name>, s: Scheduler, move: Move)
    requires Alive(s) && Enabled(collectors, s, move) && OfTask(move) && !move.Cancel?
    ensures Alive(TaskStep(s, move.task, move))
  {
    hide Refusal, Skipping;
  }

  lemma MainStepAlive(collectors: seq<Name>, s: Scheduler, move: Move)
    requires Alive(s) && Numbered(s) && Enabled(collectors, s, move) && !OfTask(move) && !move.Stop? && !move.ShutDown?
    ensures Alive(MainStep(collectors, s, move))
  {
    hide ApplyAll, Spawn, StartupResult, AllSucceeded, Successes, Eligible, AllReturned;
    match move
    case StartUp =>
      var begun := Lifecycled(Note(s.(shutdown := false, stop := false), Change.Move(Lifecycle.Starting, None, None)),
                              InitialDiscovery);
      SpawnAlive(begun, collectors, Discovery, false);
    case DiscoveryComplete =>
      var discovered := Successes(s, s.run.low, s.run.high);
      SpawnAlive(Lifecycled(s.(discovered := discovered), InitialCollection), Eligible(collectors, discovered),
                 Collection, false);
    case Continue(_) =>
      SpawnAlive(s.(stop := false), collectors, Collection, true);
      SpawnAlive(Spawn(s.(stop := false), collectors, Collection, true), collectors, Discovery, true);
    case DiscoverOnce => SpawnAlive(s.(stop := false), collectors, Discovery, false);
    case DiscoverOn => SpawnAlive(s, collectors, Discovery, true);
    case _ =>
  }

  lemma SpawnAlive(s: Scheduler, names: seq<Name>, phase: Phase, recurring: bool)
    requires Alive(s) && Numbered(s)
    ensures Alive(Spawn(s, names, phase, recurring)) && Numbered(Spawn(s, names, phase, recurring))
  {
    hide Spawn;
    SpawnAdds(s, names, phase, recurring);
  }

  /** As long as nothing stops, shuts down or cancels, no recurring task ever ends. */
  lemma {:induction false} LoopsGoOn(collectors: seq<Name>, moves: seq<Move>)
    requires Undisturbed(moves)
    ensures Alive(RunAll(collectors, moves))
    decreases |moves|
  {
    hide Alive, MainStep, TaskStep, Enabled, Numbered;
    if moves == [] {
      InitiallyAlive();
    } else {
      var init, move := moves[..|moves| - 1], moves[|moves| - 1];
      var s := RunAll(collectors, init);
      LoopsGoOn(collectors, init);
      AlwaysStarting(collectors, init);
      if Enabled(collectors, s, move) {
        if OfTask(move) {
          TaskStepAlive(collectors, s, move);
        } else {
          MainStepAlive(collectors, s, move);
        }
      }
    }
  }

  lemma InitiallyAlive()
    ensures Alive(INITIAL)
  {
  }

  /** Stopping and shutting down ask the loops to end, and that stands until something is started again. */
  lemma StopStands(collectors: seq<Name>, s: Scheduler, move: Move)
    requires Enabled(collectors, s, move) && Numbered(s)
    ensures var next := Step(collectors, s, move);
      && (move == Stop || move.ShutDown? ==> next.stop)
      && (move.ShutDown? ==> next.shutdown)
      && (s.stop && !move.StartUp? && !move.Continue? && !move.DiscoverOnce? ==> next.stop)
  {
    hide ApplyAll, StartupResult, AllSucceeded, Successes, Eligible, AllReturned, Spawn, Attempted, Refusal;
    match move
    case DiscoveryComplete =>
      var discovered := Successes(s, s.run.low, s.run.high);
      SpawnAdds(Lifecycled(s.(discovered := discovered), InitialCollection), Eligible(collectors, discovered),
                Collection, false);
    case DiscoverOn => SpawnAdds(s, collectors, Discovery, true);
    case Attempt(t, now) => AttemptKeepsStop(s, t, now);
    case _ =>
  }

  lemma AttemptKeepsStop(s: Scheduler, t: TaskId, now: Time)
    requires t in s.tasks
    ensures Attempted(s, t, now).stop == s.stop
  {
    hide Refusal;
  }

  /** A loop that wakes goes on to its phase, unless it was asked to end; after its phase it waits again. */
  lemma LoopsTurn(collectors: seq<Name>, s: Scheduler, t: TaskId, move: Move)
    requires Enabled(collectors, s, move) && (move == Wake(t) || move == Reported(t)) && s.tasks[t].recurring
    ensures var pc := Step(collectors, s, move).tasks[t].pc;
      && (pc == Due <==> move == Wake(t) && !s.shutdown && !s.stop)
      && (pc == Waiting <==> move == Reported(t))
      && (pc == Done(None) <==> move == Wake(t) && (s.shutdown || s.stop))
  {
  }

  /** A phase is recorded with the times at which it began and ended, and its success makes a discovery count. */
  lemma PhaseIsRecorded(collectors: seq<Name>, s: Scheduler, t: TaskId, o: Outcome, now: Time)
    requires Enabled(collectors, s, Finish(t, o, now))
    ensures var ended := Step(collectors, s, Finish(t, o, now));
            var next := Step(collectors, ended, HealthWritten(t));
            var n, phase := s.tasks[t].name, s.tasks[t].phase;
      && ended.changes == s.changes + [Record(phase, o, s.tasks[t].pc.attemptedAt, now)] == next.changes
      && ended.locks == s.locks && next.locks == s.locks - {n}
      && next.discovered == s.discovered + (if phase == Discovery && o.status == Success then {n} else {})
      && next.tasks[t].pc == Reporting(o)
  {
  }

  lemma PhaseBegins(collectors: seq<Name>, s: Scheduler, t: TaskId, now: Time)
    requires Enabled(collectors, s, Attempt(t, now)) && Refusal(s, s.tasks[t]).None?
    ensures Step(collectors, s, Attempt(t, now)).tasks[t].pc == Body(now)
  {
  }

  /** An attempt that does not begin its phase is recorded at once as skipped, and why. */
  lemma SkipIsRecorded(collectors: seq<Name>, s: Scheduler, t: TaskId, now: Time)
    requires Enabled(collectors, s, Attempt(t, now))
    ensures var next, task := Step(collectors, s, Attempt(t, now)), s.tasks[t];
            var unprepared := task.recurring && task.phase == Collection && task.name !in s.discovered;
            var reason := if unprepared then "prerequisite_unavailable"
                          else if s.shutdown then "shutdown_in_progress"
                          else if task.name in s.active && s.active[task.name] == Discovery then "active_discovery"
                          else "active_collection";
            var skip := Outcome(task.name, Skipped, 0, "", reason, None);
      && (next.tasks[t].pc.Body? || next.changes == s.changes + [Record(task.phase, skip, now, now)])
      && (next.tasks[t].pc == Body(now)
          || next.tasks[t].pc == if unprepared then Reporting(skip) else WritingSkip(skip))
      && (next.tasks[t].pc.Body? ==> next.changes == s.changes && next.active == s.active[task.name := task.phase])
  {
  }
}
