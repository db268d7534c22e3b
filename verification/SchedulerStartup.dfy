/** What a startup does and how it ends, and which tasks each run of the scheduler gets. */
module SchedulerStartup {
  import opened Options
  import opened SchedulerState
  import opened SchedulerProtocol

  // --- spawning -----------------------------------------------------------------------------

  /** The tasks numbered from `low` run this phase of these collectors. */
  ghost predicate Roster(s: Scheduler, names: seq<Name>, low: TaskId, phase: Phase, recurring: bool)
  {
    forall t: TaskId | low <= t < low + |names| ::
      && t in s.tasks && s.tasks[t].name == names[t - low] && s.tasks[t].phase == phase
      && s.tasks[t].recurring == recurring
  }

  /** Tasks are numbered in the order of their creation. */
  ghost predicate Numbered(s: Scheduler)
  {
    forall t | t in s.tasks :: t < s.next
  }

  /** One task for each name, in order: one that loops waits, one that does not is due at once; nothing else changes. */
  lemma {:induction false} SpawnAdds(s: Scheduler, names: seq<Name>, phase: Phase, recurring: bool)
    requires Numbered(s)
    ensures var next := Spawn(s, names, phase, recurring);
      && next == s.(tasks := next.tasks, next := s.next + |names|) && Numbered(next)
      && (forall t: TaskId | s.next <= t < s.next + |names| ::
            && t in next.tasks
            && next.tasks[t] == Task(names[t - s.next], phase, recurring, if recurring then Waiting else Due))
      && (forall t | t in next.tasks :: t in s.tasks || s.next <= t)
      && (forall t | t in s.tasks :: t in next.tasks && next.tasks[t] == s.tasks[t])
    decreases |names|
  {
    if names != [] {
      var one := SpawnOne(s, names[0], phase, recurring);
      SpawnAdds(one, names[1..], phase, recurring);
      var next := Spawn(s, names, phase, recurring);
      forall t: TaskId | s.next <= t < s.next + |names|
        ensures t in next.tasks
        ensures next.tasks[t] == Task(names[t - s.next], phase, recurring, if recurring then Waiting else Due)
      {
        if t == s.next {
          assert t in one.tasks;
        } else {
          assert names[1..][t - one.next] == names[t - s.next];
        }
      }
    }
  }

  /** Every task is still there, with its collector and phase; what is done stays as it is. */
  ghost predicate TasksStay(s: Scheduler, next: Scheduler)
  {
    forall t | t in s.tasks ::
      && t in next.tasks && next.tasks[t].name == s.tasks[t].name && next.tasks[t].phase == s.tasks[t].phase
      && next.tasks[t].recurring == s.tasks[t].recurring
      && (s.tasks[t].pc.Done? ==> next.tasks[t] == s.tasks[t])
  }

  lemma RosterStays(s: Scheduler, next: Scheduler, names: seq<Name>, low: TaskId, phase: Phase, recurring: bool)
    requires Roster(s, names, low, phase, recurring) && TasksStay(s, next)
    ensures Roster(next, names, low, phase, recurring)
  {
  }

  /** A continuous run gives every collector a loop of collections and, if asked, one of discoveries. */
  lemma ContinueLoops(collectors: seq<Name>, s: Scheduler, withDiscovery: bool)
    requires Numbered(s) && Enabled(collectors, s, Continue(withDiscovery))
    ensures var next := Step(collectors, s, Continue(withDiscovery));
      && !next.stop && next.run == Looping
      && Roster(next, collectors, s.next, Collection, true)
      && (withDiscovery ==> Roster(next, collectors, s.next + |collectors|, Discovery, true))
      && next.next == s.next + |collectors| + (if withDiscovery then |collectors| else 0)
      && (forall t | t in next.tasks :: t in s.tasks || (next.tasks[t].recurring && next.tasks[t].pc == Waiting))
      && TasksStay(s, next) && next.changes == s.changes && next.discovered == s.discovered
  {
    hide Spawn, Roster;
    var ready := s.(stop := false);
    SpawnAdds(ready, collectors, Collection, true);
    var collecting := Spawn(ready, collectors, Collection, true);
    SpawnAdds(collecting, collectors, Discovery, true);
    var next := Step(collectors, s, Continue(withDiscovery));
    RosterStays(collecting, next, collectors, s.next, Collection, true);
    SpawnedLoops(ready, collecting, collectors, Collection);
    if withDiscovery {
      var both := Spawn(collecting, collectors, Discovery, true);
      RosterStays(both, next, collectors, s.next + |collectors|, Discovery, true);
      SpawnedLoops(collecting, both, collectors, Discovery);
    }
  }

  lemma SpawnedLoops(s: Scheduler, next: Scheduler, names: seq<Name>, phase: Phase)
    requires Numbered(s) && next == Spawn(s, names, phase, true)
    ensures forall t | t in next.tasks :: t in s.tasks || (next.tasks[t].recurring && next.tasks[t].pc == Waiting)
    ensures Roster(next, names, s.next, phase, true)
  {
    hide Spawn;
    SpawnAdds(s, names, phase, true);
  }

  /** A run that only discovers runs each discovery once, and then gives every collector a loop of discoveries. */
  lemma DiscoveringTasks(collectors: seq<Name>, s: Scheduler, move: Move)
    requires Numbered(s) && Enabled(collectors, s, move) && (move == DiscoverOnce || move == DiscoverOn)
    ensures var next := Step(collectors, s, move);
      && Roster(next, collectors, s.next, Discovery, move == DiscoverOn)
      && next.next == s.next + |collectors| && TasksStay(s, next) && next.changes == s.changes
      && (forall t: TaskId | s.next <= t < next.next ::
            t in next.tasks && next.tasks[t].pc == if move == DiscoverOn then Waiting else Due)
      && (move == DiscoverOnce ==> !next.stop && next.run == DiscoveringOnly(s.next, next.next))
  {
    hide Spawn;
    SpawnAdds(s.(stop := false), collectors, Discovery, false);
    SpawnAdds(s, collectors, Discovery, true);
  }

  // --- what a startup has done so far -------------------------------------------------------

  /** The task has ended, and its phase has succeeded. */
  predicate EndedWell(s: Scheduler, t: TaskId)
  {
    t in s.tasks &&
    match s.tasks[t].pc
    case Done(Some(o)) => o.status == Success
    case _ => false
  }

  /** The collectors whose discovery task, numbered from `low`, has ended well. */
  ghost predicate WasDiscovered(s: Scheduler, collectors: seq<Name>, low: TaskId, n: Name)
  {
    exists t: TaskId | low <= t < low + |collectors| :: t in s.tasks && s.tasks[t].name == n && EndedWell(s, t)
  }

  /** While a startup runs, `first` numbers the first of its tasks, and they are the last ones created. */
  ghost predicate StartingUp(collectors: seq<Name>, s: Scheduler, first: TaskId)
  {
    match s.run
    case Discovering(low, high) =>
      low == first && high == s.next == first + |collectors| && Roster(s, collectors, first, Discovery, false)
    case Collecting(low, high, allDiscovered) =>
      && low == first + |collectors| && high == s.next && low <= high
      && Roster(s, collectors, first, Discovery, false) && AllReturned(s, first, low)
      && (allDiscovered <==> forall t: TaskId | first <= t < low :: EndedWell(s, t))
      && (forall t: TaskId | low <= t < high ::
            && t in s.tasks && s.tasks[t].phase == Collection && !s.tasks[t].recurring
            && WasDiscovered(s, collectors, first, s.tasks[t].name))
      && (forall n | n in collectors && WasDiscovered(s, collectors, first, n) ::
            n in s.discovered && exists t: TaskId | low <= t < high :: t in s.tasks && s.tasks[t].name == n)
    case _ => true
  }

  /** The number of the first task of the last startup. */
  function FirstTask(collectors: seq<Name>, moves: seq<Move>): TaskId
    decreases |moves|
  {
    if moves == [] then 0
    else
      var init := moves[..|moves| - 1];
      var s := RunAll(collectors, init);
      if moves[|moves| - 1] == StartUp && s.run == Idle then s.next else FirstTask(collectors, init)
  }

  predicate OfTask(move: Move)
  {
    move.Wake? || move.Attempt? || move.Finish? || move.HealthWritten? || move.Reported? || move.Cancel?
  }

  /** Only the place of one task changes, and perhaps what is held, recorded and discovered. */
  ghost predicate OneMoved(s: Scheduler, next: Scheduler, t: TaskId)
    requires t in s.tasks
  {
    && t in next.tasks && next.tasks == s.tasks[t := s.tasks[t].(pc := next.tasks[t].pc)]
    && next.next == s.next && next.run == s.run && s.discovered <= next.discovered
  }

  lemma AttemptMoves(s: Scheduler, t: TaskId, now: Time)
    requires t in s.tasks
    ensures OneMoved(s, Attempted(s, t, now), t)
  {
    hide Refusal, Skipping;
  }

  lemma FinishMoves(s: Scheduler, t: TaskId, o: Outcome, now: Time)
    requires t in s.tasks && s.tasks[t].pc.Body?
    ensures OneMoved(s, Finished(s, t, o, now), t)
  {
  }

  lemma CancelMoves(s: Scheduler, t: TaskId)
    requires t in s.tasks
    ensures OneMoved(s, Cancelled(s, t), t)
  {
  }

  lemma TaskStepMoves(s: Scheduler, t: TaskId, move: Move)
    requires t in s.tasks && OfTask(move)
    ensures OneMoved(s, TaskStep(s, t, move), t)
  {
    hide Attempted, Finished, Cancelled, OneMoved;
    match move
    case Attempt(_, now) => AttemptMoves(s, t, now);
    case Finish(_, o, now) =>
      Unmoved(s, t);
      if s.tasks[t].pc.Body? {
        FinishMoves(s, t, o, now);
      }
    case Cancel(_) => CancelMoves(s, t);
    case Wake(_) => GoesMoves(s, s, t, if s.shutdown || s.stop then Done(None) else Due);
    case HealthWritten(_) =>
      Unmoved(s, t);
      if s.tasks[t].pc.WritingHealth? || s.tasks[t].pc.WritingSkip? {
        var next := TaskStep(s, t, move);
        GoesMoves(s, s.(locks := next.locks, discovered := next.discovered), t, Reporting(s.tasks[t].pc.outcome));
      }
    case Reported(_) =>
      Unmoved(s, t);
      if s.tasks[t].pc.Reporting? {
        GoesMoves(s, s, t, if s.tasks[t].recurring then Waiting else Done(Some(s.tasks[t].pc.outcome)));
      }
  }

  lemma Unmoved(s: Scheduler, t: TaskId)
    requires t in s.tasks
    ensures OneMoved(s, s, t)
  {
  }

  lemma GoesMoves(s: Scheduler, base: Scheduler, t: TaskId, pc: Pc)
    requires t in s.tasks && base.tasks == s.tasks && base.next == s.next && base.run == s.run
    requires s.discovered <= base.discovered
    ensures OneMoved(s, Goes(base, t, pc), t)
  {
  }

  /** A task's step concerns that task only, and forgets no discovery. */
  lemma TaskStepStays(collectors: seq<Name>, s: Scheduler, move: Move)
    requires Enabled(collectors, s, move) && OfTask(move) && Numbered(s)
    ensures var next := TaskStep(s, move.task, move);
      && TasksStay(s, next) && next.next == s.next && next.run == s.run
      && s.discovered <= next.discovered && Numbered(next)
  {
    hide TaskStep;
    TaskStepMoves(s, move.task, move);
  }

  lemma WellStays(s: Scheduler, next: Scheduler, collectors: seq<Name>, low: TaskId)
    requires TasksStay(s, next) && AllReturned(s, low, low + |collectors|)
    ensures AllReturned(next, low, low + |collectors|)
    ensures forall t: TaskId | low <= t < low + |collectors| :: EndedWell(next, t) <==> EndedWell(s, t)
    ensures forall n :: WasDiscovered(next, collectors, low, n) <==> WasDiscovered(s, collectors, low, n)
  {
    forall t: TaskId | low <= t < low + |collectors|
      ensures t in s.tasks && t in next.tasks && next.tasks[t] == s.tasks[t] {
      assert t in s.tasks && s.tasks[t].pc.Done?;
    }
  }

  lemma StartingStays(collectors: seq<Name>, s: Scheduler, next: Scheduler, first: TaskId)
    requires StartingUp(collectors, s, first) && TasksStay(s, next)
    requires next.run == s.run && next.next == s.next && s.discovered <= next.discovered
    ensures StartingUp(collectors, next, first)
  {
    hide Roster, WasDiscovered, EndedWell, AllReturned;
    if s.run.Discovering? {
      RosterStays(s, next, collectors, first, Discovery, false);
    }
    if s.run.Collecting? {
      RosterStays(s, next, collectors, first, Discovery, false);
      WellStays(s, next, collectors, first);
    }
  }

  lemma StartUpStarts(collectors: seq<Name>, s: Scheduler)
    requires Numbered(s)
    ensures var next := MainStep(collectors, s, StartUp); StartingUp(collectors, next, s.next) && Numbered(next)
  {
    hide Spawn, ApplyAll;
    var begun := Lifecycled(Note(s.(shutdown := false, stop := false), Move(Lifecycle.Starting, None, None)),
                            InitialDiscovery);
    SpawnAdds(begun, collectors, Discovery, false);
  }

  lemma SuccessesAre(s: Scheduler, collectors: seq<Name>, low: TaskId)
    ensures forall n :: n in Successes(s, low, low + |collectors|) <==> WasDiscovered(s, collectors, low, n)
  {
  }

  /** After the initial discoveries one collection task is created for each collector that was discovered. */
  lemma CollectsDiscovered(collectors: seq<Name>, s: Scheduler, first: TaskId)
    requires Numbered(s) && StartingUp(collectors, s, first) && Enabled(collectors, s, DiscoveryComplete)
    ensures var next := MainStep(collectors, s, DiscoveryComplete);
            && StartingUp(collectors, next, first) && Numbered(next) && TasksStay(s, next)
            && (forall n :: n in next.discovered <==> WasDiscovered(s, collectors, first, n))
  {
    hide Spawn, ApplyAll, Roster, WasDiscovered, EndedWell, AllReturned, AllSucceeded, Successes, Eligible;
    var discovered := Successes(s, s.run.low, s.run.high);
    var eligible := Eligible(collectors, discovered);
    var begun := Lifecycled(s.(discovered := discovered), InitialCollection);
    SpawnAdds(begun, eligible, Collection, false);
    var next := MainStep(collectors, s, DiscoveryComplete);
    RosterStays(s, next, collectors, first, Discovery, false);
    WellStays(s, next, collectors, first);
    SuccessesAre(s, collectors, first);
    WellIsSuccess(s, first, s.next);
    forall t: TaskId | s.next <= t < next.next
      ensures t in next.tasks && next.tasks[t].phase == Collection && !next.tasks[t].recurring
      ensures WasDiscovered(next, collectors, first, next.tasks[t].name)
    {
      assert next.tasks[t].name == eligible[t - s.next] && eligible[t - s.next] in eligible;
    }
    forall n | n in collectors && WasDiscovered(next, collectors, first, n)
      ensures n in next.discovered
      ensures exists t: TaskId | s.next <= t < next.next :: t in next.tasks && next.tasks[t].name == n
    {
      assert n in eligible;
      var i :| 0 <= i < |eligible| && eligible[i] == n;
      assert s.next + i in next.tasks && next.tasks[s.next + i].name == n;
    }
  }

  lemma WellIsSuccess(s: Scheduler, low: TaskId, high: TaskId)
    ensures AllSucceeded(s, low, high) <==> forall t: TaskId | low <= t < high :: EndedWell(s, t)
  {
    forall t: TaskId ensures Succeeded(s, t) <==> EndedWell(s, t) {
    }
  }

  lemma OtherMainSteps(collectors: seq<Name>, s: Scheduler, move: Move)
    requires Numbered(s) && Enabled(collectors, s, move) && !OfTask(move)
    requires move != StartUp && move != DiscoveryComplete
    ensures var next := MainStep(collectors, s, move);
            Numbered(next) && TasksStay(s, next) && next.discovered == s.discovered
            && (move == Stop ==> next.run == s.run && next.next == s.next)
            && (move != Stop ==> !next.run.Discovering? && !next.run.Collecting?)
  {
    hide Spawn, ApplyAll, StartupResult;
    match move
    case Continue(_) =>
      SpawnAdds(s.(stop := false), collectors, Collection, true);
      SpawnAdds(Spawn(s.(stop := false), collectors, Collection, true), collectors, Discovery, true);
    case DiscoverOnce => SpawnAdds(s.(stop := false), collectors, Discovery, false);
    case DiscoverOn => SpawnAdds(s, collectors, Discovery, true);
    case _ =>
  }

  lemma {:induction false} AlwaysStarting(collectors: seq<Name>, moves: seq<Move>)
    ensures var s := RunAll(collectors, moves);
            Numbered(s) && StartingUp(collectors, s, FirstTask(collectors, moves))
    decreases |moves|
  {
    hide StartingUp, MainStep, TaskStep, Enabled, Numbered, TasksStay;
    if moves == [] {
      InitiallyNumbered(collectors);
    } else {
      var s, move := RunAll(collectors, moves[..|moves| - 1]), moves[|moves| - 1];
      var first := FirstTask(collectors, moves[..|moves| - 1]);
      AlwaysStarting(collectors, moves[..|moves| - 1]);
      StartNeedsIdle(collectors, s);
      if Enabled(collectors, s, move) {
        StepStarting(collectors, s, move, first);
      }
    }
  }

  lemma StartNeedsIdle(collectors: seq<Name>, s: Scheduler)
    ensures Enabled(collectors, s, StartUp) <==> s.run == Idle
  {
  }

  lemma InitiallyNumbered(collectors: seq<Name>)
    ensures Numbered(INITIAL) && StartingUp(collectors, INITIAL, 0)
  {
  }

  lemma StepStarting(collectors: seq<Name>, s: Scheduler, move: Move, first: TaskId)
    requires Numbered(s) && StartingUp(collectors, s, first) && Enabled(collectors, s, move)
    ensures var next := Step(collectors, s, move);
            Numbered(next) && StartingUp(collectors, next, if move == StartUp then s.next else first)
  {
    hide StartingUp, MainStep, TaskStep, Numbered, TasksStay, AllReturned;
    if OfTask(move) {
      TaskStepStays(collectors, s, move);
      StartingStays(collectors, s, TaskStep(s, move.task, move), first);
    } else if move == StartUp {
      StartUpStarts(collectors, s);
    } else if move == DiscoveryComplete {
      CollectsDiscovered(collectors, s, first);
    } else {
      OtherMainSteps(collectors, s, move);
      if move == Stop {
        StartingStays(collectors, s, MainStep(collectors, s, move), first);
      } else {
        NotStarting(collectors, MainStep(collectors, s, move), first);
      }
    }
  }

  lemma NotStarting(collectors: seq<Name>, s: Scheduler, first: TaskId)
    requires !s.run.Discovering? && !s.run.Collecting?
    ensures StartingUp(collectors, s, first)
  {
  }

  // --- how a startup ends -------------------------------------------------------------------

  /** The last startup has run this phase of the collector, and every time it succeeded. */
  ghost predicate RanWell(s: Scheduler, first: TaskId, n: Name, phase: Phase)
  {
    && (exists t | t in s.tasks :: first <= t && s.tasks[t].name == n && s.tasks[t].phase == phase)
    && (forall t | t in s.tasks && first <= t && s.tasks[t].name == n && s.tasks[t].phase == phase :: EndedWell(s, t))
  }

  /** The startup is judged by its own tasks: the discovery and the collection of every collector. */
  lemma StartupJudged(collectors: seq<Name>, s: Scheduler, first: TaskId)
    requires Numbered(s) && StartingUp(collectors, s, first) && s.run.Collecting?
    requires AllReturned(s, s.run.low, s.run.high)
    ensures s.run.allDiscovered && (forall n | n in collectors :: n in s.discovered)
            && AllSucceeded(s, s.run.low, s.run.high)
            <==> forall n, phase: Phase | n in collectors :: RanWell(s, first, n, phase)
  {
    hide AllSucceeded, EndedWell, AllReturned;
    var low, high := s.run.low, s.run.high;
    WellIsSuccess(s, low, high);
    if forall n, phase: Phase | n in collectors :: RanWell(s, first, n, phase) {
      forall t: TaskId | first <= t < low ensures EndedWell(s, t) {
        assert t in s.tasks && s.tasks[t].name in collectors;
        assert RanWell(s, first, s.tasks[t].name, Discovery);
      }
      forall t: TaskId | low <= t < high ensures EndedWell(s, t) {
        assert t in s.tasks && WasDiscovered(s, collectors, first, s.tasks[t].name);
        assert s.tasks[t].name in collectors;
        assert RanWell(s, first, s.tasks[t].name, Collection);
      }
      forall n | n in collectors ensures n in s.discovered {
        AllDiscovered(collectors, s, first, n);
      }
    }
    if s.run.allDiscovered && AllSucceeded(s, low, high) {
      forall n, phase: Phase | n in collectors ensures RanWell(s, first, n, phase) {
        AllDiscovered(collectors, s, first, n);
        var i :| 0 <= i < |collectors| && collectors[i] == n;
        assert first + i in s.tasks && s.tasks[first + i].name == n;
        var t: TaskId :| low <= t < high && t in s.tasks && s.tasks[t].name == n;
      }
    }
  }

  lemma AllDiscovered(collectors: seq<Name>, s: Scheduler, first: TaskId, n: Name)
    requires StartingUp(collectors, s, first) && s.run.Collecting? && n in collectors
    requires forall t: TaskId | first <= t < s.run.low :: EndedWell(s, t)
    ensures WasDiscovered(s, collectors, first, n)
  {
    hide EndedWell;
    var i :| 0 <= i < |collectors| && collectors[i] == n;
    assert first + i in s.tasks && s.tasks[first + i].name == n;
  }

  /**
   A startup ends ready if and only if its own discovery and its own collection of every collector
   succeeded, and degraded otherwise; the skip reason says if a collector was not discovered.
   */
  lemma StartupEnds(collectors: seq<Name>, moves: seq<Move>, now: Time)
    requires Enabled(collectors, RunAll(collectors, moves), CollectionComplete(now))
    ensures var s := RunAll(collectors, moves);
            var root := ApplyAll(Step(collectors, s, CollectionComplete(now)).changes);
            var first := FirstTask(collectors, moves);
      && root.readyAt == Some(now)
      && (root.lifecycle == Ready <==> forall n, phase: Phase | n in collectors :: RanWell(s, first, n, phase))
      && (root.lifecycle == Degraded <==> !(forall n, phase: Phase | n in collectors :: RanWell(s, first, n, phase)))
      && (root.skipReason == if (exists n | n in collectors :: n !in s.discovered) then Some("prerequisite_unavailable")
                             else ApplyAll(s.changes).skipReason)
  {
    hide RunAll, ApplyAll, AllReturned, AllSucceeded, RanWell, StartingUp, FirstTask;
    var s := RunAll(collectors, moves);
    var first := FirstTask(collectors, moves);
    AlwaysStarting(collectors, moves);
    StartupJudged(collectors, s, first);
    LastMove(s.changes, StartupResult(s, collectors, s.run, now));
  }

  lemma LastMove(changes: seq<Change>, last: Change)
    ensures ApplyAll(changes + [last]) == Apply(ApplyAll(changes), last)
  {
    assert (changes + [last])[..|changes|] == changes;
  }
}
