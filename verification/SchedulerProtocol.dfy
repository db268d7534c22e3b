/**
 The scheduler as interleaved steps on one event loop: a step is what runs between two points where a
 coroutine yields.  Any task may take the next step; a step that is not enabled changes nothing.

 A collector is known by its name (names are distinct).  The changes to the stored state are kept as
 a list, so the stored state is SchedulerState.ApplyAll(changes).
 */
module SchedulerProtocol {
  import opened Options
  import opened SchedulerState

  type TaskId = nat

  /**
   Where a coroutine is suspended.  While in its body or writing the body's health it holds the
   collector's lock.  A task that was cancelled, or whose callback raised, is done without an outcome.
   */
  datatype Pc =
    | Waiting
    | Due
    | Body(attemptedAt: Time)
    | WritingHealth(outcome: Outcome)
    | WritingSkip(outcome: Outcome)
    | Reporting(outcome: Outcome)
    | Done(result: Option<Outcome>)

  /** A recurring task loops until stopped; any other runs its phase once. */
  datatype Task = Task(name: Name, phase: Phase, recurring: bool, pc: Pc)

  datatype Reason = ShuttingDown | ActiveDiscovery | ActiveCollection | PrerequisiteUnavailable

  datatype Event =
    | Started(name: Name, phase: Phase, task: TaskId)
    | Ended(name: Name, phase: Phase, task: TaskId, status: Option<Status>)
    | Refused(name: Name, phase: Phase, task: TaskId, reason: Reason)

  /**
   What the main coroutine is doing; it waits for the tasks numbered from `low` to `high`.  A run that
   only discovers writes no lifecycle, neither when it starts nor when it closes.
   */
  datatype Run =
    | Idle
    | Discovering(low: TaskId, high: TaskId)
    | Collecting(low: TaskId, high: TaskId, allDiscovered: bool)
    | Launched
    | DiscoveringOnly(low: TaskId, high: TaskId)
    | DiscoveringOn
    | Looping
    | Closing(writes: bool)

  datatype Scheduler = Scheduler(
    locks: map<Name, TaskId>,
    active: map<Name, Phase>,
    discovered: set<Name>,
    shutdown: bool,
    stop: bool,
    tasks: map<TaskId, Task>,
    next: TaskId,
    run: Run,
    trace: seq<Event>,
    changes: seq<Change>)

  const INITIAL := Scheduler(map[], map[], {}, false, false, map[], 0, Idle, [], [])

  datatype Move =
    | StartUp
    | DiscoveryComplete
    | CollectionComplete(now: Time)
    | Continue(withDiscovery: bool)
    | DiscoverOnce
    | DiscoverOn
    | Stop
    | ShutDown(announced: bool)
    | Quit
    | Wake(task: TaskId)
    | Attempt(task: TaskId, now: Time)
    | Finish(task: TaskId, outcome: Outcome, now: Time)
    | HealthWritten(task: TaskId)
    | Reported(task: TaskId)
    | Cancel(task: TaskId)

  // --- the main coroutine -------------------------------------------------------------------

  function SpawnOne(s: Scheduler, name: Name, phase: Phase, recurring: bool): Scheduler
  {
    s.(tasks := s.tasks[s.next := Task(name, phase, recurring, if recurring then Waiting else Due)], next := s.next + 1)
  }

  function Spawn(s: Scheduler, names: seq<Name>, phase: Phase, recurring: bool): Scheduler
    decreases |names|
  {
    if names == [] then s else Spawn(SpawnOne(s, names[0], phase, recurring), names[1..], phase, recurring)
  }

  predicate AllReturned(s: Scheduler, low: TaskId, high: TaskId)
  {
    forall t: TaskId | low <= t < high :: t in s.tasks && s.tasks[t].pc.Done? && s.tasks[t].pc.result.Some?
  }

  predicate Succeeded(s: Scheduler, t: TaskId)
  {
    t in s.tasks && s.tasks[t].pc.Done? && s.tasks[t].pc.result.Some? && s.tasks[t].pc.result.value.status == Success
  }

  function Successes(s: Scheduler, low: TaskId, high: TaskId): set<Name>
  {
    set t: TaskId | low <= t < high && Succeeded(s, t) :: s.tasks[t].name
  }

  function Eligible(collectors: seq<Name>, discovered: set<Name>): (r: seq<Name>)
    ensures forall n :: n in r <==> n in collectors && n in discovered
  {
    if collectors == [] then []
    else (if collectors[0] in discovered then [collectors[0]] else []) + Eligible(collectors[1..], discovered)
  }

  function Note(s: Scheduler, change: Change): Scheduler
  {
    s.(changes := s.changes + [change])
  }

  function Lifecycled(s: Scheduler, lifecycle: Lifecycle): Scheduler
  {
    Note(s, Move(lifecycle, ApplyAll(s.changes).readyAt, None))
  }

  predicate AllSucceeded(s: Scheduler, low: TaskId, high: TaskId)
  {
    forall t: TaskId | low <= t < high :: Succeeded(s, t)
  }

  /** Startup ends degraded unless every collector was discovered and then collected. */
  function StartupResult(s: Scheduler, collectors: seq<Name>, run: Run, now: Time): Change
    requires run.Collecting?
  {
    var unavailable := exists n | n in collectors :: n !in s.discovered;
    Move(if run.allDiscovered && !unavailable && AllSucceeded(s, run.low, run.high) then Ready else Degraded,
         Some(now), if unavailable then Some(ReasonText(PrerequisiteUnavailable)) else None)
  }

  // --- a task -------------------------------------------------------------------------------

  predicate Holding(pc: Pc)
  {
    pc.Body? || pc.WritingHealth?
  }

  function Goes(s: Scheduler, t: TaskId, pc: Pc): Scheduler
    requires t in s.tasks
  {
    s.(tasks := s.tasks[t := s.tasks[t].(pc := pc)])
  }

  /** Why an attempt does not start the phase, if so. */
  function Refusal(s: Scheduler, task: Task): Option<Reason>
  {
    if task.recurring && task.phase == Collection && task.name !in s.discovered then Some(PrerequisiteUnavailable)
    else if s.shutdown then Some(ShuttingDown)
    else if task.name in s.locks then
      Some(if task.name in s.active && s.active[task.name] == Discovery then ActiveDiscovery else ActiveCollection)
    else None
  }

  function ReasonText(r: Reason): string
  {
    match r
    case ShuttingDown => "shutdown_in_progress"
    case ActiveDiscovery => "active_discovery"
    case ActiveCollection => "active_collection"
    case PrerequisiteUnavailable => "prerequisite_unavailable"
  }

  function Skipping(task: Task, r: Reason): Outcome
  {
    Outcome(task.name, Skipped, 0, "", ReasonText(r), None)
  }

  /** An attempt either takes the collector's lock and starts the phase, or records a skip at once. */
  function Attempted(s: Scheduler, t: TaskId, now: Time): Scheduler
    requires t in s.tasks
  {
    var task := s.tasks[t];
    var refusal := Refusal(s, task);
    match refusal
    case Some(r) =>
      var o := Skipping(task, r);
      var noted := Note(s.(trace := s.trace + [Refused(task.name, task.phase, t, r)]), Record(task.phase, o, now, now));
      Goes(noted, t, if r == PrerequisiteUnavailable then Reporting(o) else WritingSkip(o))
    case None =>
      Goes(s.(locks := s.locks[task.name := t], active := s.active[task.name := task.phase],
              trace := s.trace + [Started(task.name, task.phase, t)]),
           t, Body(now))
  }

  function Finished(s: Scheduler, t: TaskId, o: Outcome, now: Time): Scheduler
    requires t in s.tasks && s.tasks[t].pc.Body?
  {
    var task := s.tasks[t];
    var ended := s.(active := s.active - {task.name},
                    trace := s.trace + [Ended(task.name, task.phase, t, Some(o.status))]);
    Goes(Note(ended, Record(task.phase, o, task.pc.attemptedAt, now)), t, WritingHealth(o))
  }

  /** A cancelled task gives up what it holds. */
  function Cancelled(s: Scheduler, t: TaskId): Scheduler
    requires t in s.tasks
  {
    var task := s.tasks[t];
    var released := if Holding(task.pc) then s.(locks := s.locks - {task.name}) else s;
    var ended := if task.pc.Body? then
                   released.(active := s.active - {task.name},
                             trace := s.trace + [Ended(task.name, task.phase, t, None)])
                 else released;
    Goes(ended, t, Done(None))
  }

  // --- the steps ----------------------------------------------------------------------------

  predicate Enabled(collectors: seq<Name>, s: Scheduler, move: Move)
  {
    match move
    case StartUp => s.run == Idle
    case DiscoveryComplete => s.run.Discovering? && AllReturned(s, s.run.low, s.run.high)
    case CollectionComplete(_) => s.run.Collecting? && AllReturned(s, s.run.low, s.run.high)
    case Continue(_) => s.run == Idle || s.run == Launched
    case DiscoverOnce => s.run == Idle
    case DiscoverOn => s.run.DiscoveringOnly? && AllReturned(s, s.run.low, s.run.high)
    case Stop => true
    case ShutDown(announced) =>
      s.run != Idle && !s.run.Closing? && (!announced ==> s.run.Discovering? || s.run.Collecting?)
    case Quit => s.run.Closing? && forall t | t in s.tasks && s.tasks[t].recurring :: s.tasks[t].pc.Done?
    case Wake(t) => t in s.tasks && s.tasks[t].pc.Waiting?
    case Attempt(t, _) => t in s.tasks && s.tasks[t].pc.Due?
    case Finish(t, o, _) => t in s.tasks && s.tasks[t].pc.Body? && o.connector == s.tasks[t].name
    case HealthWritten(t) => t in s.tasks && (s.tasks[t].pc.WritingHealth? || s.tasks[t].pc.WritingSkip?)
    case Reported(t) => t in s.tasks && s.tasks[t].pc.Reporting?
    case Cancel(t) => t in s.tasks && !s.tasks[t].pc.Done?
  }

  function MainStep(collectors: seq<Name>, s: Scheduler, move: Move): Scheduler
  {
    match move
    case StartUp =>
      var reset := Note(s.(shutdown := false, stop := false), Move(Lifecycle.Starting, None, None));
      var begun := Lifecycled(reset, InitialDiscovery);
      var spawned := Spawn(begun, collectors, Discovery, false);
      spawned.(run := Discovering(s.next, spawned.next))
    case DiscoveryComplete =>
      if s.run.Discovering? then
        var discovered := Successes(s, s.run.low, s.run.high);
        var eligible := Eligible(collectors, discovered);
        var spawned := Spawn(Lifecycled(s.(discovered := discovered), InitialCollection), eligible, Collection, false);
        spawned.(run := Collecting(s.next, spawned.next, AllSucceeded(s, s.run.low, s.run.high)))
      else s
    case CollectionComplete(now) =>
      if s.run.Collecting? then
        Note(s, StartupResult(s, collectors, s.run, now)).(run := Launched)
      else s
    case Continue(withDiscovery) =>
      var collecting := Spawn(s.(stop := false), collectors, Collection, true);
      (if withDiscovery then Spawn(collecting, collectors, Discovery, true) else collecting).(run := Looping)
    case DiscoverOnce =>
      var spawned := Spawn(s.(stop := false), collectors, Discovery, false);
      spawned.(run := DiscoveringOnly(s.next, spawned.next))
    case DiscoverOn => Spawn(s, collectors, Discovery, true).(run := DiscoveringOn)
    case Stop => s.(stop := true)
    case ShutDown(announced) =>
      var closed, silent := s.(shutdown := true, stop := true), s.run.DiscoveringOnly? || s.run == DiscoveringOn;
      (if announced && !silent then Lifecycled(closed, Stopping) else closed).(run := Closing(!silent))
    case _ => (if s.run.Closing? && s.run.writes then Lifecycled(s, Stopped) else s).(run := Idle)
  }

  function TaskStep(s: Scheduler, t: TaskId, move: Move): Scheduler
    requires t in s.tasks
  {
    var task := s.tasks[t];
    match move
    case Wake(_) => Goes(s, t, if s.shutdown || s.stop then Done(None) else Due)
    case Attempt(_, now) => Attempted(s, t, now)
    case Finish(_, o, now) => if task.pc.Body? then Finished(s, t, o, now) else s
    case HealthWritten(_) =>
      (match task.pc
       case WritingHealth(o) =>
         Goes(s.(locks := s.locks - {task.name},
                 discovered := if task.phase == Discovery && o.status == Success then s.discovered + {task.name}
                               else s.discovered), t, Reporting(o))
       case WritingSkip(o) => Goes(s, t, Reporting(o))
       case _ => s)
    case Reported(_) =>
      if task.pc.Reporting? then Goes(s, t, if task.recurring then Waiting else Done(Some(task.pc.outcome))) else s
    case _ => Cancelled(s, t)
  }

  function Step(collectors: seq<Name>, s: Scheduler, move: Move): Scheduler
  {
    if !Enabled(collectors, s, move) then s
    else if move.Wake? || move.Attempt? || move.Finish? || move.HealthWritten? || move.Reported? || move.Cancel? then
      TaskStep(s, move.task, move)
    else MainStep(collectors, s, move)
  }

  /** Any interleaving from a new scheduler. */
  function RunAll(collectors: seq<Name>, moves: seq<Move>): Scheduler
    decreases |moves|
  {
    if moves == [] then INITIAL else Step(collectors, RunAll(collectors, moves[..|moves| - 1]), moves[|moves| - 1])
  }
}
