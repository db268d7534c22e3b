/**
 How close together attempts can be logged: the spacing that every run keeps is reached by some run,
 whatever the repeat setting and the drift.
 */
module DriftRuns {
  import opened Options
  import opened Ordering
  import opened SortedKeys
  import opened NotificationRules
  import opened Incidents
  import opened Deliveries
  import opened DeliveryRuns

  /** A report in which only the daemon is at fault. */
  const STOPPED := Status([], [], Stopped, Fine)

  function StoppedCondition(cfg: Settings): Condition
  {
    MakeCondition(cfg.digest, DaemonStopped, "operator-daemon", "The ITP continuous collection daemon is stopped.")
  }

  /** Everything is stamped with one time and decided on at another; every send works. */
  function Moment(stamp: Time, decision: Time): World
  {
    World(stamp, (id: EventId) => stamp, (x: (EventId, Channel)) => decision, (x: (EventId, Channel)) => true,
          [Console])
  }

  /** The closest that two attempts can lie: the setting less the drift, but at least one tick. */
  function Closest(cfg: Settings, drift: nat): int
  {
    if Repeat(cfg) - drift > 1 then Repeat(cfg) - drift else 1
  }

  function TwoEvaluations(cfg: Settings, drift: nat): (ops: seq<Op>)
    ensures |ops| == 2 && ops[0].Evaluate? && ops[1].Evaluate?
  {
    var gap := Closest(cfg, drift);
    [Evaluate(Moment(0, 0), STOPPED, Some([])),
     Evaluate(Moment(gap, if Repeat(cfg) > gap then Repeat(cfg) else gap), STOPPED, Some([]))]
  }

  // --- the run ------------------------------------------------------------------------------

  lemma OneCondition(cfg: Settings)
    ensures Conditions(cfg.digest, STOPPED, Some([]), StaleAfter(cfg)) == [StoppedCondition(cfg)]
  {
    hide MakeCondition, Sort;
    var c := StoppedCondition(cfg);
    assert FailedResults(cfg.digest, []) == [] && StaleConnectors(cfg.digest, []) == []
           && FailedChecks(cfg.digest, []) == [];
    assert [] + [] + [c] + [] + [] == [c];
    SortKeepsSorted(ConditionLe, [c]);
  }

  lemma OneStands(cfg: Settings, active: map<Fingerprint, Incident>)
    ensures var c := StoppedCondition(cfg);
            StandingConditions(cfg, active, STOPPED, Some([])) == map[c.fingerprint := Standing(c, false)]
  {
    hide Conditions;
    var c := StoppedCondition(cfg);
    OneCondition(cfg);
    assert [c][..0] == [];
    assert ByFingerprint([]) == map[];
    assert ByFingerprint([c]) == map[c.fingerprint := Standing(c, false)];
  }

  lemma FewKeys(k: int)
    ensures Ascending({}) == [] && Ascending({k}) == [k]
  {
    hide Ascending;
    SomeElement(Ascending({}));
    assert Elements(Ascending({k})) == {k} == Elements([k]);
    RisingUnique(Ascending({k}), [k]);
  }

  lemma ActOnOne(cfg: Settings, world: World, st: Ledger, standing: map<Fingerprint, Standing>, k: Fingerprint)
    requires k in standing
    ensures ActOnAll(cfg, world, st, standing, [k]) == ActOn(cfg, world, st, k, standing[k])
    ensures CloseAll(cfg, world, st, []) == st
  {
    hide ActOn, Close;
    assert [k][0] == k && [k][1..] == [];
  }

  /** Evaluating this report acts on its one condition and closes nothing. */
  lemma OneActs(cfg: Settings, world: World, st: Ledger)
    requires st.active.Keys <= {StoppedCondition(cfg).fingerprint}
    ensures var c := StoppedCondition(cfg);
            Evaluated(cfg, world, st, STOPPED, Some([]))
            == Stored(cfg, ActOn(cfg, world, st, c.fingerprint, Standing(c, false)))
  {
    hide StandingConditions, ActOnAll, CloseAll, ActOn, Stored, Ascending, StoppedCondition;
    var c := StoppedCondition(cfg);
    var k, standing := c.fingerprint, StandingConditions(cfg, st.active, STOPPED, Some([]));
    OneStands(cfg, st.active);
    FewKeys(k);
    assert standing.Keys == {k} && st.active.Keys - standing.Keys == {};
    ActOnOne(cfg, world, st, standing, k);
    ActOnOne(cfg, world, ActOn(cfg, world, st, k, standing[k]), standing, k);
  }

  function FirstAttempt(cfg: Settings): Delivery
  {
    Delivery(EventId(StoppedCondition(cfg).fingerprint, 0, false), Console, Delivered, 0, 0)
  }

  function SecondAttempt(cfg: Settings, drift: nat): Delivery
  {
    Delivery(EventId(StoppedCondition(cfg).fingerprint, 0, false), Console, Delivered, Closest(cfg, drift), 1)
  }

  lemma FirstSent(cfg: Settings)
    ensures Deliver(cfg, Moment(0, 0), [], FirstAttempt(cfg).eventId, true) == [FirstAttempt(cfg)]
  {
    hide MakeCondition;
    var id := FirstAttempt(cfg).eventId;
    assert DeliverTo(cfg, Moment(0, 0), [], id, true, 0) == [];
    assert DeliverOne(cfg, Moment(0, 0), [], id, Console, true) == FirstAttempt(cfg);
    assert DeliverTo(cfg, Moment(0, 0), [], id, true, 1) == [] + [FirstAttempt(cfg)];
  }

  lemma FirstEvaluation(cfg: Settings)
    ensures var c := StoppedCondition(cfg);
            var x := Opened(c, 0);
            Evaluated(cfg, Moment(0, 0), EMPTY, STOPPED, Some([])) ==
              Ledger(map[c.fingerprint := x], [x], [FirstAttempt(cfg)])
  {
    hide Evaluated, Sort, MakeCondition, Deliver;
    var c := StoppedCondition(cfg);
    var x := Opened(c, 0);
    OneActs(cfg, Moment(0, 0), EMPTY);
    FirstSent(cfg);
    assert [] + [x] == [x];
    SortKeepsSorted(EventOrder(cfg), [x]);
    SortKeepsSorted(DeliveryOrder(cfg), [FirstAttempt(cfg)]);
  }

  lemma LastOfOne(d: Delivery, id: EventId, channel: Channel)
    requires Attempt(d, id, channel)
    ensures LastAttempt([d], id, channel) == Some(d)
  {
  }

  lemma SecondSent(cfg: Settings, drift: nat)
    ensures Deliver(cfg, TwoEvaluations(cfg, drift)[1].world, [FirstAttempt(cfg)], FirstAttempt(cfg).eventId, false)
         == [FirstAttempt(cfg), SecondAttempt(cfg, drift)]
  {
    hide MakeCondition, LastAttempt;
    var id, log, world := FirstAttempt(cfg).eventId, [FirstAttempt(cfg)], TwoEvaluations(cfg, drift)[1].world;
    LastOfOne(log[0], id, Console);
    assert DeliverTo(cfg, world, log, id, false, 0) == log;
    assert DeliverOne(cfg, world, log, id, Console, false) == SecondAttempt(cfg, drift);
    assert DeliverTo(cfg, world, log, id, false, 1) == log + [SecondAttempt(cfg, drift)];
  }

  lemma SecondEvaluation(cfg: Settings, drift: nat, st: Ledger)
    requires var c := StoppedCondition(cfg);
             st == Ledger(map[c.fingerprint := Opened(c, 0)], [Opened(c, 0)], [FirstAttempt(cfg)])
    ensures Evaluated(cfg, TwoEvaluations(cfg, drift)[1].world, st, STOPPED, Some([])).deliveries
         == [FirstAttempt(cfg), SecondAttempt(cfg, drift)]
  {
    hide Evaluated, Sort, MakeCondition, Deliver, TwoEvaluations, ReplaceById;
    OneActs(cfg, TwoEvaluations(cfg, drift)[1].world, st);
    SecondSent(cfg, drift);
    SortKeepsSorted(DeliveryOrder(cfg), [FirstAttempt(cfg), SecondAttempt(cfg, drift)]);
  }

  lemma RunTwice(cfg: Settings, drift: nat)
    ensures RunAll(cfg, TwoEvaluations(cfg, drift)).deliveries == [FirstAttempt(cfg), SecondAttempt(cfg, drift)]
  {
    hide Evaluated, Closest;
    var ops := TwoEvaluations(cfg, drift);
    assert ops[..1] == [ops[0]] && ops[..1][..0] == [];
    assert RunAll(cfg, ops[..1][..0]) == EMPTY;
    FirstEvaluation(cfg);
    SecondEvaluation(cfg, drift, RunAll(cfg, ops[..1]));
  }

  lemma TwiceInTime(cfg: Settings, drift: nat)
    ensures StrictlyLater(TwoEvaluations(cfg, drift)) && Timed(TwoEvaluations(cfg, drift), drift)
  {
  }

  /** For every repeat setting and drift, some run logs two attempts of one event and channel exactly this close. */
  lemma SpacingIsReached(cfg: Settings, drift: nat)
    ensures var ops := TwoEvaluations(cfg, drift);
            var log := RunAll(cfg, ops).deliveries;
            && StrictlyLater(ops) && Timed(ops, drift)
            && |log| == 2 && SameTarget(log[0], log[1]) && log[1].at - log[0].at == Closest(cfg, drift)
  {
    hide TwoEvaluations, RunAll, MakeCondition;
    TwiceInTime(cfg, drift);
    RunTwice(cfg, drift);
  }

  // --- the exact condition ------------------------------------------------------------------

  /** Any two attempts of one event and channel lie at least the repeat setting apart. */
  ghost predicate KeepsSetting(cfg: Settings, log: seq<Delivery>)
  {
    forall i, j | 0 <= i < j < |log| && SameTarget(log[i], log[j]) ::
      log[j].at - log[i].at >= cfg.repeatSeconds * cfg.ticks
  }

  ghost predicate AlwaysKeepsSetting(cfg: Settings, drift: nat)
  {
    forall ops | StrictlyLater(ops) && Timed(ops, drift) :: KeepsSetting(cfg, RunAll(cfg, ops).deliveries)
  }

  lemma SettingInTicks(cfg: Settings)
    ensures if cfg.repeatSeconds <= 0 then Repeat(cfg) == 0 >= cfg.repeatSeconds * cfg.ticks
            else Repeat(cfg) == cfg.repeatSeconds * cfg.ticks >= 2
  {
    if cfg.repeatSeconds > 0 {
      assert (cfg.repeatSeconds - 1) * cfg.ticks >= 0;
    }
  }

  /**
   Every run keeps the repeat setting exactly when sends are decided on at the time they are stamped
   with, or there is nothing to keep.
   */
  lemma SettingKeptIff(cfg: Settings, drift: nat)
    ensures AlwaysKeepsSetting(cfg, drift) <==> drift == 0 || cfg.repeatSeconds <= 0
  {
    hide RunAll, Timed, Repeat, SameTarget, StrictlyLater;
    SettingInTicks(cfg);
    if drift == 0 || cfg.repeatSeconds <= 0 {
      forall ops | StrictlyLater(ops) && Timed(ops, drift) ensures KeepsSetting(cfg, RunAll(cfg, ops).deliveries) {
        RunKeepsLog(cfg, drift, ops);
      }
    } else {
      SpacingIsReached(cfg, drift);
      var ops := TwoEvaluations(cfg, drift);
      assert !KeepsSetting(cfg, RunAll(cfg, ops).deliveries);
    }
  }
}
