/**
 Safety of the notification ledger over every run of evaluations, at strictly increasing times, and
 acknowledgements.
 */
module IncidentRuns {
  import opened Options
  import opened Ordering
  import opened SortedKeys
  import opened NotificationRules
  import opened Incidents
  import opened IncidentLedger

  // --- one evaluation -----------------------------------------------------------------------

  lemma FoundGood(cfg: Settings, status: Status, doctor: Option<seq<Check>>)
    ensures GoodStanding(ByFingerprint(Conditions(cfg.digest, status, doctor, StaleAfter(cfg))))
  {
    hide RuleOf, ByFingerprint, Conditions, IsCondition;
    var conditions := Conditions(cfg.digest, status, doctor, StaleAfter(cfg));
    ConditionsAreMade(cfg.digest, status, doctor, StaleAfter(cfg));
    var found := ByFingerprint(conditions);
    forall k | k in found
      ensures found[k].condition.fingerprint == k
      ensures found[k].condition.severity == RuleOf(found[k].condition.rule).severity
      ensures found[k].condition.source == RuleOf(found[k].condition.rule).source
    {
      ConditionMatchesRule(cfg.digest, found[k].condition);
    }
  }

  lemma DoctorGood(found: map<Fingerprint, Standing>, active: map<Fingerprint, Incident>, events: seq<Incident>)
    requires GoodStanding(found) && Open(active, events)
    ensures GoodStanding(WithDoctor(found, active))
  {
    hide RuleOf;
  }

  lemma StandingGood(cfg: Settings, active: map<Fingerprint, Incident>, events: seq<Incident>, status: Status,
                     doctor: Option<seq<Check>>)
    requires Open(active, events)
    ensures GoodStanding(StandingConditions(cfg, active, status, doctor))
  {
    hide RuleOf, ByFingerprint, Conditions, Open, WithDoctor;
    FoundGood(cfg, status, doctor);
    DoctorGood(ByFingerprint(Conditions(cfg.digest, status, doctor, StaleAfter(cfg))), active, events);
  }

  lemma AscendingFresh(s: set<Fingerprint>)
    ensures Fresh(Ascending(s), {}) && (set k | k in Ascending(s)) == s
  {
    hide Ascending;
  }

  lemma LaterBook(st: Ledger, last: Time, begun: set<Fingerprint>, ended: set<Fingerprint>, now: Time)
    requires Book(st, last, begun, ended) && last < now
    ensures Book(st, now, {}, {})
  {
    hide Open, NoOtherActive, UniqueEvents, Paired, Balanced;
  }

  /** An evaluation keeps the book, and afterwards exactly the standing conditions are open. */
  lemma EvaluateKeepsBook(cfg: Settings, world: World, st: Ledger, status: Status, doctor: Option<seq<Check>>)
    returns (begun: set<Fingerprint>, ended: set<Fingerprint>)
    requires Book(st, world.now, {}, {})
    ensures Book(Evaluated(cfg, world, st, status, doctor), world.now, begun, ended)
    ensures Evaluated(cfg, world, st, status, doctor).active.Keys
            == StandingConditions(cfg, st.active, status, doctor).Keys
  {
    hide Open, NoOtherActive, UniqueEvents, Dated, Paired, Balanced;
    hide StandingConditions, ActOnAll, CloseAll, Ascending, Sort, GoodStanding, Fresh;
    var standing := StandingConditions(cfg, st.active, status, doctor);
    StandingGood(cfg, st.active, st.events, status, doctor);
    var gone := st.active.Keys - standing.Keys;
    AscendingFresh(standing.Keys);
    AscendingFresh(gone);
    var acted := ActOnAll(cfg, world, st, standing, Ascending(standing.Keys));
    begun := ActOnAllKeeps(cfg, world, st, standing, Ascending(standing.Keys), {});
    forall i | 0 <= i < |Ascending(gone)| ensures Ascending(gone)[i] in acted.active {
      assert Ascending(gone)[i] in Ascending(gone);
    }
    ended := CloseAllKeeps(cfg, world, acted, Ascending(gone), begun, {});
    SortedBook(cfg, CloseAll(cfg, world, acted, Ascending(gone)), world.now, begun, ended);
  }

  // --- one acknowledgement ------------------------------------------------------------------

  lemma AckOpen(active: map<Fingerprint, Incident>, events: seq<Incident>, id: EventId, at: Time)
    requires Open(active, events) && NoOtherActive(active, events)
    ensures Open(AckActive(active, id, at), AckEvents(events, id, at))
    ensures NoOtherActive(AckActive(active, id, at), AckEvents(events, id, at))
  {
    hide RuleOf;
    var acked, active2 := AckEvents(events, id, at), AckActive(active, id, at);
    forall k | k in active2 ensures active2[k] in acked {
      var i :| 0 <= i < |events| && events[i] == active[k];
      assert acked[i] == active2[k];
    }
  }

  lemma AckEventsKept(events: seq<Incident>, id: EventId, at: Time, now: Time, begun: set<Fingerprint>,
                      ended: set<Fingerprint>)
    requires UniqueEvents(events) && Dated(events, now, begun, ended) && Paired(events)
    ensures UniqueEvents(AckEvents(events, id, at)) && Dated(AckEvents(events, id, at), now, begun, ended)
    ensures Paired(AckEvents(events, id, at))
  {
    hide Paired;
    SamePairs(events, AckEvents(events, id, at));
  }

  lemma AckKeepsBook(cfg: Settings, st: Ledger, id: EventId, at: Time, now: Time, begun: set<Fingerprint>,
                     ended: set<Fingerprint>)
    requires Book(st, now, begun, ended)
    ensures Book(Acknowledge(cfg, st, id, at), now, begun, ended)
    ensures Acknowledge(cfg, st, id, at).active.Keys == st.active.Keys
  {
    hide Open, NoOtherActive, UniqueEvents, Dated, Paired, Ids, Sort;
    if Knows(st.events, id) {
      var acked := AckEvents(st.events, id, at);
      var after := Ledger(AckActive(st.active, id, at), acked,
                          st.deliveries + [Delivery(id, Operator, Acknowledged, at, |st.deliveries|)]);
      AckOpen(st.active, st.events, id, at);
      AckEventsKept(st.events, id, at, now, begun, ended);
      forall k: Fingerprint, recovery ensures Ids(acked, k, recovery) == Ids(st.events, k, recovery) {
        SameIds(st.events, acked, k, recovery);
      }
      SortedBook(cfg, after, now, begun, ended);
    }
  }

  // --- runs ---------------------------------------------------------------------------------

  /** The latest evaluation's time; before the first one, any time earlier than all of them will do. */
  function LastTime(ops: seq<Op>, before: Time): Time
    decreases |ops|
  {
    if ops == [] then before
    else if ops[|ops| - 1].Evaluate? then ops[|ops| - 1].world.now
    else LastTime(ops[..|ops| - 1], before)
  }

  ghost predicate After(ops: seq<Op>, before: Time)
  {
    forall i | 0 <= i < |ops| && ops[i].Evaluate? :: before < ops[i].world.now
  }

  lemma {:induction false} LastTimeEarlier(ops: seq<Op>, before: Time, n: nat)
    requires StrictlyLater(ops) && After(ops, before) && n < |ops| && ops[n].Evaluate?
    ensures LastTime(ops[..n], before) < ops[n].world.now
    decreases n
  {
    LastTimeAmong(ops[..n], before);
    forall i | 0 <= i < |ops[..n]| && ops[..n][i].Evaluate? ensures ops[..n][i].world.now < ops[n].world.now {
      assert ops[..n][i] == ops[i];
    }
  }

  lemma {:induction false} LastTimeAmong(ops: seq<Op>, before: Time)
    ensures LastTime(ops, before) == before
            || exists i :: 0 <= i < |ops| && ops[i].Evaluate? && ops[i].world.now == LastTime(ops, before)
    decreases |ops|
  {
    if ops != [] && !ops[|ops| - 1].Evaluate? {
      var init := ops[..|ops| - 1];
      LastTimeAmong(init, before);
      if LastTime(init, before) != before {
        var i :| 0 <= i < |init| && init[i].Evaluate? && init[i].world.now == LastTime(init, before);
        assert ops[i] == init[i];
      }
    }
  }

  lemma EmptyBook(now: Time)
    ensures Book(EMPTY, now, {}, {})
  {
    forall k: Fingerprint, recovery ensures Ids([], k, recovery) == {} {
    }
  }

  lemma {:induction false} RunKeepsBook(cfg: Settings, ops: seq<Op>, before: Time)
    returns (begun: set<Fingerprint>, ended: set<Fingerprint>)
    requires StrictlyLater(ops) && After(ops, before)
    ensures Book(RunAll(cfg, ops), LastTime(ops, before), begun, ended)
    decreases |ops|
  {
    hide Book, Evaluated, Acknowledge;
    if ops == [] {
      EmptyBook(before);
      begun, ended := {}, {};
    } else {
      var n := |ops| - 1;
      var init := ops[..n];
      var st := RunAll(cfg, init);
      begun, ended := RunKeepsBook(cfg, init, before);
      match ops[n]
      case Evaluate(world, status, doctor) =>
        LastTimeEarlier(ops, before, n);
        LaterBook(st, LastTime(init, before), begun, ended, world.now);
        begun, ended := EvaluateKeepsBook(cfg, world, st, status, doctor);
      case Ack(id, at) =>
        AckKeepsBook(cfg, st, id, at, LastTime(init, before), begun, ended);
    }
  }

  lemma {:induction false} Earliest(ops: seq<Op>) returns (before: Time)
    ensures After(ops, before)
    decreases |ops|
  {
    if ops == [] {
      before := 0;
    } else {
      before := Earliest(ops[1..]);
      if ops[0].Evaluate? && ops[0].world.now <= before {
        before := ops[0].world.now - 1;
      }
      forall i | 0 <= i < |ops| && ops[i].Evaluate? ensures before < ops[i].world.now {
        assert i > 0 ==> ops[i] == ops[1..][i - 1];
      }
    }
  }

  ghost function ActiveAt(events: seq<Incident>, k: Fingerprint): set<int>
  {
    set i | 0 <= i < |events| && events[i].active && events[i].id.fingerprint == k
  }

  lemma MirroredOnce(st: Ledger, now: Time, begun: set<Fingerprint>, ended: set<Fingerprint>, k: Fingerprint)
    requires Book(st, now, begun, ended)
    ensures |ActiveAt(st.events, k)| == (if k in st.active then 1 else 0)
    ensures forall i | i in ActiveAt(st.events, k) :: k in st.active && st.events[i] == st.active[k]
  {
    hide Dated, Paired, Balanced, RuleOf;
    if k in st.active {
      assert st.active[k] in st.events;
      var at :| 0 <= at < |st.events| && st.events[at] == st.active[k];
      forall i | i in ActiveAt(st.events, k) ensures i == at {
        assert st.events[i] == st.active[k];
      }
      assert ActiveAt(st.events, k) == {at};
    } else {
      assert ActiveAt(st.events, k) == {};
    }
  }

  /**
   After any run: an open incident is mirrored by exactly one event, which equals it, and no other
   event is active; event ids are unique; openings exceed recoveries by one exactly while an
   incident is open; and recoveries are paired one to one with the closed openings.
   */
  lemma RunsBalance(cfg: Settings, ops: seq<Op>, k: Fingerprint)
    requires StrictlyLater(ops)
    ensures var st := RunAll(cfg, ops);
            && |ActiveAt(st.events, k)| == (if k in st.active then 1 else 0)
            && (forall i | i in ActiveAt(st.events, k) :: k in st.active && st.events[i] == st.active[k])
            && |Ids(st.events, k, false)| - |Ids(st.events, k, true)| == (if k in st.active then 1 else 0)
            && UniqueEvents(st.events) && Paired(st.events)
  {
    hide Open, NoOtherActive, UniqueEvents, Dated, Paired, Ids, ActiveAt, RunAll;
    var before := Earliest(ops);
    var begun, ended := RunKeepsBook(cfg, ops, before);
    MirroredOnce(RunAll(cfg, ops), LastTime(ops, before), begun, ended, k);
  }

  lemma StrictlyLaterPrefix(ops: seq<Op>, op: Op)
    requires StrictlyLater(ops + [op])
    ensures StrictlyLater(ops)
  {
    var all := ops + [op];
    forall i, j | 0 <= i < j < |ops| && ops[i].Evaluate? && ops[j].Evaluate?
      ensures ops[i].world.now < ops[j].world.now {
      assert all[i] == ops[i] && all[j] == ops[j];
    }
  }

  /** After a run that ends in an evaluation, exactly the standing conditions are open. */
  lemma RunsOpenStanding(cfg: Settings, ops: seq<Op>, world: World, status: Status, doctor: Option<seq<Check>>)
    requires StrictlyLater(ops + [Evaluate(world, status, doctor)])
    ensures RunAll(cfg, ops + [Evaluate(world, status, doctor)]).active.Keys
            == StandingConditions(cfg, RunAll(cfg, ops).active, status, doctor).Keys
  {
    hide Book, Evaluated, StandingConditions;
    var all := ops + [Evaluate(world, status, doctor)];
    assert all[..|ops|] == ops;
    var before := Earliest(all);
    forall i | 0 <= i < |ops| && ops[i].Evaluate? ensures before < ops[i].world.now {
      assert all[i] == ops[i];
    }
    StrictlyLaterPrefix(ops, Evaluate(world, status, doctor));
    var begun, ended := RunKeepsBook(cfg, ops, before);
    LastTimeEarlier(all, before, |ops|);
    LaterBook(RunAll(cfg, ops), LastTime(ops, before), begun, ended, world.now);
    begun, ended := EvaluateKeepsBook(cfg, world, RunAll(cfg, ops), status, doctor);
  }

  // --- doctor incidents ---------------------------------------------------------------------

  /** An open incident's fingerprint is the digest of its rule and subject. */
  ghost predicate Identified(cfg: Settings, active: map<Fingerprint, Incident>)
  {
    forall k | k in active :: k == cfg.digest(active[k].rule, active[k].subject)
  }

  ghost predicate StandingIdentified(cfg: Settings, standing: map<Fingerprint, Standing>)
  {
    forall k | k in standing :: k == cfg.digest(standing[k].condition.rule, standing[k].condition.subject)
  }

  lemma FoundIdentified(cfg: Settings, status: Status, doctor: Option<seq<Check>>)
    ensures StandingIdentified(cfg, ByFingerprint(Conditions(cfg.digest, status, doctor, StaleAfter(cfg))))
  {
    hide ByFingerprint, Conditions, IsCondition;
    ConditionsAreMade(cfg.digest, status, doctor, StaleAfter(cfg));
    var found := ByFingerprint(Conditions(cfg.digest, status, doctor, StaleAfter(cfg)));
    forall k | k in found ensures k == cfg.digest(found[k].condition.rule, found[k].condition.subject) {
      ConditionMatchesRule(cfg.digest, found[k].condition);
    }
  }

  lemma AllStandingIdentified(cfg: Settings, active: map<Fingerprint, Incident>, status: Status,
                              doctor: Option<seq<Check>>)
    requires Identified(cfg, active)
    ensures StandingIdentified(cfg, StandingConditions(cfg, active, status, doctor))
  {
    hide ByFingerprint, Conditions;
    FoundIdentified(cfg, status, doctor);
  }

  lemma {:induction false} ActOnAllIdentified(cfg: Settings, world: World, st: Ledger,
                                              standing: map<Fingerprint, Standing>,
                                              keys: seq<Fingerprint>)
    requires forall k | k in keys :: k in standing
    requires StandingIdentified(cfg, standing) && Identified(cfg, st.active)
    ensures Identified(cfg, ActOnAll(cfg, world, st, standing, keys).active)
    decreases |keys|
  {
    hide Deliver, ReplaceById;
    if keys != [] {
      ActOnAllIdentified(cfg, world, ActOn(cfg, world, st, keys[0], standing[keys[0]]), standing, keys[1..]);
    }
  }

  /** Closing other incidents leaves an incident as it is. */
  lemma {:induction false} CloseAllOthers(cfg: Settings, world: World, st: Ledger, keys: seq<Fingerprint>)
    ensures forall k | k in CloseAll(cfg, world, st, keys).active ::
              k in st.active && CloseAll(cfg, world, st, keys).active[k] == st.active[k]
    ensures forall k | k in st.active && k !in keys :: k in CloseAll(cfg, world, st, keys).active
    decreases |keys|
  {
    hide Deliver, ReplaceById;
    if keys != [] {
      CloseAllOthers(cfg, world, Close(cfg, world, st, keys[0]), keys[1..]);
    }
  }

  lemma EvaluateIdentified(cfg: Settings, world: World, st: Ledger, status: Status, doctor: Option<seq<Check>>)
    requires Identified(cfg, st.active)
    ensures Identified(cfg, Evaluated(cfg, world, st, status, doctor).active)
  {
    hide StandingConditions, ActOnAll, CloseAll, Ascending, Sort, StandingIdentified;
    var standing := StandingConditions(cfg, st.active, status, doctor);
    AllStandingIdentified(cfg, st.active, status, doctor);
    ActOnAllIdentified(cfg, world, st, standing, Ascending(standing.Keys));
    CloseAllOthers(cfg, world, ActOnAll(cfg, world, st, standing, Ascending(standing.Keys)),
                   Ascending(st.active.Keys - standing.Keys));
  }

  lemma {:induction false} RunIdentified(cfg: Settings, ops: seq<Op>)
    ensures Identified(cfg, RunAll(cfg, ops).active)
    decreases |ops|
  {
    hide Evaluated, Sort;
    if ops != [] {
      var st := RunAll(cfg, ops[..|ops| - 1]);
      RunIdentified(cfg, ops[..|ops| - 1]);
      match ops[|ops| - 1]
      case Evaluate(world, status, doctor) => EvaluateIdentified(cfg, world, st, status, doctor);
      case Ack(id, at) =>
    }
  }

  lemma {:induction false} PreservedKept(cfg: Settings, world: World, st: Ledger, standing: map<Fingerprint, Standing>,
                                         keys: seq<Fingerprint>, k: Fingerprint)
    requires forall j | j in keys :: j in standing
    requires k in st.active && k in standing && standing[k].preserveOnly
    ensures k in ActOnAll(cfg, world, st, standing, keys).active
    ensures ActOnAll(cfg, world, st, standing, keys).active[k] == st.active[k]
    decreases |keys|
  {
    hide Deliver, ReplaceById;
    if keys != [] {
      PreservedKept(cfg, world, ActOn(cfg, world, st, keys[0], standing[keys[0]]), standing, keys[1..], k);
    }
  }

  lemma SilentDoctorFindsNothing(cfg: Settings, status: Status, subject: string)
    requires InjectiveDigest(cfg.digest)
    ensures cfg.digest(DoctorFailed, subject) !in ByFingerprint(Conditions(cfg.digest, status, None, StaleAfter(cfg)))
  {
    hide ByFingerprint, Conditions, IsCondition;
    var found := ByFingerprint(Conditions(cfg.digest, status, None, StaleAfter(cfg)));
    ConditionsAreMade(cfg.digest, status, None, StaleAfter(cfg));
    forall k | k in found ensures k != cfg.digest(DoctorFailed, subject) {
      ConditionMatchesRule(cfg.digest, found[k].condition);
    }
  }

  /** A doctor incident stands when the doctor says nothing: every minimum admits the severity of a doctor rule. */
  lemma DoctorStands(cfg: Settings, active: map<Fingerprint, Incident>, events: seq<Incident>, status: Status,
                     k: Fingerprint)
    requires InjectiveDigest(cfg.digest) && Open(active, events) && Identified(cfg, active)
    requires k in active && active[k].source == "doctor"
    ensures k in StandingConditions(cfg, active, status, None)
            && StandingConditions(cfg, active, status, None)[k].preserveOnly
  {
    hide ByFingerprint, Conditions, InjectiveDigest;
    assert active[k].rule == DoctorFailed;
    SilentDoctorFindsNothing(cfg, status, active[k].subject);
  }

  /** An evaluation without a doctor report leaves every open doctor incident open and as it was. */
  lemma RunsKeepDoctor(cfg: Settings, ops: seq<Op>, world: World, status: Status, k: Fingerprint)
    requires StrictlyLater(ops) && InjectiveDigest(cfg.digest)
    requires k in RunAll(cfg, ops).active && RunAll(cfg, ops).active[k].source == "doctor"
    ensures var next := Step(cfg, RunAll(cfg, ops), Evaluate(world, status, None));
            k in next.active && next.active[k] == RunAll(cfg, ops).active[k]
  {
    hide StandingConditions, ActOnAll, CloseAll, Ascending, Sort, InjectiveDigest, RunAll;
    hide Open, NoOtherActive, UniqueEvents, Dated, Paired, Balanced, Identified;
    var st := RunAll(cfg, ops);
    var before := Earliest(ops);
    var begun, ended := RunKeepsBook(cfg, ops, before);
    RunIdentified(cfg, ops);
    DoctorStands(cfg, st.active, st.events, status, k);
    var standing := StandingConditions(cfg, st.active, status, None);
    PreservedKept(cfg, world, st, standing, Ascending(standing.Keys), k);
    CloseAllOthers(cfg, world, ActOnAll(cfg, world, st, standing, Ascending(standing.Keys)),
                   Ascending(st.active.Keys - standing.Keys));
  }

  // --- which incidents are open -------------------------------------------------------------

  ghost predicate Reported(cfg: Settings, status: Status, doctor: Option<seq<Check>>, k: Fingerprint)
  {
    exists c | c in Conditions(cfg.digest, status, doctor, StaleAfter(cfg)) ::
      c.fingerprint == k && SeverityOrder(c.severity) >= SeverityOrder(cfg.minimum)
  }

  /** Conditions with one fingerprint are one rule's, so filtering the last of them filters them all. */
  lemma OneSeverity(cfg: Settings, status: Status, doctor: Option<seq<Check>>, a: Condition, b: Condition)
    requires InjectiveDigest(cfg.digest)
    requires a in Conditions(cfg.digest, status, doctor, StaleAfter(cfg))
    requires b in Conditions(cfg.digest, status, doctor, StaleAfter(cfg))
    requires a.fingerprint == b.fingerprint
    ensures a.severity == b.severity
  {
    hide Conditions, IsCondition;
    ConditionsAreMade(cfg.digest, status, doctor, StaleAfter(cfg));
    ConditionMatchesRule(cfg.digest, a);
    ConditionMatchesRule(cfg.digest, b);
  }

  /**
   With a doctor report, exactly what is reported at the minimum severity or above stands; without
   one, so do the open doctor incidents.
   */
  lemma StandsIfReported(cfg: Settings, active: map<Fingerprint, Incident>, events: seq<Incident>, status: Status,
                         doctor: Option<seq<Check>>, k: Fingerprint)
    requires InjectiveDigest(cfg.digest) && Open(active, events) && Identified(cfg, active)
    ensures k in StandingConditions(cfg, active, status, doctor)
            <==> Reported(cfg, status, doctor, k) || (doctor.None? && k in active && active[k].source == "doctor")
  {
    hide ByFingerprint, Conditions, InjectiveDigest, Open, Identified, SeverityOrder;
    var conditions := Conditions(cfg.digest, status, doctor, StaleAfter(cfg));
    var found := ByFingerprint(conditions);
    if doctor.None? && k in active && active[k].source == "doctor" {
      DoctorStands(cfg, active, events, status, k);
    } else if Reported(cfg, status, doctor, k) {
      var c :| c in conditions && c.fingerprint == k && SeverityOrder(c.severity) >= SeverityOrder(cfg.minimum);
      OneSeverity(cfg, status, doctor, c, found[k].condition);
    }
  }

  /** After a run and an evaluation, an incident is open if and only if its condition is reported, or it was open
      already, is the doctor's, and the doctor was silent. */
  lemma RunsOpenReported(cfg: Settings, ops: seq<Op>, world: World, status: Status, doctor: Option<seq<Check>>,
                         k: Fingerprint)
    requires StrictlyLater(ops + [Evaluate(world, status, doctor)]) && InjectiveDigest(cfg.digest)
    ensures var st := RunAll(cfg, ops);
            k in RunAll(cfg, ops + [Evaluate(world, status, doctor)]).active
            <==> Reported(cfg, status, doctor, k) || (doctor.None? && k in st.active && st.active[k].source == "doctor")
  {
    hide StandingConditions, InjectiveDigest, RunAll, Identified, Reported;
    hide Open, NoOtherActive, UniqueEvents, Dated, Paired, Balanced;
    RunsOpenStanding(cfg, ops, world, status, doctor);
    StrictlyLaterPrefix(ops, Evaluate(world, status, doctor));
    var before := Earliest(ops);
    var begun, ended := RunKeepsBook(cfg, ops, before);
    RunIdentified(cfg, ops);
    var st := RunAll(cfg, ops);
    StandsIfReported(cfg, st.active, st.events, status, doctor, k);
    assert k in StandingConditions(cfg, st.active, status, doctor).Keys
           <==> k in StandingConditions(cfg, st.active, status, doctor);
  }
}
