/**
 One incident at a time: what the reports and acknowledgements of a run make of it, and that the engine's
 dictionary of open incidents holds exactly that.
 */
module EpisodeRuns {
  import opened Options
  import opened Ordering
  import opened SortedKeys
  import opened NotificationRules
  import opened Incidents
  import opened IncidentLedger
  import opened IncidentRuns
  import opened ConditionMeaning

  /**
   An open incident by itself: what raised it, when it opened, when and how often it was reported since,
   and when it was acknowledged.
   */
  datatype Episode = Episode(
    raised: Condition, since: Time, reported: Time, times: nat, acknowledged: Option<Time>)

  /** The last of the conditions with this fingerprint. */
  function LastRaised(conditions: seq<Condition>, k: Fingerprint): Option<Condition>
  {
    if conditions == [] then None
    else
      var last := conditions[|conditions| - 1];
      if last.fingerprint == k then Some(last) else LastRaised(conditions[..|conditions| - 1], k)
  }

  function RaisedIn(cfg: Settings, status: Status, doctor: Option<seq<Check>>, k: Fingerprint): Option<Condition>
  {
    LastRaised(Conditions(cfg.digest, status, doctor, StaleAfter(cfg)), k)
  }

  /** One incident through one operation. */
  function EpisodeStep(cfg: Settings, before: Option<Episode>, k: Fingerprint, op: Op): Option<Episode>
  {
    match op
    case Evaluate(world, status, doctor) =>
      var c := RaisedIn(cfg, status, doctor, k);
      if c.Some? && Admits(cfg.minimum, c.value.rule) then
        Some(if before.None? then Episode(c.value, world.now, world.now, 1, None)
             else before.value.(reported := world.now, times := before.value.times + 1))
      else if doctor.None? && before.Some? && before.value.raised.source == "doctor" then before
      else None
    case Ack(id, at) =>
      if before.Some? && id == EventId(k, before.value.since, false) then
        Some(before.value.(acknowledged := Some(at)))
      else before
  }

  function EpisodeOf(cfg: Settings, ops: seq<Op>, k: Fingerprint): Option<Episode>
  {
    if ops == [] then None
    else EpisodeStep(cfg, EpisodeOf(cfg, ops[..|ops| - 1], k), k, ops[|ops| - 1])
  }

  /** The incident that an episode amounts to. */
  function IncidentOf(k: Fingerprint, e: Episode): Incident
  {
    Incident(EventId(k, e.since, false), e.raised.rule, e.raised.severity, e.raised.title, e.raised.summary,
             e.raised.source, e.raised.subject, e.since, e.reported, e.times, true, e.acknowledged, None)
  }

  ghost predicate Holds(active: map<Fingerprint, Incident>, k: Fingerprint, e: Option<Episode>)
  {
    if e.None? then k !in active else k in active && active[k] == IncidentOf(k, e.value)
  }

  // --- one evaluation -----------------------------------------------------------------------

  lemma {:induction false} LastOfFingerprint(conditions: seq<Condition>, k: Fingerprint)
    ensures var found := ByFingerprint(conditions);
            var c := LastRaised(conditions, k);
            (k in found <==> c.Some?) && (k in found ==> found[k] == Standing(c.value, false))
  {
    if conditions != [] {
      LastOfFingerprint(conditions[..|conditions| - 1], k);
    }
  }

  lemma {:induction false} LastRaisedIsIn(conditions: seq<Condition>, k: Fingerprint)
    ensures var c := LastRaised(conditions, k); c.Some? ==> c.value in conditions && c.value.fingerprint == k
  {
    if conditions != [] {
      LastRaisedIsIn(conditions[..|conditions| - 1], k);
      assert conditions == conditions[..|conditions| - 1] + [conditions[|conditions| - 1]];
    }
  }

  /** What is raised is known by its rule and subject, and is severe enough exactly if the rule is admitted. */
  lemma RaisedInMeans(cfg: Settings, status: Status, doctor: Option<seq<Check>>, k: Fingerprint)
    ensures var c := RaisedIn(cfg, status, doctor, k);
            c.Some? ==>
              && k == cfg.digest(c.value.rule, c.value.subject) == c.value.fingerprint
              && (SeverityOrder(c.value.severity) >= SeverityOrder(cfg.minimum) <==> Admits(cfg.minimum, c.value.rule))
              && (c.value.source == "doctor" <==> c.value.rule == DoctorFailed)
              && (doctor.None? ==> c.value.source != "doctor")
  {
    hide Conditions, SeverityOrder, Admits, Raised, IsCondition;
    var conditions := Conditions(cfg.digest, status, doctor, StaleAfter(cfg));
    LastRaisedIsIn(conditions, k);
    var c := LastRaised(conditions, k);
    if c.Some? {
      ConditionsMean(cfg.digest, status, doctor, StaleAfter(cfg), c.value);
      SeverityAdmits(cfg.minimum, cfg.digest, c.value.rule, c.value.subject, c.value.summary);
      ConditionsAreMade(cfg.digest, status, doctor, StaleAfter(cfg));
      ConditionMatchesRule(cfg.digest, c.value);
    }
  }

  /** What stands of one fingerprint. */
  lemma StandsOf(cfg: Settings, active: map<Fingerprint, Incident>, status: Status, doctor: Option<seq<Check>>,
                 k: Fingerprint)
    requires InjectiveDigest(cfg.digest) && Identified(cfg, active)
    requires k in active ==> active[k].severity == RuleOf(active[k].rule).severity
                             && active[k].source == RuleOf(active[k].rule).source
    ensures var standing, c := StandingConditions(cfg, active, status, doctor), RaisedIn(cfg, status, doctor, k);
            var reported := c.Some? && Admits(cfg.minimum, c.value.rule);
            var kept := doctor.None? && k in active && active[k].source == "doctor";
            && (k in standing <==> reported || kept)
            && (reported ==> standing[k].condition == c.value && c.value.fingerprint == k && !standing[k].preserveOnly)
            && (kept && !reported ==> standing[k].preserveOnly)
  {
    hide ByFingerprint, Conditions, InjectiveDigest, Identified, LastRaised, Admits;
    var conditions := Conditions(cfg.digest, status, doctor, StaleAfter(cfg));
    LastOfFingerprint(conditions, k);
    RaisedInMeans(cfg, status, doctor, k);
    if k in active && active[k].source == "doctor" {
      DoctorIsNotOther(cfg, active, status, doctor, k);
    }
  }

  lemma DoctorIsNotOther(cfg: Settings, active: map<Fingerprint, Incident>, status: Status, doctor: Option<seq<Check>>,
                         k: Fingerprint)
    requires InjectiveDigest(cfg.digest) && Identified(cfg, active) && k in active && active[k].source == "doctor"
    requires active[k].source == RuleOf(active[k].rule).source
    ensures var c := RaisedIn(cfg, status, doctor, k); c.Some? ==> c.value.rule == DoctorFailed && doctor.Some?
    ensures active[k].rule == DoctorFailed
  {
    hide RaisedIn;
    RaisedInMeans(cfg, status, doctor, k);
  }

  /** Acting on fingerprints touches the incident of each once, and no other. */
  lemma {:induction false} ActsOnce(cfg: Settings, world: World, st: Ledger, standing: map<Fingerprint, Standing>,
                                    keys: seq<Fingerprint>, k: Fingerprint)
    requires forall j | j in keys :: j in standing
    requires forall i, j | 0 <= i < j < |keys| :: keys[i] != keys[j]
    ensures var after := ActOnAll(cfg, world, st, standing, keys).active;
            if k in keys then k in after && after[k] == ActOn(cfg, world, st, k, standing[k]).active[k]
            else (k in after <==> k in st.active) && (k in after ==> after[k] == st.active[k])
    decreases |keys|
  {
    hide Deliver, ReplaceById;
    if keys != [] {
      assert k in keys <==> k == keys[0] || k in keys[1..];
      ActsOnce(cfg, world, ActOn(cfg, world, st, keys[0], standing[keys[0]]), standing, keys[1..], k);
    }
  }

  lemma {:induction false} ClosesOnly(cfg: Settings, world: World, st: Ledger, keys: seq<Fingerprint>, k: Fingerprint)
    ensures var after := CloseAll(cfg, world, st, keys).active;
            (k in after <==> k in st.active && k !in keys) && (k in after ==> after[k] == st.active[k])
    decreases |keys|
  {
    hide Deliver, ReplaceById;
    if keys != [] {
      assert k in keys <==> k == keys[0] || k in keys[1..];
      ClosesOnly(cfg, world, Close(cfg, world, st, keys[0]), keys[1..], k);
    }
  }

  lemma EvaluatedHolds(cfg: Settings, st: Ledger, world: World, status: Status, doctor: Option<seq<Check>>,
                       k: Fingerprint, e: Option<Episode>)
    requires InjectiveDigest(cfg.digest) && Identified(cfg, st.active) && Open(st.active, st.events)
    requires Holds(st.active, k, e)
    ensures Holds(Evaluated(cfg, world, st, status, doctor).active, k,
                  EpisodeStep(cfg, e, k, Evaluate(world, status, doctor)))
  {
    hide StandingConditions, ActOnAll, CloseAll, Ascending, Sort, InjectiveDigest, Identified, Admits, RaisedIn,
      Deliver, ReplaceById;
    var standing := StandingConditions(cfg, st.active, status, doctor);
    var keys, gone := Ascending(standing.Keys), Ascending(st.active.Keys - standing.Keys);
    assert k in st.active ==> st.active[k].severity == RuleOf(st.active[k].rule).severity;
    StandsOf(cfg, st.active, status, doctor, k);
    AscendingFresh(standing.Keys);
    ActsOnce(cfg, world, st, standing, keys, k);
    ClosesOnly(cfg, world, ActOnAll(cfg, world, st, standing, keys), gone, k);
    assert k in keys <==> k in standing;
    assert k in gone <==> k in st.active && k !in standing;
  }

  lemma AckHolds(cfg: Settings, st: Ledger, id: EventId, at: Time, k: Fingerprint, e: Option<Episode>)
    requires Open(st.active, st.events) && Holds(st.active, k, e)
    ensures Holds(Acknowledge(cfg, st, id, at).active, k, EpisodeStep(cfg, e, k, Ack(id, at)))
  {
    hide Sort;
    if e.Some? && id == st.active[k].id {
      assert st.active[k] in st.events;
      var i :| 0 <= i < |st.events| && st.events[i] == st.active[k];
      assert Knows(st.events, id);
    }
  }

  // --- runs ---------------------------------------------------------------------------------

  /**
   After every run at increasing times the open incident of a fingerprint is exactly its episode: it
   bears what first raised it, the times at which it opened and was last reported, the number of
   evaluations that reported it since, and its last acknowledgement.
   */
  lemma {:induction false} RunsHoldEpisodes(cfg: Settings, ops: seq<Op>, k: Fingerprint)
    requires StrictlyLater(ops) && InjectiveDigest(cfg.digest)
    ensures Holds(RunAll(cfg, ops).active, k, EpisodeOf(cfg, ops, k))
    decreases |ops|
  {
    hide Book, Evaluated, Acknowledge, InjectiveDigest, Holds, EpisodeStep, Identified;
    if ops == [] {
      NothingHeld(k);
    } else {
      var n := |ops| - 1;
      var init := ops[..n];
      assert ops == init + [ops[n]];
      var before := Earliest(init);
      StrictlyLaterPrefix(init, ops[n]);
      RunsHoldEpisodes(cfg, init, k);
      RunIdentified(cfg, init);
      var begun, ended := RunKeepsBook(cfg, init, before);
      BookOpens(RunAll(cfg, init), LastTime(init, before), begun, ended);
      match ops[n]
      case Evaluate(world, status, doctor) =>
        EvaluatedHolds(cfg, RunAll(cfg, init), world, status, doctor, k, EpisodeOf(cfg, init, k));
      case Ack(id, at) =>
        AckHolds(cfg, RunAll(cfg, init), id, at, k, EpisodeOf(cfg, init, k));
    }
  }

  lemma NothingHeld(k: Fingerprint)
    ensures Holds(EMPTY.active, k, None)
  {
  }

  lemma BookOpens(st: Ledger, now: Time, begun: set<Fingerprint>, ended: set<Fingerprint>)
    requires Book(st, now, begun, ended)
    ensures Open(st.active, st.events)
  {
    hide Open, NoOtherActive, UniqueEvents, Dated, Paired, Balanced;
  }

  // --- the report and the store -------------------------------------------------------------

  /** Reported as new is exactly the incident of each standing condition that was not open. */
  lemma {:induction false} NewEventsAre(now: Time, active: map<Fingerprint, Incident>,
                                        standing: map<Fingerprint, Standing>, keys: seq<Fingerprint>, e: Incident)
    requires forall k | k in keys :: k in standing
    ensures e in NewEvents(now, active, standing, keys) <==>
            exists k | k in keys && k !in active ::
              var c := standing[k].condition;
              e == Incident(EventId(c.fingerprint, now, false), c.rule, c.severity, c.title, c.summary, c.source,
                            c.subject, now, now, 1, true, None, None)
  {
    if keys != [] {
      NewEventsAre(now, active, standing, keys[..|keys| - 1], e);
      assert keys == keys[..|keys| - 1] + [keys[|keys| - 1]];
    }
  }

  /** Reported as recovered is exactly the recovery of each open incident that does not stand. */
  lemma {:induction false} RecoveriesAre(now: Time, active: map<Fingerprint, Incident>,
                                         standing: map<Fingerprint, Standing>, keys: seq<Fingerprint>, r: Incident)
    requires forall k | k in keys :: k in active
    ensures r in Recoveries(now, active, standing, keys) <==>
            exists k | k in keys && k !in standing ::
              var i := active[k];
              r == Incident(EventId(i.id.fingerprint, now, true), i.rule, Severity.Recovery, i.title + " recovered",
                            "Recovered: " + i.summary, i.source, i.subject, now, now, 1, false, None, Some(i.id))
  {
    if keys != [] {
      RecoveriesAre(now, active, standing, keys[..|keys| - 1], r);
      assert keys == keys[..|keys| - 1] + [keys[|keys| - 1]];
    }
  }

  /** Events are stored by first sighting, deliveries by time, and ties by id. */
  lemma StoredInOrder(cfg: Settings, st: Ledger, i: nat, j: nat)
    requires i < j
    ensures var stored := Stored(cfg, st);
      && (j < |stored.events| ==>
            var a, b := stored.events[i], stored.events[j];
            if a.firstSeen == b.firstSeen then cfg.eventOrder(a.id) <= cfg.eventOrder(b.id)
            else a.firstSeen < b.firstSeen)
      && (j < |stored.deliveries| ==>
            var a, b := stored.deliveries[i], stored.deliveries[j];
            if a.at == b.at then cfg.deliveryOrder(a) <= cfg.deliveryOrder(b) else a.at < b.at)
  {
    hide Sort;
    StoreOrders(cfg);
    SortSorts(EventOrder(cfg), st.events);
    SortSorts(DeliveryOrder(cfg), st.deliveries);
  }

  /** An acknowledgement marks its event and its incident, and logs one record; of an unknown event it does nothing. */
  lemma AcknowledgeMeans(cfg: Settings, st: Ledger, id: EventId, at: Time)
    ensures var next := Acknowledge(cfg, st, id, at);
            if forall e | e in st.events :: e.id != id then next == st
            else
              && multiset(next.deliveries) ==
                 multiset(st.deliveries) + multiset{Delivery(id, Operator, Acknowledged, at, |st.deliveries|)}
              && next.active.Keys == st.active.Keys
              && (forall k | k in st.active ::
                    next.active[k] == if st.active[k].id == id then st.active[k].(acknowledged := Some(at))
                                      else st.active[k])
              && exists marked: seq<Incident> | |marked| == |st.events| ::
                   multiset(next.events) == multiset(marked)
                   && forall i | 0 <= i < |marked| ::
                        marked[i] == if st.events[i].id == id then st.events[i].(acknowledged := Some(at))
                                     else st.events[i]
  {
    hide Sort;
    if e :| e in st.events && e.id == id {
      var i :| 0 <= i < |st.events| && st.events[i] == e;
      var marked := AckEvents(st.events, id, at);
      assert |marked| == |st.events|;
    }
  }
}
