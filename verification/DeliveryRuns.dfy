/** The delivery log over every run: spacing of attempts, and silence about settled events. */
module DeliveryRuns {
  import opened Options
  import opened Ordering
  import opened SortedKeys
  import opened NotificationRules
  import opened Incidents
  import opened IncidentLedger
  import opened IncidentRuns
  import opened Deliveries

  // --- storing ------------------------------------------------------------------------------

  /** Sorting by time keeps the spacing, because attempts for one target never share a time. */
  lemma SortKeepsSpaced(cfg: Settings, gap: int, log: seq<Delivery>)
    requires Spaced(gap, log)
    ensures Spaced(gap, Sort(DeliveryOrder(cfg), log))
  {
    hide SameTarget, Sort;
    var sorted := Sort(DeliveryOrder(cfg), log);
    var apart := (a: Delivery, b: Delivery) =>
      SameTarget(a, b) ==> a.at != b.at && (a.at - b.at >= gap || b.at - a.at >= gap);
    StoreOrders(cfg);
    SortSorts(DeliveryOrder(cfg), log);
    forall a, b | apart(a, b) ensures apart(b, a) {
      TargetSymmetric(a, b);
    }
    PairwisePermutation(apart, log, sorted);
    forall i, j | 0 <= i < j < |sorted| && SameTarget(sorted[i], sorted[j])
      ensures sorted[i].at < sorted[j].at && sorted[j].at - sorted[i].at >= gap
    {
      assert apart(sorted[i], sorted[j]) && DeliveryOrder(cfg)(sorted[i], sorted[j]);
    }
  }

  lemma TargetSymmetric(a: Delivery, b: Delivery)
    ensures SameTarget(a, b) <==> SameTarget(b, a)
  {
  }

  lemma StoredKnows(cfg: Settings, st: Ledger)
    requires Known(st.deliveries, st.events)
    ensures Known(Stored(cfg, st).deliveries, Stored(cfg, st).events)
  {
    hide Sort;
    SameElements(st.deliveries, Sort(DeliveryOrder(cfg), st.deliveries));
    forall d | d in Stored(cfg, st).deliveries ensures Knows(Stored(cfg, st).events, d.eventId) {
      SortedKnows(cfg, st.events, d.eventId);
    }
  }

  lemma SortedKnows(cfg: Settings, events: seq<Incident>, id: EventId)
    ensures Knows(Sort(EventOrder(cfg), events), id) <==> Knows(events, id)
  {
    hide Sort;
    var sorted := Sort(EventOrder(cfg), events);
    SameElements(events, sorted);
    if Knows(events, id) {
      var i :| 0 <= i < |events| && events[i].id == id;
      assert events[i] in sorted;
      InEvents(sorted, events[i]);
    }
    if Knows(sorted, id) {
      var i :| 0 <= i < |sorted| && sorted[i].id == id;
      assert sorted[i] in events;
      InEvents(events, sorted[i]);
    }
  }

  // --- one evaluation -----------------------------------------------------------------------

  lemma {:induction false} ActOnAllKeepsLog(cfg: Settings, drift: nat, world: World, st: Ledger,
                                            standing: map<Fingerprint, Standing>, keys: seq<Fingerprint>,
                                            begun: set<Fingerprint>) returns (done: set<Fingerprint>)
    requires forall k | k in keys :: k in standing
    requires GoodStanding(standing) && Fresh(keys, begun) && Book(st, world.now, begun, {})
    requires Steady(world, drift) && Log(Repeat(cfg) - drift, world, st, begun, {})
    ensures var next := ActOnAll(cfg, world, st, standing, keys);
            Book(next, world.now, done, {}) && Log(Repeat(cfg) - drift, world, next, done, {})
    decreases |keys|
  {
    hide GoodStanding, Fresh, Steady, Log, Repeat, Open, NoOtherActive, UniqueEvents, Dated, Paired, Balanced, ActOn,
      RuleOf;
    if keys == [] {
      done := begun;
    } else {
      var k := keys[0];
      FreshTail(keys, begun);
      ActOnKeepsBook(cfg, world, st, standing, k, begun);
      StandingIs(standing, k);
      if k in st.active {
        RepeatKeepsLog(cfg, drift, world, st, k, standing[k], begun, {});
      } else {
        OpeningKeepsLog(cfg, drift, world, st, k, standing[k], begun, {});
      }
      done := ActOnAllKeepsLog(cfg, drift, world, ActOn(cfg, world, st, k, standing[k]), standing, keys[1..],
                               begun + {k});
    }
  }

  lemma {:induction false} CloseAllKeepsLog(cfg: Settings, drift: nat, world: World, st: Ledger, keys: seq<Fingerprint>,
                                            begun: set<Fingerprint>, ended: set<Fingerprint>)
    returns (done: set<Fingerprint>)
    requires Fresh(keys, ended) && Book(st, world.now, begun, ended)
             && forall i | 0 <= i < |keys| :: keys[i] in st.active
    requires Steady(world, drift) && Log(Repeat(cfg) - drift, world, st, begun, ended)
    ensures Log(Repeat(cfg) - drift, world, CloseAll(cfg, world, st, keys), begun, done)
    decreases |keys|
  {
    hide Fresh, Steady, Log, Repeat, Open, NoOtherActive, UniqueEvents, Dated, Paired, Balanced, Close;
    if keys == [] {
      done := ended;
    } else {
      var k := keys[0];
      FreshTail(keys, ended);
      CloseKeepsBook(cfg, world, st, k, begun, ended);
      CloseKeepsLog(cfg, drift, world, st, k, begun, ended);
      CloseLeavesOthers(cfg, world, st, keys, ended);
      done := CloseAllKeepsLog(cfg, drift, world, Close(cfg, world, st, k), keys[1..], begun, ended + {k});
    }
  }

  lemma CloseLeavesOthers(cfg: Settings, world: World, st: Ledger, keys: seq<Fingerprint>, done: set<Fingerprint>)
    requires keys != [] && Fresh(keys, done) && forall i | 0 <= i < |keys| :: keys[i] in st.active
    ensures forall i | 0 <= i < |keys[1..]| :: keys[1..][i] in Close(cfg, world, st, keys[0]).active
  {
    hide Deliver, ReplaceById;
    forall i | 0 <= i < |keys[1..]| ensures keys[1..][i] in Close(cfg, world, st, keys[0]).active {
      assert keys[1..][i] == keys[i + 1] && keys[i + 1] != keys[0];
    }
  }

  /** An evaluation keeps the spacing. */
  lemma EvaluateKeepsLog(cfg: Settings, drift: nat, world: World, st: Ledger, status: Status,
                         doctor: Option<seq<Check>>)
    returns (begun: set<Fingerprint>, ended: set<Fingerprint>)
    requires Book(st, world.now, {}, {}) && Steady(world, drift) && Log(Repeat(cfg) - drift, world, st, {}, {})
    ensures Log(Repeat(cfg) - drift, world, Evaluated(cfg, world, st, status, doctor), begun, ended)
  {
    hide Open, NoOtherActive, UniqueEvents, Dated, Paired, Balanced, Steady, Log, Repeat;
    hide StandingConditions, ActOnAll, CloseAll, Ascending, Sort, GoodStanding, Fresh;
    var standing := StandingConditions(cfg, st.active, status, doctor);
    StandingGood(cfg, st.active, st.events, status, doctor);
    var gone := st.active.Keys - standing.Keys;
    AscendingFresh(standing.Keys);
    AscendingFresh(gone);
    var acted := ActOnAll(cfg, world, st, standing, Ascending(standing.Keys));
    var _ := ActOnAllKeeps(cfg, world, st, standing, Ascending(standing.Keys), {});
    begun := ActOnAllKeepsLog(cfg, drift, world, st, standing, Ascending(standing.Keys), {});
    forall i | 0 <= i < |Ascending(gone)| ensures Ascending(gone)[i] in acted.active {
      assert Ascending(gone)[i] in Ascending(gone);
    }
    ended := CloseAllKeepsLog(cfg, drift, world, acted, Ascending(gone), begun, {});
    StoredLog(cfg, Repeat(cfg) - drift, world, CloseAll(cfg, world, acted, Ascending(gone)), begun, ended);
  }

  lemma StoredLog(cfg: Settings, gap: int, world: World, st: Ledger, begun: set<Fingerprint>, ended: set<Fingerprint>)
    requires Log(gap, world, st, begun, ended)
    ensures Log(gap, world, Stored(cfg, st), begun, ended)
  {
    hide Sort, Spaced, Known, Current;
    SortKeepsSpaced(cfg, gap, st.deliveries);
    StoredKnows(cfg, st);
    SameElements(st.deliveries, Sort(DeliveryOrder(cfg), st.deliveries));
  }

  // --- runs ---------------------------------------------------------------------------------

  /** Clock readings increase: within an evaluation up to the drift, and from one evaluation to the next. */
  ghost predicate Timed(ops: seq<Op>, drift: nat)
  {
    && (forall i | 0 <= i < |ops| && ops[i].Evaluate? :: Steady(ops[i].world, drift))
    && (forall i, j | 0 <= i < j < |ops| && ops[i].Evaluate? && ops[j].Evaluate? ::
          EndsBefore(ops[i].world, ops[j].world.now))
  }

  /** Every attempt was stamped no later than some evaluation's reading for its event. */
  ghost predicate ReadBy(ops: seq<Op>, log: seq<Delivery>)
  {
    forall d | d in log && Attempted(d) :: ReadInTime(ops, d)
  }

  ghost predicate ReadInTime(ops: seq<Op>, d: Delivery)
  {
    exists i | 0 <= i < |ops| :: ops[i].Evaluate? && d.at <= ops[i].world.start(d.eventId)
  }

  lemma TimedPrefix(ops: seq<Op>, drift: nat, n: nat)
    requires Timed(ops, drift) && StrictlyLater(ops) && n <= |ops|
    ensures Timed(ops[..n], drift) && StrictlyLater(ops[..n])
  {
    hide Steady, EndsBefore;
    assert forall i | 0 <= i < n :: ops[..n][i] == ops[i];
  }

  lemma ReadBefore(ops: seq<Op>, drift: nat, log: seq<Delivery>, n: nat)
    requires Timed(ops, drift) && n < |ops| && ops[n].Evaluate? && ReadBy(ops[..n], log)
    ensures forall d | d in log && Attempted(d) :: d.at < ops[n].world.now
  {
    hide Steady;
    forall d | d in log && Attempted(d) ensures d.at < ops[n].world.now {
      assert ReadInTime(ops[..n], d);
      var i :| 0 <= i < |ops[..n]| && ops[..n][i].Evaluate? && d.at <= ops[..n][i].world.start(d.eventId);
      assert ops[..n][i] == ops[i];
      assert EndsBefore(ops[i].world, ops[n].world.now);
    }
  }

  lemma ReadNow(ops: seq<Op>, drift: nat, gap: int, n: nat, st: Ledger, begun: set<Fingerprint>,
                ended: set<Fingerprint>)
    requires n == |ops| - 1 && ops[n].Evaluate? && Steady(ops[n].world, drift)
             && Log(gap, ops[n].world, st, begun, ended)
    ensures ReadBy(ops, st.deliveries)
  {
    forall d | d in st.deliveries && Attempted(d) ensures ReadInTime(ops, d) {
      assert ops[n].world.now <= ops[n].world.start(d.eventId);
    }
  }

  lemma BeginLog(cfg: Settings, gap: int, world: World, st: Ledger)
    requires Spaced(gap, st.deliveries) && Known(st.deliveries, st.events)
    requires forall d | d in st.deliveries && Attempted(d) :: d.at < world.now
    ensures Log(gap, world, st, {}, {})
  {
  }

  lemma AckKnows(cfg: Settings, st: Ledger, id: EventId, at: Time)
    requires Known(st.deliveries, st.events) && Knows(st.events, id)
    ensures Known(st.deliveries + [Delivery(id, Operator, Acknowledged, at, |st.deliveries|)],
                  AckEvents(st.events, id, at))
  {
    hide Acked;
    var acked := AckEvents(st.events, id, at);
    forall y | Knows(st.events, y) ensures Knows(acked, y) {
      var i :| 0 <= i < |st.events| && st.events[i].id == y;
      AckedId(st.events[i], id, at);
      assert acked[i].id == y;
    }
  }

  lemma AckedId(i: Incident, id: EventId, at: Time)
    ensures Acked(i, id, at).id == i.id
  {
  }

  lemma AckKeepsLog(cfg: Settings, gap: int, st: Ledger, id: EventId, at: Time)
    requires Spaced(gap, st.deliveries) && Known(st.deliveries, st.events)
    ensures var next := Acknowledge(cfg, st, id, at);
            && Spaced(gap, next.deliveries) && Known(next.deliveries, next.events)
            && forall d | d in next.deliveries && Attempted(d) :: d in st.deliveries
  {
    hide Sort, Known, Spaced, Knows;
    if Knows(st.events, id) {
      var log := st.deliveries + [Delivery(id, Operator, Acknowledged, at, |st.deliveries|)];
      AckKnows(cfg, st, id, at);
      MarkKeepsSpaced(gap, st.deliveries, Delivery(id, Operator, Acknowledged, at, |st.deliveries|));
      SortKeepsSpaced(cfg, gap, log);
      StoredKnows(cfg, Ledger(AckActive(st.active, id, at), AckEvents(st.events, id, at), log));
      SameElements(log, Sort(DeliveryOrder(cfg), log));
    }
  }

  lemma MarkKeepsSpaced(gap: int, log: seq<Delivery>, d: Delivery)
    requires Spaced(gap, log) && !Attempted(d)
    ensures Spaced(gap, log + [d])
  {
  }

  lemma {:induction false} RunKeepsLog(cfg: Settings, drift: nat, ops: seq<Op>)
    requires StrictlyLater(ops) && Timed(ops, drift)
    ensures var st := RunAll(cfg, ops);
            && Spaced(Repeat(cfg) - drift, st.deliveries) && Known(st.deliveries, st.events)
            && ReadBy(ops, st.deliveries)
    decreases |ops|
  {
    hide Book, Evaluated, Acknowledge, Spaced, Known, Log, Repeat, ReadInTime;
    if ops == [] {
      EmptyLog(Repeat(cfg) - drift);
    } else {
      var n := |ops| - 1;
      var init := ops[..n];
      var st := RunAll(cfg, init);
      TimedPrefix(ops, drift, n);
      RunKeepsLog(cfg, drift, init);
      match ops[n]
      case Evaluate(world, status, doctor) =>
        var before := Earliest(ops);
        var begun, ended := RunKeepsBook(cfg, init, before);
        LastTimeEarlier(ops, before, n);
        LaterBook(st, LastTime(init, before), begun, ended, world.now);
        ReadBefore(ops, drift, st.deliveries, n);
        BeginLog(cfg, Repeat(cfg) - drift, world, st);
        begun, ended := EvaluateKeepsLog(cfg, drift, world, st, status, doctor);
        LogIs(Repeat(cfg) - drift, world, RunAll(cfg, ops), begun, ended);
        ReadNow(ops, drift, Repeat(cfg) - drift, n, RunAll(cfg, ops), begun, ended);
      case Ack(id, at) =>
        AckKeepsLog(cfg, Repeat(cfg) - drift, st, id, at);
        forall d | d in RunAll(cfg, ops).deliveries && Attempted(d) ensures ReadInTime(ops, d) {
          ReadLater(ops, n, d);
        }
    }
  }

  lemma EmptyLog(gap: int)
    ensures Spaced(gap, []) && Known([], [])
  {
  }

  lemma LogIs(gap: int, world: World, st: Ledger, begun: set<Fingerprint>, ended: set<Fingerprint>)
    requires Log(gap, world, st, begun, ended)
    ensures Spaced(gap, st.deliveries) && Known(st.deliveries, st.events)
  {
    hide Spaced, Known, Stamped;
  }

  lemma ReadLater(ops: seq<Op>, n: nat, d: Delivery)
    requires n <= |ops| && ReadInTime(ops[..n], d)
    ensures ReadInTime(ops, d)
  {
    var i :| 0 <= i < |ops[..n]| && ops[..n][i].Evaluate? && d.at <= ops[..n][i].world.start(d.eventId);
    assert ops[..n][i] == ops[i];
  }

  /**
   After any run with an increasing clock, two attempts for the same event and channel are logged
   in order of time and lie at least the repeat setting apart, less the drift.
   */
  lemma RunsSpaceAttempts(cfg: Settings, drift: nat, ops: seq<Op>, i: nat, j: nat)
    requires StrictlyLater(ops) && Timed(ops, drift) && i < j < |RunAll(cfg, ops).deliveries|
    requires SameTarget(RunAll(cfg, ops).deliveries[i], RunAll(cfg, ops).deliveries[j])
    ensures var log := RunAll(cfg, ops).deliveries;
            log[i].at < log[j].at && log[j].at - log[i].at >= Repeat(cfg) - drift
  {
    hide RunAll, Timed, Repeat, SameTarget;
    RunKeepsLog(cfg, drift, ops);
  }

  // --- settled events -----------------------------------------------------------------------

  /** A stored event is settled when no open, unacknowledged incident stands behind it. */
  ghost predicate Settled(st: Ledger, id: EventId)
  {
    Knows(st.events, id) && forall k | k in st.active && st.active[k].id == id :: st.active[k].acknowledged.Some?
  }

  ghost predicate SameRecords(id: EventId, a: seq<Delivery>, b: seq<Delivery>)
  {
    forall d: Delivery | d.eventId == id :: multiset(a)[d] == multiset(b)[d]
  }

  lemma OtherSend(cfg: Settings, world: World, log: seq<Delivery>, other: EventId, force: bool, id: EventId)
    requires other != id
    ensures SameRecords(id, log, Deliver(cfg, world, log, other, force))
  {
    hide DeliverTo;
    var added := DeliverToAdds(cfg, world, log, other, force, |world.channels|);
    forall d | d in added ensures d.eventId == other {
      var i :| 0 <= i < |added| && added[i] == d;
    }
  }

  lemma SameTwice(id: EventId, a: seq<Delivery>, b: seq<Delivery>, c: seq<Delivery>)
    requires SameRecords(id, a, b) && SameRecords(id, b, c)
    ensures SameRecords(id, a, c)
  {
  }

  lemma ActOnSettled(cfg: Settings, world: World, st: Ledger, k: Fingerprint, s: Standing, id: EventId,
                     begun: set<Fingerprint>, ended: set<Fingerprint>)
    requires Settled(st, id) && Dated(st.events, world.now, begun, ended) && k !in begun
    requires s.condition.fingerprint == k
    ensures var next := ActOn(cfg, world, st, k, s);
            Settled(next, id) && SameRecords(id, st.deliveries, next.deliveries)
  {
    hide Knows, Dated, Deliver, SameRecords, ReplaceById;
    assert SameRecords(id, st.deliveries, st.deliveries) by {
      SameAsItself(id, st.deliveries);
    }
    if k in st.active {
      if !s.preserveOnly {
        var x := st.active[k].(lastSeen := world.now, occurrences := st.active[k].occurrences + 1);
        SameKnowledge(st.events, x, id);
        if x.acknowledged.None? {
          OtherSend(cfg, world, st.deliveries, x.id, false, id);
        }
      }
    } else {
      var x := Opened(s.condition, world.now);
      NewId(st.events, world.now, begun, ended, x.id);
      MoreKnowledge(st.events, x);
      KnownIsOld(st.events, id, x.id);
      OtherSend(cfg, world, st.deliveries, x.id, true, id);
    }
  }

  lemma SameAsItself(id: EventId, log: seq<Delivery>)
    ensures SameRecords(id, log, log)
  {
  }

  lemma KnownIsOld(events: seq<Incident>, id: EventId, newest: EventId)
    requires Knows(events, id) && forall i | 0 <= i < |events| :: events[i].id != newest
    ensures id != newest
  {
  }

  lemma CloseSettled(cfg: Settings, world: World, st: Ledger, k: Fingerprint, id: EventId,
                     begun: set<Fingerprint>, ended: set<Fingerprint>)
    requires Settled(st, id) && Dated(st.events, world.now, begun, ended) && k !in ended
    requires Open(st.active, st.events) && k in st.active
    ensures var next := Close(cfg, world, st, k);
            Settled(next, id) && SameRecords(id, st.deliveries, next.deliveries)
  {
    hide Knows, Dated, Deliver, SameRecords, ReplaceById, Open, RuleOf;
    OpenDates(st.active, st.events, k);
    var x := st.active[k].(active := false, lastSeen := world.now);
    var r := RecoveryEvent(x, world.now);
    var replaced := ReplaceById(st.events, x);
    SameKnowledge(st.events, x, id);
    ReplaceKeepsDated(st.events, x, world.now, begun, ended);
    NewId(replaced, world.now, begun, ended, r.id);
    MoreKnowledge(replaced, r);
    KnownIsOld(replaced, id, r.id);
    OtherSend(cfg, world, st.deliveries, r.id, true, id);
  }

  lemma {:induction false} ActOnAllSettled(cfg: Settings, world: World, st: Ledger,
                                           standing: map<Fingerprint, Standing>,
                                           keys: seq<Fingerprint>, begun: set<Fingerprint>, id: EventId)
    requires forall k | k in keys :: k in standing
    requires GoodStanding(standing) && Fresh(keys, begun) && Book(st, world.now, begun, {}) && Settled(st, id)
    ensures var next := ActOnAll(cfg, world, st, standing, keys);
            Settled(next, id) && SameRecords(id, st.deliveries, next.deliveries)
    decreases |keys|
  {
    hide GoodStanding, Fresh, Open, NoOtherActive, UniqueEvents, Dated, Paired, Balanced, ActOn, RuleOf, Settled,
      SameRecords;
    if keys == [] {
      SameAsItself(id, st.deliveries);
    } else {
      var k := keys[0];
      var next := ActOn(cfg, world, st, k, standing[k]);
      FreshTail(keys, begun);
      ActOnKeepsBook(cfg, world, st, standing, k, begun);
      StandingIs(standing, k);
      ActOnSettled(cfg, world, st, k, standing[k], id, begun, {});
      ActOnAllSettled(cfg, world, next, standing, keys[1..], begun + {k}, id);
      SameTwice(id, st.deliveries, next.deliveries, ActOnAll(cfg, world, next, standing, keys[1..]).deliveries);
    }
  }

  lemma {:induction false} CloseAllSettled(cfg: Settings, world: World, st: Ledger, keys: seq<Fingerprint>,
                                           begun: set<Fingerprint>, ended: set<Fingerprint>, id: EventId)
    requires Fresh(keys, ended) && Book(st, world.now, begun, ended)
             && forall i | 0 <= i < |keys| :: keys[i] in st.active
    requires Settled(st, id)
    ensures var next := CloseAll(cfg, world, st, keys);
            Settled(next, id) && SameRecords(id, st.deliveries, next.deliveries)
    decreases |keys|
  {
    hide Fresh, Open, NoOtherActive, UniqueEvents, Dated, Paired, Balanced, Close, Settled, SameRecords;
    if keys == [] {
      SameAsItself(id, st.deliveries);
    } else {
      var k := keys[0];
      var next := Close(cfg, world, st, k);
      FreshTail(keys, ended);
      CloseKeepsBook(cfg, world, st, k, begun, ended);
      CloseSettled(cfg, world, st, k, id, begun, ended);
      CloseLeavesOthers(cfg, world, st, keys, ended);
      CloseAllSettled(cfg, world, next, keys[1..], begun, ended + {k}, id);
      SameTwice(id, st.deliveries, next.deliveries, CloseAll(cfg, world, next, keys[1..]).deliveries);
    }
  }

  lemma StoredSettled(cfg: Settings, st: Ledger, id: EventId)
    requires Settled(st, id)
    ensures Settled(Stored(cfg, st), id) && SameRecords(id, st.deliveries, Stored(cfg, st).deliveries)
  {
    hide Sort, Knows;
    SortedKnows(cfg, st.events, id);
  }

  lemma EvaluateSettled(cfg: Settings, world: World, st: Ledger, status: Status, doctor: Option<seq<Check>>,
                        id: EventId)
    requires Book(st, world.now, {}, {}) && Settled(st, id)
    ensures var next := Evaluated(cfg, world, st, status, doctor);
            Settled(next, id) && SameRecords(id, st.deliveries, next.deliveries)
  {
    hide Open, NoOtherActive, UniqueEvents, Dated, Paired, Balanced, Settled, SameRecords;
    hide StandingConditions, ActOnAll, CloseAll, Ascending, Sort, GoodStanding, Fresh;
    var standing := StandingConditions(cfg, st.active, status, doctor);
    StandingGood(cfg, st.active, st.events, status, doctor);
    var gone := st.active.Keys - standing.Keys;
    AscendingFresh(standing.Keys);
    AscendingFresh(gone);
    var acted := ActOnAll(cfg, world, st, standing, Ascending(standing.Keys));
    var begun := ActOnAllKeeps(cfg, world, st, standing, Ascending(standing.Keys), {});
    ActOnAllSettled(cfg, world, st, standing, Ascending(standing.Keys), {}, id);
    forall i | 0 <= i < |Ascending(gone)| ensures Ascending(gone)[i] in acted.active {
      assert Ascending(gone)[i] in Ascending(gone);
    }
    var closed := CloseAll(cfg, world, acted, Ascending(gone));
    CloseAllSettled(cfg, world, acted, Ascending(gone), begun, {}, id);
    StoredSettled(cfg, closed, id);
    SameTwice(id, st.deliveries, acted.deliveries, closed.deliveries);
    SameTwice(id, st.deliveries, closed.deliveries, Stored(cfg, closed).deliveries);
  }

  /** After any run, a further evaluation adds no delivery record of a settled event, and it stays settled. */
  lemma RunsLeaveSettledAlone(cfg: Settings, ops: seq<Op>, world: World, status: Status, doctor: Option<seq<Check>>,
                              id: EventId)
    requires StrictlyLater(ops + [Evaluate(world, status, doctor)]) && Settled(RunAll(cfg, ops), id)
    ensures var next := Step(cfg, RunAll(cfg, ops), Evaluate(world, status, doctor));
            Settled(next, id) && SameRecords(id, RunAll(cfg, ops).deliveries, next.deliveries)
  {
    hide Book, Evaluated, Settled, SameRecords, RunAll;
    var all := ops + [Evaluate(world, status, doctor)];
    assert all[..|ops|] == ops;
    var before := Earliest(all);
    forall i | 0 <= i < |ops| && ops[i].Evaluate? ensures before < ops[i].world.now {
      assert all[i] == ops[i];
    }
    StrictlyLaterPrefix(ops, Evaluate(world, status, doctor));
    var begun, ended := RunKeepsBook(cfg, ops, before);
    LastTimeEarlier(all, before, |ops|);
    LaterBook(RunAll(cfg, ops), LastTime(ops, before), begun, ended, world.now);
    EvaluateSettled(cfg, world, RunAll(cfg, ops), status, doctor, id);
  }

  /** An open incident that was acknowledged is settled, and so is any event no longer active. */
  lemma AcknowledgedIsSettled(cfg: Settings, ops: seq<Op>, i: nat)
    requires StrictlyLater(ops) && i < |RunAll(cfg, ops).events|
    requires var e := RunAll(cfg, ops).events[i]; !e.active || e.acknowledged.Some?
    ensures Settled(RunAll(cfg, ops), RunAll(cfg, ops).events[i].id)
  {
    hide RunAll, Dated, Paired, Balanced, RuleOf;
    var st := RunAll(cfg, ops);
    var before := Earliest(ops);
    var begun, ended := RunKeepsBook(cfg, ops, before);
    forall k | k in st.active && st.active[k].id == st.events[i].id ensures st.active[k].acknowledged.Some? {
      assert st.active[k] in st.events;
      var j :| 0 <= j < |st.events| && st.events[j] == st.active[k];
      assert i == j;
    }
  }
}
