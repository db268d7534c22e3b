/**
 Forcing a notification makes no difference: evaluations that never force a send leave the same ledger
 after every run.
 */
module ForcedRuns {
  import opened Options
  import opened SortedKeys
  import opened NotificationRules
  import opened Incidents
  import opened IncidentLedger
  import opened IncidentRuns
  import opened Deliveries
  import opened DeliveryRuns

  // --- evaluation without force -------------------------------------------------------------

  function ActUnforced(cfg: Settings, world: World, st: Ledger, k: Fingerprint, s: Standing): Ledger
  {
    var next := ActOn(cfg, world, st, k, s);
    if k in st.active then next
    else
      next.(deliveries :=
              Deliver(cfg, world, st.deliveries, EventId(s.condition.fingerprint, world.now, false), false))
  }

  function CloseUnforced(cfg: Settings, world: World, st: Ledger, k: Fingerprint): Ledger
  {
    if k !in st.active then st
    else
      Close(cfg, world, st, k).(deliveries :=
        Deliver(cfg, world, st.deliveries, EventId(st.active[k].id.fingerprint, world.now, true), false))
  }

  function ActOnAllUnforced(cfg: Settings, world: World, st: Ledger, standing: map<Fingerprint, Standing>,
                            keys: seq<Fingerprint>): Ledger
    requires forall k | k in keys :: k in standing
    decreases |keys|
  {
    if keys == [] then st
    else ActOnAllUnforced(cfg, world, ActUnforced(cfg, world, st, keys[0], standing[keys[0]]), standing, keys[1..])
  }

  function CloseAllUnforced(cfg: Settings, world: World, st: Ledger, keys: seq<Fingerprint>): Ledger
    decreases |keys|
  {
    if keys == [] then st else CloseAllUnforced(cfg, world, CloseUnforced(cfg, world, st, keys[0]), keys[1..])
  }

  function EvaluatedUnforced(cfg: Settings, world: World, st: Ledger, status: Status, doctor: Option<seq<Check>>)
    : Ledger
  {
    var standing := StandingConditions(cfg, st.active, status, doctor);
    var acted := ActOnAllUnforced(cfg, world, st, standing, Ascending(standing.Keys));
    Stored(cfg, CloseAllUnforced(cfg, world, acted, Ascending(st.active.Keys - standing.Keys)))
  }

  function RunUnforced(cfg: Settings, ops: seq<Op>): Ledger
    decreases |ops|
  {
    if ops == [] then EMPTY
    else
      var st := RunUnforced(cfg, ops[..|ops| - 1]);
      match ops[|ops| - 1]
      case Evaluate(world, status, doctor) => EvaluatedUnforced(cfg, world, st, status, doctor)
      case Ack(id, at) => Acknowledge(cfg, st, id, at)
  }

  // --- deliveries are of known events -------------------------------------------------------

  lemma ActOnKnows(cfg: Settings, world: World, st: Ledger, k: Fingerprint, s: Standing)
    requires Known(st.deliveries, st.events) && Open(st.active, st.events)
    ensures var next := ActOn(cfg, world, st, k, s); Known(next.deliveries, next.events)
  {
    hide Open, Known, DeliverTo, Knows, RuleOf, ReplaceById;
    if k in st.active {
      if !s.preserveOnly {
        OpenDates(st.active, st.events, k);
        var x := st.active[k].(lastSeen := world.now, occurrences := st.active[k].occurrences + 1);
        forall y ensures Knows(ReplaceById(st.events, x), y) <==> Knows(st.events, y) {
          SameKnowledge(st.events, x, y);
        }
        KnownSame(st.deliveries, st.events, ReplaceById(st.events, x));
        InEvents(st.events, st.active[k]);
        KnownSend(cfg, world, st.deliveries, x.id, false, st.events, ReplaceById(st.events, x));
      }
    } else {
      var x := Opened(s.condition, world.now);
      MoreKnowledge(st.events, x);
      KnownSend(cfg, world, st.deliveries, x.id, true, st.events, st.events + [x]);
    }
  }

  lemma CloseKnows(cfg: Settings, world: World, st: Ledger, k: Fingerprint)
    requires Known(st.deliveries, st.events) && k in st.active
    ensures var next := Close(cfg, world, st, k); Known(next.deliveries, next.events)
  {
    hide Known, DeliverTo, Knows, ReplaceById;
    var x := st.active[k].(active := false, lastSeen := world.now);
    var r := RecoveryEvent(x, world.now);
    var replaced := ReplaceById(st.events, x);
    forall y ensures Knows(replaced, y) <==> Knows(st.events, y) {
      SameKnowledge(st.events, x, y);
    }
    KnownSame(st.deliveries, st.events, replaced);
    MoreKnowledge(replaced, r);
    KnownSend(cfg, world, st.deliveries, r.id, true, replaced, replaced + [r]);
  }

  // --- one send -----------------------------------------------------------------------------

  /** Opening an incident forces its first notification, and forcing it makes no difference. */
  lemma OpeningForcesFirst(cfg: Settings, world: World, st: Ledger, k: Fingerprint, s: Standing,
                           begun: set<Fingerprint>, ended: set<Fingerprint>)
    requires Book(st, world.now, begun, ended) && Known(st.deliveries, st.events) && DistinctChannels(world)
    requires k !in st.active && k !in begun && s.condition.fingerprint == k
    ensures forall d | d in st.deliveries :: d.eventId != EventId(k, world.now, false)
    ensures ActOn(cfg, world, st, k, s) == ActUnforced(cfg, world, st, k, s)
  {
    hide Open, NoOtherActive, UniqueEvents, Paired, Balanced, Known, DeliverTo, Dated, DistinctChannels;
    var id := EventId(k, world.now, false);
    NewId(st.events, world.now, begun, ended, id);
    NewIsUnknown(st.deliveries, st.events, id);
    ForceChangesNothing(cfg, world, st.deliveries, id, |world.channels|);
  }

  /** So does closing one. */
  lemma ClosingForcesFirst(cfg: Settings, world: World, st: Ledger, k: Fingerprint,
                           begun: set<Fingerprint>, ended: set<Fingerprint>)
    requires Book(st, world.now, begun, ended) && Known(st.deliveries, st.events) && DistinctChannels(world)
    requires k in st.active && k !in ended
    ensures forall d | d in st.deliveries :: d.eventId != EventId(k, world.now, true)
    ensures Close(cfg, world, st, k) == CloseUnforced(cfg, world, st, k)
  {
    hide Open, NoOtherActive, UniqueEvents, Paired, Balanced, Known, DeliverTo, Dated, DistinctChannels, ReplaceById,
      RuleOf;
    var id := EventId(k, world.now, true);
    OpenDates(st.active, st.events, k);
    NewId(st.events, world.now, begun, ended, id);
    NewIsUnknown(st.deliveries, st.events, id);
    ForceChangesNothing(cfg, world, st.deliveries, id, |world.channels|);
  }

  // --- one evaluation -----------------------------------------------------------------------

  lemma BookIsOpen(st: Ledger, now: Time, begun: set<Fingerprint>, ended: set<Fingerprint>)
    requires Book(st, now, begun, ended)
    ensures Open(st.active, st.events)
  {
    hide Open, NoOtherActive, UniqueEvents, Dated, Paired, Balanced;
  }

  lemma {:induction false} ActOnAllNeedsNoForce(cfg: Settings, world: World, st: Ledger,
                                                standing: map<Fingerprint, Standing>, keys: seq<Fingerprint>,
                                                begun: set<Fingerprint>)
    requires forall k | k in keys :: k in standing
    requires GoodStanding(standing) && Fresh(keys, begun) && Book(st, world.now, begun, {})
    requires Known(st.deliveries, st.events) && DistinctChannels(world)
    ensures var next := ActOnAll(cfg, world, st, standing, keys);
            next == ActOnAllUnforced(cfg, world, st, standing, keys) && Known(next.deliveries, next.events)
    decreases |keys|
  {
    hide GoodStanding, Fresh, Known, DistinctChannels, Book, ActOn;
    if keys != [] {
      var k := keys[0];
      FreshTail(keys, begun);
      ActOnKeepsBook(cfg, world, st, standing, k, begun);
      StandingIs(standing, k);
      BookIsOpen(st, world.now, begun, {});
      ActOnKnows(cfg, world, st, k, standing[k]);
      if k !in st.active {
        OpeningForcesFirst(cfg, world, st, k, standing[k], begun, {});
      }
      ActOnAllNeedsNoForce(cfg, world, ActOn(cfg, world, st, k, standing[k]), standing, keys[1..], begun + {k});
    }
  }

  lemma {:induction false} CloseAllNeedsNoForce(cfg: Settings, world: World, st: Ledger, keys: seq<Fingerprint>,
                                                begun: set<Fingerprint>, ended: set<Fingerprint>)
    requires Fresh(keys, ended) && Book(st, world.now, begun, ended)
    requires forall i | 0 <= i < |keys| :: keys[i] in st.active
    requires Known(st.deliveries, st.events) && DistinctChannels(world)
    ensures var next := CloseAll(cfg, world, st, keys);
            next == CloseAllUnforced(cfg, world, st, keys) && Known(next.deliveries, next.events)
    decreases |keys|
  {
    hide Fresh, Known, DistinctChannels, Book, Close, CloseUnforced;
    if keys != [] {
      var k := keys[0];
      FreshTail(keys, ended);
      CloseKeepsBook(cfg, world, st, k, begun, ended);
      CloseKnows(cfg, world, st, k);
      ClosingForcesFirst(cfg, world, st, k, begun, ended);
      CloseLeavesOthers(cfg, world, st, keys, ended);
      CloseAllNeedsNoForce(cfg, world, Close(cfg, world, st, k), keys[1..], begun, ended + {k});
    }
  }

  lemma EvaluateNeedsNoForce(cfg: Settings, world: World, st: Ledger, status: Status, doctor: Option<seq<Check>>)
    requires Book(st, world.now, {}, {}) && Known(st.deliveries, st.events) && DistinctChannels(world)
    ensures var next := Evaluated(cfg, world, st, status, doctor);
            next == EvaluatedUnforced(cfg, world, st, status, doctor) && Known(next.deliveries, next.events)
  {
    hide Open, NoOtherActive, UniqueEvents, Dated, Paired, Balanced, Known, DistinctChannels;
    hide StandingConditions, ActOnAll, CloseAll, ActOnAllUnforced, CloseAllUnforced, Ascending, Stored, GoodStanding,
      Fresh;
    var standing := StandingConditions(cfg, st.active, status, doctor);
    StandingGood(cfg, st.active, st.events, status, doctor);
    var gone := st.active.Keys - standing.Keys;
    AscendingFresh(standing.Keys);
    AscendingFresh(gone);
    var acted := ActOnAll(cfg, world, st, standing, Ascending(standing.Keys));
    var begun := ActOnAllKeeps(cfg, world, st, standing, Ascending(standing.Keys), {});
    ActOnAllNeedsNoForce(cfg, world, st, standing, Ascending(standing.Keys), {});
    forall i | 0 <= i < |Ascending(gone)| ensures Ascending(gone)[i] in acted.active {
      assert Ascending(gone)[i] in Ascending(gone);
    }
    CloseAllNeedsNoForce(cfg, world, acted, Ascending(gone), begun, {});
    StoredKnows(cfg, CloseAll(cfg, world, acted, Ascending(gone)));
  }

  // --- runs ---------------------------------------------------------------------------------

  lemma AckStaysKnown(cfg: Settings, st: Ledger, id: EventId, at: Time)
    requires Known(st.deliveries, st.events)
    ensures var next := Acknowledge(cfg, st, id, at); Known(next.deliveries, next.events)
  {
    hide Stored, Known, Knows;
    if Knows(st.events, id) {
      AckKnows(cfg, st, id, at);
      StoredKnows(cfg, Ledger(AckActive(st.active, id, at), AckEvents(st.events, id, at),
                              st.deliveries + [Delivery(id, Operator, Acknowledged, at, |st.deliveries|)]));
    }
  }

  /** No channel is listed twice in any evaluation. */
  ghost predicate ChannelsOnce(ops: seq<Op>)
  {
    forall i | 0 <= i < |ops| && ops[i].Evaluate? :: DistinctChannels(ops[i].world)
  }

  /** After every run at increasing times the ledger is what it would be if no send had ever been forced. */
  lemma {:induction false} RunsNeedNoForce(cfg: Settings, ops: seq<Op>)
    requires StrictlyLater(ops) && ChannelsOnce(ops)
    ensures var st := RunAll(cfg, ops);
            st == RunUnforced(cfg, ops) && Known(st.deliveries, st.events)
    decreases |ops|
  {
    hide Book, Evaluated, EvaluatedUnforced, Acknowledge, DistinctChannels, Known;
    if ops == [] {
      EmptyLog(0);
    } else {
      var n := |ops| - 1;
      var init := ops[..n];
      var st := RunAll(cfg, init);
      RunsNeedNoForce(cfg, init);
      match ops[n]
      case Evaluate(world, status, doctor) =>
        var before := Earliest(ops);
        var begun, ended := RunKeepsBook(cfg, init, before);
        LastTimeEarlier(ops, before, n);
        LaterBook(st, LastTime(init, before), begun, ended, world.now);
        EvaluateNeedsNoForce(cfg, world, st, status, doctor);
      case Ack(id, at) =>
        AckStaysKnown(cfg, st, id, at);
    }
  }
}
