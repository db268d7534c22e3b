/**
 The delivery log over runs: how far apart the attempts for one event and channel lie, what forcing
 a send can override, and that an acknowledged incident is no longer notified.

 A send is stamped with one clock reading and decided on by a later one, so the spacing promised by
 the repeat setting holds up to the drift between the two readings.
 */
module Deliveries {
  import opened NotificationRules
  import opened Incidents
  import opened IncidentLedger

  predicate Attempted(d: Delivery)
  {
    d.status == Delivered || d.status == DeliveryFailed
  }

  predicate SameTarget(a: Delivery, b: Delivery)
  {
    Attempted(a) && Attempted(b) && a.eventId == b.eventId && a.channel == b.channel
  }

  /** Attempts for one event and channel are logged in order, at least `gap` apart. */
  ghost predicate Spaced(gap: int, log: seq<Delivery>)
  {
    forall i, j | 0 <= i < j < |log| && SameTarget(log[i], log[j]) ::
      log[i].at < log[j].at && log[j].at - log[i].at >= gap
  }

  /** Readings of one evaluation follow its time stamp, and decisions come at most `drift` after stamps. */
  ghost predicate Steady(world: World, drift: nat)
  {
    && (forall id :: world.now <= world.start(id))
    && (forall id, channel :: world.check((id, channel)) <= world.start(id) + drift)
    && DistinctChannels(world)
  }

  ghost predicate EndsBefore(world: World, t: Time)
  {
    world.now < t && forall id :: world.start(id) < t
  }

  // --- one send -----------------------------------------------------------------------------

  lemma {:induction false} LastAttemptLatest(gap: int, log: seq<Delivery>, id: EventId, channel: Channel)
    requires Spaced(gap, log)
    ensures var last := LastAttempt(log, id, channel);
            last.Some? ==> forall d | d in log && Attempt(d, id, channel) :: d.at <= last.value.at
  {
    if log != [] {
      var n := |log| - 1;
      var init := log[..n];
      if Attempt(log[n], id, channel) {
        forall d | d in log && Attempt(d, id, channel) ensures d.at <= log[n].at {
          var i :| 0 <= i < |log| && log[i] == d;
          assert i < n ==> SameTarget(log[i], log[n]);
        }
      } else {
        LastAttemptLatest(gap, init, id, channel);
        forall d | d in log && Attempt(d, id, channel) ensures d in init {
          var i :| 0 <= i < |log| && log[i] == d;
          assert i < n && init[i] == d;
        }
      }
    }
  }

  /** A send keeps the spacing if nothing was attempted for its event since the evaluation began. */
  lemma SendKeepsSpaced(cfg: Settings, drift: nat, world: World, log: seq<Delivery>, id: EventId, channel: Channel,
                        force: bool)
    requires Spaced(Repeat(cfg) - drift, log) && Steady(world, drift)
    requires forall d | d in log && Attempt(d, id, channel) :: d.at < world.start(id)
    requires force ==> LastAttempt(log, id, channel).None?
    ensures Spaced(Repeat(cfg) - drift, log + [DeliverOne(cfg, world, log, id, channel, force)])
  {
    hide LastAttempt, Repeat;
    var e := DeliverOne(cfg, world, log, id, channel, force);
    var all := log + [e];
    LastAttemptLatest(Repeat(cfg) - drift, log, id, channel);
    forall i, j | 0 <= i < j < |all| && SameTarget(all[i], all[j])
      ensures all[i].at < all[j].at && all[j].at - all[i].at >= Repeat(cfg) - drift
    {
      if j < |log| {
        assert all[i] == log[i] && all[j] == log[j];
      } else {
        assert all[i] == log[i] && log[i] in log && Attempt(log[i], id, channel);
        assert world.check((id, channel)) <= world.start(id) + drift;
      }
    }
  }

  /** Sending an event over n channels adds one record of the event for each of them. */
  lemma {:induction false} DeliverToAdds(cfg: Settings, world: World, log: seq<Delivery>, id: EventId, force: bool,
                                         n: nat)
    returns (added: seq<Delivery>)
    requires n <= |world.channels|
    ensures DeliverTo(cfg, world, log, id, force, n) == log + added && |added| == n
    ensures forall i | 0 <= i < n ::
              added[i].eventId == id && added[i].channel == world.channels[i] && added[i].at == world.start(id)
  {
    hide LastAttempt;
    if n == 0 {
      added := [];
    } else {
      var before := DeliverTo(cfg, world, log, id, force, n - 1);
      var earlier := DeliverToAdds(cfg, world, log, id, force, n - 1);
      added := earlier + [DeliverOne(cfg, world, before, id, world.channels[n - 1], force)];
    }
  }

  ghost predicate DistinctChannels(world: World)
  {
    forall i, j | 0 <= i < j < |world.channels| :: world.channels[i] != world.channels[j]
  }

  /** By the time a channel's turn comes, the event has been sent over other channels only. */
  lemma EarlierChannels(cfg: Settings, world: World, log: seq<Delivery>, id: EventId, force: bool, n: nat)
    requires n < |world.channels| && DistinctChannels(world)
    ensures forall d | d in DeliverTo(cfg, world, log, id, force, n) && d.channel == world.channels[n] :: d in log
  {
    hide DeliverTo;
    var before := DeliverTo(cfg, world, log, id, force, n);
    var added := DeliverToAdds(cfg, world, log, id, force, n);
    forall d | d in added ensures d.channel != world.channels[n] {
      var i :| 0 <= i < n && added[i] == d;
    }
  }

  ghost predicate Quiet(log: seq<Delivery>, id: EventId, t: Time, force: bool)
  {
    forall d | d in log && d.eventId == id :: !force && (Attempted(d) ==> d.at < t)
  }

  lemma {:induction false} DeliverKeepsSpaced(cfg: Settings, drift: nat, world: World, log: seq<Delivery>, id: EventId,
                                              force: bool, n: nat)
    requires Spaced(Repeat(cfg) - drift, log) && Steady(world, drift) && n <= |world.channels|
    requires Quiet(log, id, world.now, force)
    ensures Spaced(Repeat(cfg) - drift, DeliverTo(cfg, world, log, id, force, n))
  {
    hide Repeat, DeliverOne, Spaced, DistinctChannels;
    if n > 0 {
      var channel := world.channels[n - 1];
      var before := DeliverTo(cfg, world, log, id, force, n - 1);
      DeliverKeepsSpaced(cfg, drift, world, log, id, force, n - 1);
      EarlierChannels(cfg, world, log, id, force, n - 1);
      assert world.now <= world.start(id);
      SendKeepsSpaced(cfg, drift, world, before, id, channel, force);
    }
  }

  /** Forcing the first send of an event overrides nothing: no attempt has been made that could suppress it. */
  lemma {:induction false} ForceChangesNothing(cfg: Settings, world: World, log: seq<Delivery>, id: EventId, n: nat)
    requires n <= |world.channels| && DistinctChannels(world)
    requires forall d | d in log :: d.eventId != id
    ensures DeliverTo(cfg, world, log, id, true, n) == DeliverTo(cfg, world, log, id, false, n)
  {
    hide Repeat, DistinctChannels;
    if n > 0 {
      var channel := world.channels[n - 1];
      var before := DeliverTo(cfg, world, log, id, false, n - 1);
      ForceChangesNothing(cfg, world, log, id, n - 1);
      EarlierChannels(cfg, world, log, id, false, n - 1);
    }
  }

  /**
   One send against everything logged: its record lies closer to some attempt than the repeat setting
   exactly when its stamp does, and the later reading that decides lies clear of every attempt.
   */
  lemma SpacingOfOneSend(cfg: Settings, world: World, gap: int, log: seq<Delivery>, id: EventId, channel: Channel)
    requires Spaced(gap, log)
    ensures var d := DeliverOne(cfg, world, log, id, channel, false);
            Attempted(d) && (exists e | e in log :: Attempt(e, id, channel) && d.at - e.at < Repeat(cfg)) <==>
            && (exists e | e in log :: Attempt(e, id, channel) && world.start(id) - e.at < Repeat(cfg))
            && (forall e | e in log && Attempt(e, id, channel) :: world.check((id, channel)) - e.at >= Repeat(cfg))
  {
    hide LastAttempt, Repeat, Spaced;
    LastAttemptLatest(gap, log, id, channel);
  }

  /** Some attempt at the event over the channel lies less than the setting before the reading that decides. */
  ghost predicate TooSoon(cfg: Settings, world: World, log: seq<Delivery>, id: EventId, channel: Channel)
  {
    exists d | d in log && Attempt(d, id, channel) ::
      var elapsed := world.check((id, channel)) - d.at;
      elapsed < 0 || elapsed < cfg.repeatSeconds * cfg.ticks
  }

  lemma LastDecides(cfg: Settings, world: World, gap: int, log: seq<Delivery>, id: EventId, channel: Channel)
    requires Spaced(gap, log)
    ensures var last := LastAttempt(log, id, channel);
            last.Some? && world.check((id, channel)) - last.value.at < Repeat(cfg) <==>
            TooSoon(cfg, world, log, id, channel)
  {
    hide LastAttempt, Spaced;
    LastAttemptLatest(gap, log, id, channel);
  }

  /**
   The record of one channel: suppressed if and only if it is not forced and some attempt lies too shortly
   before; otherwise delivered if and only if the send works.
   */
  ghost predicate RecordFits(cfg: Settings, world: World, log: seq<Delivery>, id: EventId, force: bool, n: nat,
                             d: Delivery)
    requires n < |world.channels|
  {
    var channel := world.channels[n];
    && d.eventId == id && d.channel == channel && d.at == world.start(id) && d.number == |log| + n
    && (d.status == Suppressed <==> !force && TooSoon(cfg, world, log, id, channel))
    && (d.status == Delivered <==> d.status != Suppressed && world.works((id, channel)))
    && (d.status == DeliveryFailed <==> d.status != Suppressed && !world.works((id, channel)))
  }

  ghost predicate Sent(cfg: Settings, world: World, log: seq<Delivery>, id: EventId, force: bool, n: nat,
                       after: seq<Delivery>)
    requires n <= |world.channels|
  {
    && |after| == |log| + n && after[..|log|] == log
    && forall i | |log| <= i < |after| :: RecordFits(cfg, world, log, id, force, i - |log|, after[i])
  }

  /** A send adds one fitting record per enabled channel, in order, and nothing else. */
  lemma {:induction false} SendRecords(cfg: Settings, world: World, gap: int, log: seq<Delivery>, id: EventId,
                                       force: bool, n: nat)
    requires Spaced(gap, log) && DistinctChannels(world) && n <= |world.channels|
    ensures Sent(cfg, world, log, id, force, n, DeliverTo(cfg, world, log, id, force, n))
  {
    hide Spaced, DistinctChannels, DeliverOne, RecordFits;
    if n > 0 {
      var before := DeliverTo(cfg, world, log, id, force, n - 1);
      SendRecords(cfg, world, gap, log, id, force, n - 1);
      NextRecord(cfg, world, gap, log, id, force, n - 1, before);
    }
  }

  lemma NextRecord(cfg: Settings, world: World, gap: int, log: seq<Delivery>, id: EventId, force: bool, n: nat,
                   before: seq<Delivery>)
    requires Spaced(gap, log) && DistinctChannels(world) && n < |world.channels|
    requires Sent(cfg, world, log, id, force, n, before)
    ensures RecordFits(cfg, world, log, id, force, n, DeliverOne(cfg, world, before, id, world.channels[n], force))
  {
    hide Spaced, LastAttempt, Repeat, TooSoon;
    var channel := world.channels[n];
    forall i | |log| <= i < |before| ensures !Attempt(before[i], id, channel) {
      assert RecordFits(cfg, world, log, id, force, i - |log|, before[i]);
    }
    LastDecides(cfg, world, gap, log, id, channel);
    SameLastAttempt(log, before, id, channel);
  }

  /** Records of other channels do not change what the last attempt was. */
  lemma {:induction false} SameLastAttempt(log: seq<Delivery>, grown: seq<Delivery>, id: EventId, channel: Channel)
    requires |log| <= |grown| && grown[..|log|] == log
    requires forall i | |log| <= i < |grown| :: !Attempt(grown[i], id, channel)
    ensures LastAttempt(grown, id, channel) == LastAttempt(log, id, channel)
    decreases |grown|
  {
    if |grown| > |log| {
      assert grown[..|grown| - 1][..|log|] == log;
      SameLastAttempt(log, grown[..|grown| - 1], id, channel);
    } else {
      assert grown == log;
    }
  }

  // --- one evaluation -----------------------------------------------------------------------

  ghost predicate Known(log: seq<Delivery>, events: seq<Incident>)
  {
    forall d | d in log :: Knows(events, d.eventId)
  }

  /** Attempts of the evaluation under way carry its stamps and are for fingerprints already dealt with. */
  ghost predicate Stamped(world: World, log: seq<Delivery>, begun: set<Fingerprint>, ended: set<Fingerprint>)
  {
    forall d | d in log && Attempted(d) :: d.at < world.now || Current(world, d, begun, ended)
  }

  ghost predicate Current(world: World, d: Delivery, begun: set<Fingerprint>, ended: set<Fingerprint>)
  {
    d.at == world.start(d.eventId) && d.eventId.fingerprint in (if d.eventId.recovery then ended else begun)
  }

  ghost predicate Log(gap: int, world: World, st: Ledger, begun: set<Fingerprint>, ended: set<Fingerprint>)
  {
    Spaced(gap, st.deliveries) && Known(st.deliveries, st.events) && Stamped(world, st.deliveries, begun, ended)
  }

  lemma StampedSend(cfg: Settings, world: World, log: seq<Delivery>, id: EventId, force: bool,
                    begun: set<Fingerprint>, ended: set<Fingerprint>, begun2: set<Fingerprint>,
                    ended2: set<Fingerprint>)
    requires Stamped(world, log, begun, ended) && begun <= begun2 && ended <= ended2
    requires id.fingerprint in (if id.recovery then ended2 else begun2)
    ensures Stamped(world, Deliver(cfg, world, log, id, force), begun2, ended2)
  {
    hide DeliverTo;
    var added := DeliverToAdds(cfg, world, log, id, force, |world.channels|);
    forall d | d in added ensures Current(world, d, begun2, ended2) {
      var i :| 0 <= i < |added| && added[i] == d;
    }
  }

  lemma KnownSend(cfg: Settings, world: World, log: seq<Delivery>, id: EventId, force: bool,
                  events: seq<Incident>, events2: seq<Incident>)
    requires Known(log, events) && Knows(events2, id) && forall x | Knows(events, x) :: Knows(events2, x)
    ensures Known(Deliver(cfg, world, log, id, force), events2)
  {
    hide DeliverTo, Knows;
    var added := DeliverToAdds(cfg, world, log, id, force, |world.channels|);
    forall d | d in added ensures d.eventId == id {
      var i :| 0 <= i < |added| && added[i] == d;
    }
  }

  lemma QuietSend(world: World, log: seq<Delivery>, id: EventId, force: bool, begun: set<Fingerprint>,
                  ended: set<Fingerprint>)
    requires Stamped(world, log, begun, ended) && id.fingerprint !in (if id.recovery then ended else begun)
    requires force ==> forall d | d in log :: d.eventId != id
    ensures Quiet(log, id, world.now, force)
  {
  }

  lemma NewIsUnknown(log: seq<Delivery>, events: seq<Incident>, id: EventId)
    requires Known(log, events) && forall i | 0 <= i < |events| :: events[i].id != id
    ensures forall d | d in log :: d.eventId != id
  {
  }

  lemma SameKnowledge(events: seq<Incident>, x: Incident, id: EventId)
    ensures Knows(ReplaceById(events, x), id) <==> Knows(events, id)
  {
    var r := ReplaceById(events, x);
    forall i | 0 <= i < |events| ensures r[i].id == events[i].id {
    }
    if Knows(events, id) {
      var i :| 0 <= i < |events| && events[i].id == id;
      assert r[i].id == id;
    }
  }

  lemma MoreKnowledge(events: seq<Incident>, e: Incident)
    ensures Knows(events + [e], e.id) && forall id | Knows(events, id) :: Knows(events + [e], id)
  {
    var all := events + [e];
    assert all[|events|].id == e.id;
    forall id | Knows(events, id) ensures Knows(all, id) {
      var i :| 0 <= i < |events| && events[i].id == id;
      assert all[i].id == id;
    }
  }

  lemma RepeatKeepsLog(cfg: Settings, drift: nat, world: World, st: Ledger, k: Fingerprint, s: Standing,
                       begun: set<Fingerprint>, ended: set<Fingerprint>)
    requires Steady(world, drift) && Open(st.active, st.events) && k in st.active && k !in begun
    requires Log(Repeat(cfg) - drift, world, st, begun, ended)
    ensures Log(Repeat(cfg) - drift, world, ActOn(cfg, world, st, k, s), begun + {k}, ended)
  {
    hide Open, Steady, Spaced, Known, Stamped, Repeat, DeliverTo, Knows, RuleOf, ReplaceById;
    OpenDates(st.active, st.events, k);
    StampedMore(world, st.deliveries, begun, ended, k);
    if !s.preserveOnly {
      var id := st.active[k].id;
      var x := st.active[k].(lastSeen := world.now, occurrences := st.active[k].occurrences + 1);
      var events2 := ReplaceById(st.events, x);
      forall y ensures Knows(events2, y) <==> Knows(st.events, y) {
        SameKnowledge(st.events, x, y);
      }
      KnownSame(st.deliveries, st.events, events2);
      InEvents(st.events, st.active[k]);
      QuietSend(world, st.deliveries, id, false, begun, ended);
      DeliverKeepsSpaced(cfg, drift, world, st.deliveries, id, false, |world.channels|);
      KnownSend(cfg, world, st.deliveries, id, false, st.events, events2);
      StampedSend(cfg, world, st.deliveries, id, false, begun, ended, begun + {k}, ended);
    }
  }

  lemma StampedMore(world: World, log: seq<Delivery>, begun: set<Fingerprint>, ended: set<Fingerprint>, k: Fingerprint)
    requires Stamped(world, log, begun, ended)
    ensures Stamped(world, log, begun + {k}, ended)
  {
  }

  lemma KnownSame(log: seq<Delivery>, events: seq<Incident>, events2: seq<Incident>)
    requires Known(log, events) && forall y | Knows(events, y) :: Knows(events2, y)
    ensures Known(log, events2)
  {
  }

  lemma InEvents(events: seq<Incident>, e: Incident)
    requires e in events
    ensures Knows(events, e.id)
  {
    var i :| 0 <= i < |events| && events[i] == e;
  }

  lemma OpeningKeepsLog(cfg: Settings, drift: nat, world: World, st: Ledger, k: Fingerprint, s: Standing,
                        begun: set<Fingerprint>, ended: set<Fingerprint>)
    requires Steady(world, drift) && Dated(st.events, world.now, begun, ended) && k !in st.active && k !in begun
    requires s.condition.fingerprint == k && Log(Repeat(cfg) - drift, world, st, begun, ended)
    ensures Log(Repeat(cfg) - drift, world, ActOn(cfg, world, st, k, s), begun + {k}, ended)
  {
    hide Dated, Steady, Spaced, Known, Stamped, Repeat, DeliverTo, Knows;
    var x := Opened(s.condition, world.now);
    NewId(st.events, world.now, begun, ended, x.id);
    NewIsUnknown(st.deliveries, st.events, x.id);
    MoreKnowledge(st.events, x);
    QuietSend(world, st.deliveries, x.id, true, begun, ended);
    DeliverKeepsSpaced(cfg, drift, world, st.deliveries, x.id, true, |world.channels|);
    KnownSend(cfg, world, st.deliveries, x.id, true, st.events, st.events + [x]);
    StampedSend(cfg, world, st.deliveries, x.id, true, begun, ended, begun + {k}, ended);
  }

  lemma CloseKeepsLog(cfg: Settings, drift: nat, world: World, st: Ledger, k: Fingerprint,
                      begun: set<Fingerprint>, ended: set<Fingerprint>)
    requires Steady(world, drift) && Dated(st.events, world.now, begun, ended) && Open(st.active, st.events)
    requires k in st.active && k !in ended && Log(Repeat(cfg) - drift, world, st, begun, ended)
    ensures Log(Repeat(cfg) - drift, world, Close(cfg, world, st, k), begun, ended + {k})
  {
    hide Dated, Open, Steady, Spaced, Known, Stamped, Repeat, DeliverTo, Knows, RuleOf, ReplaceById;
    OpenDates(st.active, st.events, k);
    var x := st.active[k].(active := false, lastSeen := world.now);
    var r := RecoveryEvent(x, world.now);
    var replaced := ReplaceById(st.events, x);
    forall y ensures Knows(replaced, y) <==> Knows(st.events, y) {
      SameKnowledge(st.events, x, y);
    }
    KnownSame(st.deliveries, st.events, replaced);
    ReplaceKeepsDated(st.events, x, world.now, begun, ended);
    NewId(replaced, world.now, begun, ended, r.id);
    NewIsUnknown(st.deliveries, replaced, r.id);
    MoreKnowledge(replaced, r);
    QuietSend(world, st.deliveries, r.id, true, begun, ended);
    DeliverKeepsSpaced(cfg, drift, world, st.deliveries, r.id, true, |world.channels|);
    KnownSend(cfg, world, st.deliveries, r.id, true, replaced, replaced + [r]);
    StampedSend(cfg, world, st.deliveries, r.id, true, begun, ended, begun, ended + {k});
  }
}
