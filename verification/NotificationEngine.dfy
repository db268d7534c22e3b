/** The notification engine and its store: every operation does what the ledger's steps say. */
module NotificationEngines {
  import opened Options
  import opened Ordering
  import opened SortedKeys
  import opened NotificationRules
  import opened Incidents

  class NotificationStore {
    var state: Ledger

    constructor ()
      ensures state == EMPTY
    {
      state := EMPTY;
    }

    method Write(cfg: Settings, value: Ledger)
      modifies this
      ensures state == Stored(cfg, value) && state.active == value.active
      ensures Sorted(EventOrder(cfg), state.events) && multiset(state.events) == multiset(value.events)
      ensures Sorted(DeliveryOrder(cfg), state.deliveries) && multiset(state.deliveries) == multiset(value.deliveries)
    {
      hide Sort;
      StoreOrders(cfg);
      SortSorts(EventOrder(cfg), value.events);
      SortSorts(DeliveryOrder(cfg), value.deliveries);
      state := Ledger(value.active, Sort(EventOrder(cfg), value.events), Sort(DeliveryOrder(cfg), value.deliveries));
    }

    /** Marks the event, in the list and where it is open, and notes the acknowledgement. */
    method AcknowledgeEvent(cfg: Settings, id: EventId, at: Time) returns (found: bool)
      modifies this
      ensures state == Acknowledge(cfg, old(state), id, at)
      ensures found == Knows(old(state.events), id)
    {
      hide AckEvents, AckActive, Knows, Sort;
      var events;
      events, found := MarkEvents(state.events, id, at);
      var active := MarkActive(state.active, id, at);
      if found {
        Write(cfg, Ledger(active, events,
                          state.deliveries + [Delivery(id, Operator, Acknowledged, at, |state.deliveries|)]));
      }
    }
  }

  method MarkEvents(events: seq<Incident>, id: EventId, at: Time) returns (marked: seq<Incident>, found: bool)
    ensures marked == AckEvents(events, id, at) && found == Knows(events, id)
  {
    hide Knows;
    marked, found := events, false;
    NothingKnown(events, id);
    for i := 0 to |marked|
      invariant |marked| == |events|
      invariant forall j | 0 <= j < |marked| :: marked[j] == if j < i then Acked(events[j], id, at) else events[j]
      invariant found == Knows(events[..i], id)
    {
      var value := marked[i];
      KnowsSnoc(events, i, id);
      if value.id == id {
        marked := marked[i := value.(acknowledged := Some(at))];
        found := true;
      }
    }
    assert events[..|events|] == events;
  }

  method MarkActive(active: map<Fingerprint, Incident>, id: EventId, at: Time)
    returns (marked: map<Fingerprint, Incident>)
    ensures marked == AckActive(active, id, at)
  {
    hide Ascending;
    marked := active;
    var keys := Ascending(active.Keys);
    for i := 0 to |keys|
      invariant marked.Keys == active.Keys
      invariant forall k | k in marked :: marked[k] == if k in keys[..i] then Acked(active[k], id, at) else active[k]
    {
      var key := keys[i];
      assert key in keys && key !in keys[..i];
      if marked[key].id == id {
        marked := marked[key := marked[key].(acknowledged := Some(at))];
      }
      assert keys[..i + 1] == keys[..i] + [key];
    }
    assert keys[..|keys|] == keys;
  }

  lemma NothingKnown(events: seq<Incident>, id: EventId)
    ensures !Knows(events[..0], id)
  {
  }

  lemma KnowsSnoc(events: seq<Incident>, i: nat, id: EventId)
    requires i < |events|
    ensures Knows(events[..i + 1], id) <==> Knows(events[..i], id) || events[i].id == id
  {
    var shorter, longer := events[..i], events[..i + 1];
    if Knows(shorter, id) {
      var j :| 0 <= j < |shorter| && shorter[j].id == id;
      assert longer[j].id == id;
    }
    if events[i].id == id {
      assert longer[i].id == id;
    }
    if Knows(longer, id) {
      var j :| 0 <= j < |longer| && longer[j].id == id;
      assert j < i ==> shorter[j].id == id;
    }
  }

  method ReplaceEvents(events: seq<Incident>, x: Incident) returns (r: seq<Incident>)
    ensures r == ReplaceById(events, x)
  {
    r := events;
    for i := 0 to |r|
      invariant |r| == |events|
      invariant forall j | 0 <= j < |r| :: r[j] == if j < i && events[j].id == x.id then x else events[j]
    {
      if r[i].id == x.id {
        r := r[i := x];
      }
    }
  }

  /** Of conditions with one fingerprint, the last counts. */
  method Index(conditions: seq<Condition>) returns (found: map<Fingerprint, Standing>)
    ensures found == ByFingerprint(conditions)
  {
    hide ByFingerprint;
    found := map[];
    NothingIndexed();
    for i := 0 to |conditions|
      invariant found == ByFingerprint(conditions[..i])
    {
      IndexNext(conditions, i);
      found := found[conditions[i].fingerprint := Standing(conditions[i], false)];
    }
    assert conditions[..|conditions|] == conditions;
  }

  lemma NothingIndexed()
    ensures ByFingerprint([]) == map[]
  {
  }

  lemma IndexNext(conditions: seq<Condition>, i: nat)
    requires i < |conditions|
    ensures ByFingerprint(conditions[..i + 1])
         == ByFingerprint(conditions[..i])[conditions[i].fingerprint := Standing(conditions[i], false)]
  {
    assert conditions[..i + 1][..i] == conditions[..i];
  }

  ghost function Among(active: map<Fingerprint, Incident>, done: set<Fingerprint>): map<Fingerprint, Incident>
  {
    map k | k in active && k in done :: active[k]
  }

  lemma DoctorUnseen(found: map<Fingerprint, Standing>, active: map<Fingerprint, Incident>, done: set<Fingerprint>,
                     key: Fingerprint)
    requires key !in done
    ensures var before := WithDoctor(found, Among(active, done));
            (key in before <==> key in found) && (key in found ==> before[key] == found[key])
  {
  }

  lemma OtherStep(found: map<Fingerprint, Standing>, active: map<Fingerprint, Incident>, done: set<Fingerprint>,
                  key: Fingerprint)
    requires key in active && active[key].source != "doctor"
    ensures WithDoctor(found, Among(active, done + {key})) == WithDoctor(found, Among(active, done))
  {
    var a, b := Among(active, done), Among(active, done + {key});
    forall k ensures k in b && b[k].source == "doctor" <==> k in a && a[k].source == "doctor" {
    }
  }

  lemma DoctorStep(found: map<Fingerprint, Standing>, active: map<Fingerprint, Incident>, done: set<Fingerprint>,
                   key: Fingerprint)
    requires key in active && active[key].source == "doctor"
    ensures WithDoctor(found, Among(active, done + {key})) == WithDoctor(found, Among(active, done))[
              key := Standing(if key in found then found[key].condition else Restated(active[key]), true)]
  {
    var a, b := Among(active, done), Among(active, done + {key});
    forall k | k != key ensures k in b && b[k].source == "doctor" <==> k in a && a[k].source == "doctor" {
    }
    hide Restated;
  }

  method PreserveDoctor(found: map<Fingerprint, Standing>, active: map<Fingerprint, Incident>)
    returns (standing: map<Fingerprint, Standing>)
    ensures standing == WithDoctor(found, active)
  {
    hide Ascending, WithDoctor, Among, Restated;
    standing := found;
    var keys := Ascending(active.Keys);
    ghost var done: set<Fingerprint> := {};
    NoneAmong(found, active);
    for i := 0 to |keys|
      invariant done == set k | k in keys[..i]
      invariant standing == WithDoctor(found, Among(active, done))
    {
      var key := keys[i];
      assert key in keys && key !in keys[..i];
      DoctorUnseen(found, active, done, key);
      if active[key].source == "doctor" {
        DoctorStep(found, active, done, key);
        if key !in standing {
          standing := standing[key := Standing(Restated(active[key]), false)];
        }
        standing := standing[key := Standing(standing[key].condition, true)];
      } else {
        OtherStep(found, active, done, key);
      }
      done := done + {key};
      assert keys[..i + 1] == keys[..i] + [key];
    }
    assert keys[..|keys|] == keys;
    AllAmong(active, done);
  }

  lemma NoneAmong(found: map<Fingerprint, Standing>, active: map<Fingerprint, Incident>)
    ensures WithDoctor(found, Among(active, {})) == found
  {
  }

  lemma AllAmong(active: map<Fingerprint, Incident>, done: set<Fingerprint>)
    requires done == active.Keys
    ensures Among(active, done) == active
  {
  }

  datatype Report = Report(
    enabled: bool, newEvents: seq<Incident>, recoveries: seq<Incident>, deliveries: seq<Delivery>, activeCount: nat)

  /** Acting on one condition touches no other incident and only adds to the deliveries. */
  lemma ActOnMoves(cfg: Settings, world: World, st: Ledger, k: Fingerprint, s: Standing)
    ensures var next := ActOn(cfg, world, st, k, s);
            && next.active.Keys == st.active.Keys + {k}
            && (forall x | x in st.active && x != k :: next.active[x] == st.active[x])
            && |st.deliveries| <= |next.deliveries| && next.deliveries[..|st.deliveries|] == st.deliveries
  {
    hide DeliverTo, ReplaceById;
    if k in st.active {
      DeliverGrows(cfg, world, st.deliveries, st.active[k].id, false, |world.channels|);
    } else {
      DeliverGrows(cfg, world, st.deliveries, Opened(s.condition, world.now).id, true, |world.channels|);
    }
  }

  lemma {:induction false} DeliverGrows(cfg: Settings, world: World, log: seq<Delivery>, id: EventId, force: bool,
                                        n: nat)
    requires n <= |world.channels|
    ensures |DeliverTo(cfg, world, log, id, force, n)| == |log| + n
    ensures DeliverTo(cfg, world, log, id, force, n)[..|log|] == log
  {
    hide LastAttempt;
    if n > 0 {
      DeliverGrows(cfg, world, log, id, force, n - 1);
    }
  }

  lemma CloseMoves(cfg: Settings, world: World, st: Ledger, k: Fingerprint)
    requires k in st.active
    ensures var next := Close(cfg, world, st, k);
            && (forall x | x in st.active && x != k :: x in next.active && next.active[x] == st.active[x])
            && |st.deliveries| <= |next.deliveries| && next.deliveries[..|st.deliveries|] == st.deliveries
  {
    hide DeliverTo, ReplaceById;
    DeliverGrows(cfg, world, st.deliveries, EventId(st.active[k].id.fingerprint, world.now, true), true,
                 |world.channels|);
  }

  lemma SentTogether(log: seq<Delivery>, sent: seq<Delivery>, more: seq<Delivery>)
    ensures multiset(log + sent + more) == multiset(log) + multiset(sent + more)
  {
    assert log + sent + more == log + (sent + more);
  }

  /** Where the loop over the standing conditions is after `i` of them, and what is left of it. */
  ghost predicate ActedUpTo(cfg: Settings, world: World, st: Ledger, standing: map<Fingerprint, Standing>,
                            keys: seq<Fingerprint>, i: nat, state: Ledger, newEvents: seq<Incident>,
                            sent: seq<Delivery>)
    requires i <= |keys| && forall k | k in keys :: k in standing
  {
    && ActOnAll(cfg, world, state, standing, keys[i..]) == ActOnAll(cfg, world, st, standing, keys)
    && newEvents == NewEvents(world.now, st.active, standing, keys[..i])
    && state.deliveries == st.deliveries + sent
    && (forall k :: k in state.active <==> k in st.active || k in keys[..i])
    && (forall k | k in st.active && k !in keys[..i] :: state.active[k] == st.active[k])
  }

  lemma ActedNone(cfg: Settings, world: World, st: Ledger, standing: map<Fingerprint, Standing>, keys: seq<Fingerprint>)
    requires forall k | k in keys :: k in standing
    ensures ActedUpTo(cfg, world, st, standing, keys, 0, st, [], [])
  {
    hide ActOnAll;
    assert keys[0..] == keys;
  }

  lemma NewEventsNext(now: Time, active: map<Fingerprint, Incident>, standing: map<Fingerprint, Standing>,
                      keys: seq<Fingerprint>, i: nat)
    requires i < |keys| && forall k | k in keys :: k in standing
    ensures NewEvents(now, active, standing, keys[..i + 1])
         == NewEvents(now, active, standing, keys[..i])
            + (if keys[i] in active then [] else [Opened(standing[keys[i]].condition, now)])
  {
    assert keys[..i + 1][..i] == keys[..i];
  }

  lemma ActedKeys(before: map<Fingerprint, Incident>, after: map<Fingerprint, Incident>,
                  first: map<Fingerprint, Incident>,
                  keys: seq<Fingerprint>, i: nat)
    requires i < |keys| && Rising(keys) && after.Keys == before.Keys + {keys[i]}
    requires forall x | x in before && x != keys[i] :: after[x] == before[x]
    requires forall k :: k in before <==> k in first || k in keys[..i]
    requires forall k | k in first && k !in keys[..i] :: before[k] == first[k]
    ensures forall k :: k in after <==> k in first || k in keys[..i + 1]
    ensures forall k | k in first && k !in keys[..i + 1] :: after[k] == first[k]
    ensures keys[i] in before <==> keys[i] in first
  {
    assert keys[i] !in keys[..i];
    assert keys[..i + 1] == keys[..i] + [keys[i]];
  }

  lemma ActedNext(cfg: Settings, world: World, st: Ledger, standing: map<Fingerprint, Standing>,
                  keys: seq<Fingerprint>, i: nat, before: Ledger, newEvents: seq<Incident>, sent: seq<Delivery>)
    requires i < |keys| && Rising(keys) && forall k | k in keys :: k in standing
    requires ActedUpTo(cfg, world, st, standing, keys, i, before, newEvents, sent)
    ensures var state := ActOn(cfg, world, before, keys[i], standing[keys[i]]);
            && |before.deliveries| <= |state.deliveries|
            && ActedUpTo(cfg, world, st, standing, keys, i + 1, state,
                         if keys[i] in before.active then newEvents
                         else newEvents + [Opened(standing[keys[i]].condition, world.now)],
                         sent + state.deliveries[|before.deliveries|..])
  {
    hide ActOn, Opened, ActOnAll, NewEvents, Rising;
    var after := ActOn(cfg, world, before, keys[i], standing[keys[i]]);
    ActOnMoves(cfg, world, before, keys[i], standing[keys[i]]);
    ActOnStep(cfg, world, before, standing, keys, i);
    NewEventsNext(world.now, st.active, standing, keys, i);
    ActedKeys(before.active, after.active, st.active, keys, i);
    assert after.deliveries == before.deliveries + after.deliveries[|before.deliveries|..];
  }

  lemma ActOnStep(cfg: Settings, world: World, st: Ledger, standing: map<Fingerprint, Standing>,
                  keys: seq<Fingerprint>, i: nat)
    requires i < |keys| && forall k | k in keys :: k in standing
    ensures ActOnAll(cfg, world, st, standing, keys[i..])
         == ActOnAll(cfg, world, ActOn(cfg, world, st, keys[i], standing[keys[i]]), standing, keys[i + 1..])
  {
    hide ActOn;
    assert keys[i..][0] == keys[i] && keys[i..][1..] == keys[i + 1..];
  }

  lemma ActedAll(cfg: Settings, world: World, st: Ledger, standing: map<Fingerprint, Standing>,
                 keys: seq<Fingerprint>, state: Ledger, newEvents: seq<Incident>, sent: seq<Delivery>)
    requires forall k :: k in keys <==> k in standing
    requires ActedUpTo(cfg, world, st, standing, keys, |keys|, state, newEvents, sent)
    ensures state == ActOnAll(cfg, world, st, standing, keys)
    ensures newEvents == NewEvents(world.now, st.active, standing, keys) && state.deliveries == st.deliveries + sent
    ensures forall k | k in st.active && k !in standing :: k in state.active && state.active[k] == st.active[k]
  {
    assert keys[..|keys|] == keys && keys[|keys|..] == [];
  }

  /** The same of the loop over the incidents that were open before. */
  ghost predicate ClosedUpTo(cfg: Settings, world: World, acted: Ledger, previous: map<Fingerprint, Incident>,
                             standing: map<Fingerprint, Standing>, keys: seq<Fingerprint>, i: nat, state: Ledger,
                             recoveries: seq<Incident>, sent: seq<Delivery>)
    requires i <= |keys| && forall k | k in keys :: k in previous
  {
    && CloseAll(cfg, world, state, Except(keys[i..], standing.Keys))
       == CloseAll(cfg, world, acted, Except(keys, standing.Keys))
    && recoveries == Recoveries(world.now, previous, standing, keys[..i])
    && state.deliveries == acted.deliveries + sent
    && (forall j | i <= j < |keys| && keys[j] !in standing ::
          keys[j] in state.active && keys[j] in previous && state.active[keys[j]] == previous[keys[j]])
  }

  lemma ClosedNone(cfg: Settings, world: World, acted: Ledger, previous: map<Fingerprint, Incident>,
                   standing: map<Fingerprint, Standing>, keys: seq<Fingerprint>)
    requires forall k | k in keys :: k in previous
    requires forall k | k in previous && k !in standing :: k in acted.active && acted.active[k] == previous[k]
    ensures ClosedUpTo(cfg, world, acted, previous, standing, keys, 0, acted, [], [])
  {
    hide CloseAll, Except;
    assert keys[0..] == keys;
    forall j | 0 <= j < |keys| && keys[j] !in standing
      ensures keys[j] in acted.active && keys[j] in previous && acted.active[keys[j]] == previous[keys[j]]
    {
      var k := keys[j];
      assert k in keys && k in previous;
    }
  }

  lemma ClosedNext(cfg: Settings, world: World, acted: Ledger, previous: map<Fingerprint, Incident>,
                   standing: map<Fingerprint, Standing>, keys: seq<Fingerprint>, i: nat, before: Ledger,
                   recoveries: seq<Incident>, sent: seq<Delivery>)
    requires i < |keys| && Rising(keys) && forall k | k in keys :: k in previous
    requires ClosedUpTo(cfg, world, acted, previous, standing, keys, i, before, recoveries, sent)
    ensures keys[i] in previous
    ensures keys[i] in standing ==>
              ClosedUpTo(cfg, world, acted, previous, standing, keys, i + 1, before, recoveries, sent)
    ensures keys[i] !in standing ==>
              var state := Close(cfg, world, before, keys[i]);
              && |before.deliveries| <= |state.deliveries|
              && ClosedUpTo(cfg, world, acted, previous, standing, keys, i + 1, state,
                            recoveries + [RecoveryEvent(previous[keys[i]].(active := false, lastSeen := world.now),
                                                        world.now)],
                            sent + state.deliveries[|before.deliveries|..])
  {
    hide Close, RecoveryEvent, Except, CloseAll;
    var k := keys[i];
    assert k in keys && keys[..i + 1][..i] == keys[..i];
    CloseStep(cfg, world, before, standing, keys, i);
    if k !in standing {
      CloseMoves(cfg, world, before, k);
      var after := Close(cfg, world, before, k);
      assert after.deliveries == before.deliveries + after.deliveries[|before.deliveries|..];
    }
  }

  lemma CloseStep(cfg: Settings, world: World, st: Ledger, standing: map<Fingerprint, Standing>,
                  keys: seq<Fingerprint>, i: nat)
    requires i < |keys|
    ensures CloseAll(cfg, world, st, Except(keys[i..], standing.Keys))
         == CloseAll(cfg, world, if keys[i] in standing then st else Close(cfg, world, st, keys[i]),
                     Except(keys[i + 1..], standing.Keys))
  {
    hide Close;
    assert keys[i..][0] == keys[i] && keys[i..][1..] == keys[i + 1..];
    ExceptStep(keys[i..], standing.Keys);
    hide Except;
  }

  lemma ClosedEnd(cfg: Settings, world: World, acted: Ledger, previous: map<Fingerprint, Incident>,
                  standing: map<Fingerprint, Standing>, keys: seq<Fingerprint>, state: Ledger,
                  recoveries: seq<Incident>, sent: seq<Delivery>)
    requires keys == Ascending(previous.Keys)
    requires ClosedUpTo(cfg, world, acted, previous, standing, keys, |keys|, state, recoveries, sent)
    ensures state == CloseAll(cfg, world, acted, Ascending(previous.Keys - standing.Keys))
    ensures recoveries == Recoveries(world.now, previous, standing, keys) && state.deliveries == acted.deliveries + sent
  {
    hide Ascending;
    assert keys[..|keys|] == keys && keys[|keys|..] == [];
    ExceptAscending(previous.Keys, standing.Keys);
  }

  class NotificationEngine {
    const cfg: Settings
    const enabled: bool
    const store: NotificationStore

    constructor (cfg: Settings, enabled: bool)
      ensures this.cfg == cfg && this.enabled == enabled && fresh(store) && store.state == EMPTY
    {
      this.cfg := cfg;
      this.enabled := enabled;
      store := new NotificationStore();
    }

    /** Sends an event over every enabled channel, unless it was attempted there a short while ago. */
    method Send(world: World, deliveries: seq<Delivery>, id: EventId, force: bool) returns (log: seq<Delivery>)
      ensures log == Deliver(cfg, world, deliveries, id, force)
    {
      var now := world.start(id);
      var repeat := if cfg.repeatSeconds > 0 then cfg.repeatSeconds * cfg.ticks else 0;
      log := deliveries;
      for n := 0 to |world.channels|
        invariant log == DeliverTo(cfg, world, deliveries, id, force, n)
      {
        var channel := world.channels[n];
        var previous := LastAttempt(log, id, channel);
        var suppressed := false;
        if previous.Some? && !force {
          suppressed := world.check((id, channel)) - previous.value.at < repeat;
        }
        var status := Suppressed;
        if !suppressed {
          if world.works((id, channel)) {
            status := Delivered;
          } else {
            status := DeliveryFailed;
          }
        }
        log := log + [Delivery(id, channel, status, now, |log|)];
      }
    }

    method FindStanding(active: map<Fingerprint, Incident>, status: Status, doctor: Option<seq<Check>>)
      returns (standing: map<Fingerprint, Standing>)
      ensures standing == StandingConditions(cfg, active, status, doctor)
    {
      hide Conditions, ByFingerprint, WithDoctor;
      var conditions := EvaluateConditions(cfg.digest, status, doctor, StaleAfter(cfg));
      standing := Index(conditions);
      if doctor.None? {
        standing := PreserveDoctor(standing, active);
      }
      standing := Filtered(cfg, standing);
    }

    /** One evaluation; a disabled engine leaves the store alone and reports nothing. */
    method Evaluate(world: World, status: Status, doctor: Option<seq<Check>>) returns (report: Report)
      modifies store
      ensures store.state == if enabled then Evaluated(cfg, world, old(store.state), status, doctor)
              else old(store.state)
      ensures !enabled ==> report == Report(false, [], [], [], 0)
      ensures enabled ==>
                var active := old(store.state.active);
                var standing := StandingConditions(cfg, active, status, doctor);
                && report.enabled && report.activeCount == |store.state.active|
                && report.newEvents == NewEvents(world.now, active, standing, Ascending(standing.Keys))
                && report.recoveries == Recoveries(world.now, active, standing, Ascending(active.Keys))
                && multiset(store.state.deliveries) ==
                multiset(old(store.state.deliveries)) + multiset(report.deliveries)
    {
      hide StandingConditions, Sort, Deliver, ReplaceById, Ascending;
      if !enabled {
        return Report(false, [], [], [], 0);
      }
      var state := store.state;
      var standing := FindStanding(state.active, status, doctor);
      var acted, newEvents, sent := ActEach(world, state, standing);
      var closed, recoveries, more := CloseEach(world, acted, state.active, standing);
      store.Write(cfg, closed);
      report := Report(true, newEvents, recoveries, sent + more, |store.state.active|);
      SentTogether(state.deliveries, sent, more);
    }

    /** The loop over the standing conditions. */
    method ActEach(world: World, st: Ledger, standing: map<Fingerprint, Standing>)
      returns (state: Ledger, newEvents: seq<Incident>, sent: seq<Delivery>)
      ensures state == ActOnAll(cfg, world, st, standing, Ascending(standing.Keys))
      ensures newEvents == NewEvents(world.now, st.active, standing, Ascending(standing.Keys))
      ensures state.deliveries == st.deliveries + sent
      ensures forall k | k in st.active && k !in standing :: k in state.active && state.active[k] == st.active[k]
    {
      hide ActedUpTo, Ascending, ActOn;
      state, newEvents, sent := st, [], [];
      var keys := Ascending(standing.Keys);
      ActedNone(cfg, world, st, standing, keys);
      for i := 0 to |keys|
        invariant ActedUpTo(cfg, world, st, standing, keys, i, state, newEvents, sent)
      {
        var before := state;
        state := Act(world, before, keys[i], standing[keys[i]]);
        ActedNext(cfg, world, st, standing, keys, i, before, newEvents, sent);
        sent := sent + state.deliveries[|before.deliveries|..];
        if keys[i] !in before.active {
          newEvents := newEvents + [Opened(standing[keys[i]].condition, world.now)];
        }
      }
      ActedAll(cfg, world, st, standing, keys, state, newEvents, sent);
    }

    /** The loop over the incidents that were open before. */
    method CloseEach(world: World, acted: Ledger, previous: map<Fingerprint, Incident>,
                     standing: map<Fingerprint, Standing>)
      returns (state: Ledger, recoveries: seq<Incident>, sent: seq<Delivery>)
      requires forall k | k in previous && k !in standing :: k in acted.active && acted.active[k] == previous[k]
      ensures state == CloseAll(cfg, world, acted, Ascending(previous.Keys - standing.Keys))
      ensures recoveries == Recoveries(world.now, previous, standing, Ascending(previous.Keys))
      ensures state.deliveries == acted.deliveries + sent
    {
      hide ClosedUpTo, Ascending, Close;
      state, recoveries, sent := acted, [], [];
      var keys := Ascending(previous.Keys);
      ClosedNone(cfg, world, acted, previous, standing, keys);
      for i := 0 to |keys|
        invariant ClosedUpTo(cfg, world, acted, previous, standing, keys, i, state, recoveries, sent)
      {
        var before := state;
        ClosedNext(cfg, world, acted, previous, standing, keys, i, before, recoveries, sent);
        if keys[i] !in standing {
          state := CloseOne(world, before, keys[i]);
          sent := sent + state.deliveries[|before.deliveries|..];
          recoveries := recoveries + [RecoveryEvent(previous[keys[i]].(active := false, lastSeen := world.now),
                                                    world.now)];
        }
      }
      ClosedEnd(cfg, world, acted, previous, standing, keys, state, recoveries, sent);
    }

    method Act(world: World, state: Ledger, k: Fingerprint, s: Standing) returns (next: Ledger)
      ensures next == ActOn(cfg, world, state, k, s)
    {
      hide Deliver, ReplaceById;
      var active, events, deliveries := state.active, state.events, state.deliveries;
      if k in active {
        if !s.preserveOnly {
          var existing := active[k].(lastSeen := world.now, occurrences := active[k].occurrences + 1);
          active := active[k := existing];
          events := ReplaceEvents(events, existing);
          if existing.acknowledged.None? {
            deliveries := Send(world, deliveries, existing.id, false);
          }
        }
      } else {
        var event := Opened(s.condition, world.now);
        active := active[k := event];
        events := events + [event];
        deliveries := Send(world, deliveries, event.id, true);
      }
      next := Ledger(active, events, deliveries);
    }

    method CloseOne(world: World, state: Ledger, k: Fingerprint) returns (next: Ledger)
      ensures next == Close(cfg, world, state, k)
    {
      hide Deliver, ReplaceById;
      next := state;
      if k in state.active {
        var incident := state.active[k].(active := false, lastSeen := world.now);
        var events := ReplaceEvents(state.events, incident);
        var recovery := RecoveryEvent(incident, world.now);
        var deliveries := Send(world, state.deliveries, recovery.id, true);
        next := Ledger(Incidents.Without(state.active, k), events + [recovery], deliveries);
      }
    }
  }

  lemma ExceptStep(keys: seq<int>, out: set<int>)
    requires keys != []
    ensures keys[0] in out ==> Except(keys, out) == Except(keys[1..], out)
    ensures keys[0] !in out ==> Except(keys, out) != [] && Except(keys, out)[0] == keys[0]
                                && Except(keys, out)[1..] == Except(keys[1..], out)
  {
  }
}
