/** What every run of evaluations and acknowledgements keeps of incidents and events. */
module IncidentLedger {
  import opened Options
  import opened Ordering
  import opened NotificationRules
  import opened Incidents

  // --- the invariant ------------------------------------------------------------------------

  /** Open incidents are as their rule says, and each is one of the events. */
  ghost predicate Open(active: map<Fingerprint, Incident>, events: seq<Incident>)
  {
    forall k | k in active ::
      && active[k].id == EventId(k, active[k].firstSeen, false)
      && active[k].active && active[k].recoveryOf.None?
      && active[k].severity == RuleOf(active[k].rule).severity && active[k].source == RuleOf(active[k].rule).source
      && active[k] in events
  }

  /** No event but the open incidents is active. */
  ghost predicate NoOtherActive(active: map<Fingerprint, Incident>, events: seq<Incident>)
  {
    forall i | 0 <= i < |events| && events[i].active ::
      events[i].id.fingerprint in active && active[events[i].id.fingerprint] == events[i]
  }

  ghost predicate UniqueEvents(events: seq<Incident>)
  {
    forall i, j | 0 <= i < j < |events| :: events[i].id != events[j].id
  }

  /** Nothing lies after `now`; at `now` only the named fingerprints opened or closed. */
  ghost predicate Dated(events: seq<Incident>, now: Time, begun: set<Fingerprint>, ended: set<Fingerprint>)
  {
    forall i | 0 <= i < |events| ::
      && events[i].firstSeen == events[i].id.firstSeen <= now
      && (events[i].firstSeen == now ==>
            events[i].id.fingerprint in (if events[i].id.recovery then ended else begun))
  }

  /** The recovery says of the incident what it was, and dates from when that was last seen, its closing. */
  predicate Tells(r: Incident, o: Incident)
  {
    && r.severity == Recovery && r.title == o.title + " recovered" && r.summary == "Recovered: " + o.summary
    && r.rule == o.rule && r.source == o.source && r.subject == o.subject
    && r.firstSeen == r.lastSeen == o.lastSeen && r.occurrences == 1
  }

  /** `o` is the opening that recovery `r` closes. */
  ghost predicate Closes(r: Incident, o: Incident)
  {
    && r.id.recovery && r.recoveryOf == Some(o.id)
    && !o.id.recovery && !o.active && o.id.fingerprint == r.id.fingerprint
    && Tells(r, o)
  }

  /** Recoveries close openings, different ones different openings; every closed opening has one. */
  ghost predicate Paired(events: seq<Incident>)
  {
    && (forall i | 0 <= i < |events| :: events[i].id.recovery <==> events[i].recoveryOf.Some?)
    && (forall i | 0 <= i < |events| && events[i].id.recovery :: !events[i].active && ClosesSome(events, events[i]))
    && (forall i, j | 0 <= i < j < |events| && events[i].id.recovery && events[j].id.recovery ::
          events[i].recoveryOf != events[j].recoveryOf)
    && (forall i | 0 <= i < |events| && !events[i].id.recovery && !events[i].active :: ClosedBySome(events, events[i]))
  }

  ghost predicate ClosesSome(events: seq<Incident>, r: Incident)
  {
    exists j | 0 <= j < |events| :: Closes(r, events[j])
  }

  ghost predicate ClosedBySome(events: seq<Incident>, o: Incident)
  {
    exists j | 0 <= j < |events| :: Closes(events[j], o)
  }

  ghost function Ids(events: seq<Incident>, k: Fingerprint, recovery: bool): set<EventId>
  {
    set i | 0 <= i < |events| && events[i].id.fingerprint == k && events[i].id.recovery == recovery :: events[i].id
  }

  /** Per fingerprint, openings exceed recoveries by one exactly while an incident is open. */
  ghost predicate Balanced(active: map<Fingerprint, Incident>, events: seq<Incident>)
  {
    forall k: Fingerprint :: |Ids(events, k, false)| == |Ids(events, k, true)| + (if k in active then 1 else 0)
  }

  ghost predicate Book(st: Ledger, now: Time, begun: set<Fingerprint>, ended: set<Fingerprint>)
  {
    && Open(st.active, st.events) && NoOtherActive(st.active, st.events)
    && UniqueEvents(st.events) && Dated(st.events, now, begun, ended)
    && Paired(st.events) && Balanced(st.active, st.events)
  }

  // --- replacing an event -------------------------------------------------------------------

  lemma ReplaceKeepsIds(events: seq<Incident>, x: Incident, k: Fingerprint, recovery: bool)
    ensures Ids(ReplaceById(events, x), k, recovery) == Ids(events, k, recovery)
  {
    SameIds(events, ReplaceById(events, x), k, recovery);
  }

  lemma SameIds(events: seq<Incident>, r: seq<Incident>, k: Fingerprint, recovery: bool)
    requires |r| == |events| && forall i | 0 <= i < |events| :: r[i].id == events[i].id
    ensures Ids(r, k, recovery) == Ids(events, k, recovery)
  {
    forall id ensures id in Ids(r, k, recovery) <==> id in Ids(events, k, recovery) {
      if id in Ids(events, k, recovery) {
        var i :| 0 <= i < |events| && events[i].id == id && events[i].id.fingerprint == k
          && events[i].id.recovery == recovery;
        assert r[i].id == id;
      }
    }
  }

  lemma ReplaceKeepsUnique(events: seq<Incident>, x: Incident)
    requires UniqueEvents(events)
    ensures UniqueEvents(ReplaceById(events, x))
  {
    var r := ReplaceById(events, x);
    assert forall i | 0 <= i < |events| :: r[i].id == events[i].id;
  }

  lemma ReplaceKeepsDated(events: seq<Incident>, x: Incident, now: Time, begun: set<Fingerprint>,
                          ended: set<Fingerprint>)
    requires Dated(events, now, begun, ended) && x.firstSeen == x.id.firstSeen
    ensures Dated(ReplaceById(events, x), now, begun, ended)
  {
  }

  /** An open incident that changes in place stays the only active event of its fingerprint. */
  lemma ReplaceOpen(active: map<Fingerprint, Incident>, events: seq<Incident>, k: Fingerprint, x: Incident)
    requires Open(active, events) && NoOtherActive(active, events) && UniqueEvents(events) && Paired(events)
    requires k in active && x == active[k].(lastSeen := x.lastSeen, occurrences := x.occurrences,
                                            acknowledged := x.acknowledged)
    ensures Open(active[k := x], ReplaceById(events, x)) && NoOtherActive(active[k := x], ReplaceById(events, x))
    ensures Paired(ReplaceById(events, x))
  {
    hide RuleOf;
    var r, after := ReplaceById(events, x), active[k := x];
    forall j | j in after ensures after[j] in r {
      var i :| 0 <= i < |events| && events[i] == active[j];
      assert r[i] == after[j];
    }
    ReplaceKeepsPaired(events, x, active[k]);
  }

  lemma ReplaceKeepsPaired(events: seq<Incident>, x: Incident, was: Incident)
    requires UniqueEvents(events) && Paired(events) && was in events
    requires was.active && x.id == was.id && x.active && x.recoveryOf == was.recoveryOf
    ensures Paired(ReplaceById(events, x))
  {
    assert forall i | 0 <= i < |events| && events[i].id == was.id :: events[i] == was;
    SamePairs(events, ReplaceById(events, x));
  }

  /** Pairing only looks at ids, activity, what recoveries refer to, and what is over. */
  ghost predicate SameLinks(a: seq<Incident>, b: seq<Incident>)
  {
    && |a| == |b|
    && (forall i | 0 <= i < |a| ::
          a[i].id == b[i].id && a[i].active == b[i].active && a[i].recoveryOf == b[i].recoveryOf)
    && (forall i | 0 <= i < |a| && !a[i].active :: b[i] == a[i].(acknowledged := b[i].acknowledged))
  }

  lemma SameCloses(a: seq<Incident>, b: seq<Incident>, i: nat)
    requires SameLinks(a, b) && i < |a| && !a[i].active
    requires forall j | 0 <= j < |a| && a[j].id.recovery :: !a[j].active
    ensures ClosesSome(a, a[i]) ==> ClosesSome(b, b[i])
    ensures ClosedBySome(a, a[i]) ==> ClosedBySome(b, b[i])
  {
    if ClosesSome(a, a[i]) {
      var j :| 0 <= j < |a| && Closes(a[i], a[j]);
      assert Closes(b[i], b[j]);
    }
    if ClosedBySome(a, a[i]) {
      var j :| 0 <= j < |a| && Closes(a[j], a[i]);
      assert Closes(b[j], b[i]);
    }
  }

  lemma SamePairs(a: seq<Incident>, b: seq<Incident>)
    requires Paired(a) && SameLinks(a, b)
    ensures Paired(b)
  {
    hide ClosesSome, ClosedBySome;
    forall i | 0 <= i < |b| && !b[i].active
      ensures ClosesSome(a, a[i]) ==> ClosesSome(b, b[i])
      ensures ClosedBySome(a, a[i]) ==> ClosedBySome(b, b[i])
    {
      SameCloses(a, b, i);
    }
  }

  // --- the three steps ----------------------------------------------------------------------

  lemma RepeatKeepsBook(cfg: Settings, world: World, st: Ledger, k: Fingerprint, s: Standing,
                        begun: set<Fingerprint>, ended: set<Fingerprint>)
    requires Book(st, world.now, begun, ended) && k in st.active
    ensures Book(ActOn(cfg, world, st, k, s), world.now, begun, ended)
  {
    hide Open, NoOtherActive, UniqueEvents, Dated, Paired, Deliver, Ids;
    if !s.preserveOnly {
      var x := st.active[k].(lastSeen := world.now, occurrences := st.active[k].occurrences + 1);
      OpenDates(st.active, st.events, k);
      ReplaceOpen(st.active, st.events, k, x);
      ReplaceKeepsUnique(st.events, x);
      ReplaceKeepsDated(st.events, x, world.now, begun, ended);
      var replaced := ReplaceById(st.events, x);
      forall j: Fingerprint, recovery ensures Ids(replaced, j, recovery) == Ids(st.events, j, recovery) {
        ReplaceKeepsIds(st.events, x, j, recovery);
      }
    }
  }

  lemma OpenDates(active: map<Fingerprint, Incident>, events: seq<Incident>, k: Fingerprint)
    requires Open(active, events) && k in active
    ensures active[k].firstSeen == active[k].id.firstSeen && active[k].id.fingerprint == k && !active[k].id.recovery
    ensures active[k] in events && active[k].active && active[k].recoveryOf.None?
  {
  }

  lemma IdsSnoc(events: seq<Incident>, e: Incident, k: Fingerprint, recovery: bool)
    ensures Ids(events + [e], k, recovery) ==
            Ids(events, k, recovery) + (if e.id.fingerprint == k && e.id.recovery == recovery then {e.id} else {})
  {
    var all := events + [e];
    forall id ensures id in Ids(all, k, recovery) <==>
        id in Ids(events, k, recovery) || (e.id.fingerprint == k && e.id.recovery == recovery && id == e.id)
    {
      if id in Ids(events, k, recovery) {
        var i :| 0 <= i < |events| && events[i].id == id && events[i].id.fingerprint == k
          && events[i].id.recovery == recovery;
        assert all[i].id == id;
      }
      if e.id.fingerprint == k && e.id.recovery == recovery && id == e.id {
        assert all[|events|].id == id;
      }
      if id in Ids(all, k, recovery) {
        var i :| 0 <= i < |all| && all[i].id == id && all[i].id.fingerprint == k && all[i].id.recovery == recovery;
        assert i < |events| ==> events[i].id == id;
      }
    }
  }

  lemma IdsAre(events: seq<Incident>, k: Fingerprint, recovery: bool, id: EventId)
    ensures id in Ids(events, k, recovery) ==> exists i | 0 <= i < |events| :: events[i].id == id
  {
  }

  /** An id that opens or closes a fingerprint for the first time at this moment is new. */
  lemma NewId(events: seq<Incident>, now: Time, begun: set<Fingerprint>, ended: set<Fingerprint>, id: EventId)
    requires Dated(events, now, begun, ended) && id.firstSeen == now
    requires id.fingerprint !in (if id.recovery then ended else begun)
    ensures forall i | 0 <= i < |events| :: events[i].id != id
    ensures forall k, recovery :: id !in Ids(events, k, recovery)
  {
    forall k, recovery ensures id !in Ids(events, k, recovery) {
      IdsAre(events, k, recovery, id);
    }
  }

  lemma AppendKeepsUnique(events: seq<Incident>, e: Incident)
    requires UniqueEvents(events) && forall i | 0 <= i < |events| :: events[i].id != e.id
    ensures UniqueEvents(events + [e])
  {
  }

  lemma AppendKeepsDated(events: seq<Incident>, e: Incident, now: Time, begun: set<Fingerprint>,
                         ended: set<Fingerprint>,
                         nextBegun: set<Fingerprint>, nextEnded: set<Fingerprint>)
    requires Dated(events, now, begun, ended) && begun <= nextBegun && ended <= nextEnded
    requires e.firstSeen == e.id.firstSeen == now
    requires e.id.fingerprint in (if e.id.recovery then nextEnded else nextBegun)
    ensures Dated(events + [e], now, nextBegun, nextEnded)
  {
    var all := events + [e];
    forall i | 0 <= i < |all|
      ensures all[i].firstSeen == all[i].id.firstSeen <= now
      ensures all[i].firstSeen == now ==> all[i].id.fingerprint in (if all[i].id.recovery then nextEnded else nextBegun)
    {
      assert i < |events| ==> all[i] == events[i];
    }
  }

  lemma AppendKeepsCloses(events: seq<Incident>, e: Incident, i: nat)
    requires i < |events|
    ensures ClosesSome(events, events[i]) ==> ClosesSome(events + [e], events[i])
    ensures ClosedBySome(events, events[i]) ==> ClosedBySome(events + [e], events[i])
  {
    var all := events + [e];
    if ClosesSome(events, events[i]) {
      var j :| 0 <= j < |events| && Closes(events[i], events[j]);
      assert Closes(events[i], all[j]);
    }
    if ClosedBySome(events, events[i]) {
      var j :| 0 <= j < |events| && Closes(events[j], events[i]);
      assert Closes(all[j], events[i]);
    }
  }

  lemma AppendOpening(events: seq<Incident>, e: Incident)
    requires Paired(events) && !e.id.recovery && e.recoveryOf.None? && e.active
    ensures Paired(events + [e])
  {
    hide ClosesSome, ClosedBySome;
    var all := events + [e];
    forall i | 0 <= i < |events|
      ensures ClosesSome(events, events[i]) ==> ClosesSome(all, events[i])
      ensures ClosedBySome(events, events[i]) ==> ClosedBySome(all, events[i])
    {
      AppendKeepsCloses(events, e, i);
    }
  }

  lemma OpenGrows(active: map<Fingerprint, Incident>, events: seq<Incident>, k: Fingerprint, x: Incident)
    requires Open(active, events) && NoOtherActive(active, events) && k !in active
    requires x.id == EventId(k, x.firstSeen, false) && x.active && x.recoveryOf.None?
    requires x.severity == RuleOf(x.rule).severity && x.source == RuleOf(x.rule).source
    ensures Open(active[k := x], events + [x]) && NoOtherActive(active[k := x], events + [x])
  {
    hide RuleOf;
    var all := events + [x];
    assert all[|events|] == x;
    forall j | j in active ensures active[j] in all {
      assert active[j] in events;
    }
    forall i | 0 <= i < |all| && all[i].active
      ensures all[i].id.fingerprint in active[k := x] && active[k := x][all[i].id.fingerprint] == all[i]
    {
      assert i < |events| ==> all[i] == events[i];
    }
  }

  lemma OpeningKeepsBook(cfg: Settings, world: World, st: Ledger, k: Fingerprint, s: Standing,
                         begun: set<Fingerprint>, ended: set<Fingerprint>)
    requires Book(st, world.now, begun, ended) && k !in st.active && k !in begun
    requires s.condition.fingerprint == k && s.condition.severity == RuleOf(s.condition.rule).severity
    requires s.condition.source == RuleOf(s.condition.rule).source
    ensures Book(ActOn(cfg, world, st, k, s), world.now, begun + {k}, ended)
  {
    hide Open, NoOtherActive, UniqueEvents, Dated, Paired, Deliver, Ids, RuleOf;
    var x := Opened(s.condition, world.now);
    NewId(st.events, world.now, begun, ended, x.id);
    OpenGrows(st.active, st.events, k, x);
    AppendKeepsUnique(st.events, x);
    AppendKeepsDated(st.events, x, world.now, begun, ended, begun + {k}, ended);
    AppendOpening(st.events, x);
    forall j: Fingerprint
      ensures |Ids(st.events + [x], j, false)| ==
              |Ids(st.events + [x], j, true)| + (if j in st.active[k := x] then 1 else 0)
    {
      IdsSnoc(st.events, x, j, false);
      IdsSnoc(st.events, x, j, true);
    }
  }

  /** `all` is `events` with the incident `was` closed and its recovery `r` added. */
  ghost predicate Closing(events: seq<Incident>, was: Incident, r: Incident, all: seq<Incident>)
  {
    && |all| == |events| + 1 && all[|events|] == r
    && (forall i | 0 <= i < |events| :: all[i].id == events[i].id && all[i].recoveryOf == events[i].recoveryOf)
    && (forall i | 0 <= i < |events| ::
          if events[i].id == was.id then events[i] == was && !all[i].active && Tells(r, all[i])
          else all[i] == events[i])
    && was.active && !was.id.recovery && was.recoveryOf.None?
    && r.id.recovery && r.recoveryOf == Some(was.id) && !r.active && r.id.fingerprint == was.id.fingerprint
  }

  lemma ClosingRelates(events: seq<Incident>, was: Incident, x: Incident, r: Incident)
    requires UniqueEvents(events) && was in events && was.active && !was.id.recovery && was.recoveryOf.None?
    requires x.id == was.id && !x.active && x.recoveryOf == was.recoveryOf && Tells(r, x)
    requires r.id.recovery && r.recoveryOf == Some(was.id) && !r.active && r.id.fingerprint == was.id.fingerprint
    ensures Closing(events, was, r, ReplaceById(events, x) + [r])
  {
    assert forall i | 0 <= i < |events| && events[i].id == was.id :: events[i] == was;
  }

  /** No earlier recovery closed an incident that is still open. */
  lemma StillUnclosed(events: seq<Incident>, was: Incident, i: nat)
    requires Paired(events) && UniqueEvents(events) && was in events && was.active
    requires i < |events| && events[i].id.recovery
    ensures events[i].recoveryOf != Some(was.id)
  {
    assert ClosesSome(events, events[i]);
    var j :| 0 <= j < |events| && Closes(events[i], events[j]);
    var at :| 0 <= at < |events| && events[at] == was;
  }

  lemma StillCloses(events: seq<Incident>, was: Incident, r: Incident, all: seq<Incident>, i: nat, j: nat)
    requires Closing(events, was, r, all) && i < |events| && j < |events| && Closes(events[i], events[j])
    ensures Closes(all[i], all[j])
  {
  }

  lemma ClosingRecovery(events: seq<Incident>, was: Incident, r: Incident, all: seq<Incident>, i: nat)
    requires Closing(events, was, r, all) && was in events
    requires i < |events| && events[i].id.recovery && !events[i].active && ClosesSome(events, events[i])
    ensures !all[i].active && ClosesSome(all, all[i])
  {
    var j :| 0 <= j < |events| && Closes(events[i], events[j]);
    StillCloses(events, was, r, all, i, j);
    assert 0 <= j < |all|;
  }

  lemma ClosingItself(events: seq<Incident>, was: Incident, r: Incident, all: seq<Incident>)
    requires Closing(events, was, r, all) && was in events
    ensures ClosesSome(all, r)
  {
    var at :| 0 <= at < |events| && events[at] == was;
    assert Closes(r, all[at]);
  }

  lemma ClosingOpening(events: seq<Incident>, was: Incident, r: Incident, all: seq<Incident>, i: nat)
    requires Closing(events, was, r, all) && Paired(events)
    requires i < |all| && !all[i].id.recovery && !all[i].active
    ensures ClosedBySome(all, all[i])
  {
    if events[i].id == was.id {
      assert Closes(all[|events|], all[i]);
    } else {
      assert ClosedBySome(events, events[i]);
      var j :| 0 <= j < |events| && Closes(events[j], events[i]);
      assert Closes(all[j], all[i]);
    }
  }

  /** Closing an incident and adding its recovery keeps the pairs. */
  lemma CloseKeepsPaired(events: seq<Incident>, was: Incident, x: Incident, r: Incident)
    requires Paired(events) && UniqueEvents(events) && was in events
    requires was.active && !was.id.recovery && was.recoveryOf.None?
    requires x.id == was.id && !x.active && x.recoveryOf == was.recoveryOf && Tells(r, x)
    requires r.id.recovery && r.recoveryOf == Some(was.id) && !r.active && r.id.fingerprint == was.id.fingerprint
    ensures Paired(ReplaceById(events, x) + [r])
  {
    hide ClosesSome, ClosedBySome, UniqueEvents, ReplaceById;
    var all := ReplaceById(events, x) + [r];
    ClosingRelates(events, was, x, r);
    forall i | 0 <= i < |all| && all[i].id.recovery ensures !all[i].active && ClosesSome(all, all[i]) {
      if i < |events| {
        ClosingRecovery(events, was, r, all, i);
      } else {
        ClosingItself(events, was, r, all);
      }
    }
    forall i | 0 <= i < |events| && events[i].id.recovery ensures events[i].recoveryOf != Some(was.id) {
      StillUnclosed(events, was, i);
    }
    forall i | 0 <= i < |all| && !all[i].id.recovery && !all[i].active ensures ClosedBySome(all, all[i]) {
      ClosingOpening(events, was, r, all, i);
    }
  }

  lemma CloseKeepsOpen(active: map<Fingerprint, Incident>, events: seq<Incident>, k: Fingerprint, x: Incident,
                       r: Incident)
    requires Open(active, events) && NoOtherActive(active, events) && UniqueEvents(events) && k in active
    requires x.id == active[k].id && !x.active && !r.active
    ensures Open(Incidents.Without(active, k), ReplaceById(events, x) + [r])
    ensures NoOtherActive(Incidents.Without(active, k), ReplaceById(events, x) + [r])
  {
    hide RuleOf;
    var replaced := ReplaceById(events, x);
    var all := replaced + [r];
    var rest := Incidents.Without(active, k);
    forall j | j in rest ensures rest[j] in all {
      var i :| 0 <= i < |events| && events[i] == active[j];
      assert all[i] == active[j];
    }
    forall i | 0 <= i < |all| && all[i].active
      ensures all[i].id.fingerprint in rest && rest[all[i].id.fingerprint] == all[i]
    {
      assert i < |events| && all[i] == replaced[i] && events[i].id != x.id;
      assert all[i] == events[i];
    }
  }

  lemma CloseKeepsBook(cfg: Settings, world: World, st: Ledger, k: Fingerprint,
                       begun: set<Fingerprint>, ended: set<Fingerprint>)
    requires Book(st, world.now, begun, ended) && k in st.active && k !in ended
    ensures Book(Close(cfg, world, st, k), world.now, begun, ended + {k})
  {
    hide Open, NoOtherActive, UniqueEvents, Dated, Paired, Deliver, Ids, RuleOf;
    var was := st.active[k];
    var x := was.(active := false, lastSeen := world.now);
    var r := RecoveryEvent(x, world.now);
    var replaced := ReplaceById(st.events, x);
    OpenDates(st.active, st.events, k);
    CloseKeepsOpen(st.active, st.events, k, x, r);
    ReplaceKeepsUnique(st.events, x);
    ReplaceKeepsDated(st.events, x, world.now, begun, ended);
    NewId(replaced, world.now, begun, ended, r.id);
    AppendKeepsUnique(replaced, r);
    AppendKeepsDated(replaced, r, world.now, begun, ended, begun, ended + {k});
    CloseKeepsPaired(st.events, was, x, r);
    forall j: Fingerprint
      ensures |Ids(replaced + [r], j, false)| ==
              |Ids(replaced + [r], j, true)| + (if j in Incidents.Without(st.active, k) then 1 else 0)
    {
      ReplaceKeepsIds(st.events, x, j, false);
      ReplaceKeepsIds(st.events, x, j, true);
      IdsSnoc(replaced, r, j, false);
      IdsSnoc(replaced, r, j, true);
    }
  }

  // --- one evaluation -----------------------------------------------------------------------

  ghost predicate GoodStanding(standing: map<Fingerprint, Standing>)
  {
    forall k | k in standing ::
      && standing[k].condition.fingerprint == k
      && standing[k].condition.severity == RuleOf(standing[k].condition.rule).severity
      && standing[k].condition.source == RuleOf(standing[k].condition.rule).source
  }

  ghost predicate Fresh(keys: seq<Fingerprint>, done: set<Fingerprint>)
  {
    && (forall i | 0 <= i < |keys| :: keys[i] !in done)
    && (forall i, j | 0 <= i < j < |keys| :: keys[i] != keys[j])
  }

  lemma FreshTail(keys: seq<Fingerprint>, done: set<Fingerprint>)
    requires keys != [] && Fresh(keys, done)
    ensures keys[0] !in done && Fresh(keys[1..], done + {keys[0]})
  {
  }

  /** Acting on a condition once keeps the book. */
  lemma ActOnKeepsBook(cfg: Settings, world: World, st: Ledger, standing: map<Fingerprint, Standing>, k: Fingerprint,
                       begun: set<Fingerprint>)
    requires GoodStanding(standing) && k in standing && k !in begun && Book(st, world.now, begun, {})
    ensures Book(ActOn(cfg, world, st, k, standing[k]), world.now, begun + {k}, {})
  {
    hide Book, GoodStanding, Deliver, ReplaceById, RuleOf;
    if k in st.active {
      RepeatKeepsBook(cfg, world, st, k, standing[k], begun, {});
      BeginMore(ActOn(cfg, world, st, k, standing[k]), world.now, begun, {}, k);
    } else {
      StandingIs(standing, k);
      OpeningKeepsBook(cfg, world, st, k, standing[k], begun, {});
    }
  }

  lemma {:induction false} ActOnAllKeeps(cfg: Settings, world: World, st: Ledger, standing: map<Fingerprint, Standing>,
                                         keys: seq<Fingerprint>, begun: set<Fingerprint>)
    returns (done: set<Fingerprint>)
    requires forall k | k in keys :: k in standing
    requires GoodStanding(standing) && Fresh(keys, begun) && Book(st, world.now, begun, {})
    ensures Book(ActOnAll(cfg, world, st, standing, keys), world.now, done, {})
    ensures ActOnAll(cfg, world, st, standing, keys).active.Keys == st.active.Keys + set k | k in keys
    decreases |keys|
  {
    hide Book, GoodStanding, Fresh, Deliver, ReplaceById;
    if keys == [] {
      done := begun;
    } else {
      var k := keys[0];
      var next := ActOn(cfg, world, st, k, standing[k]);
      FreshTail(keys, begun);
      ActOnKeepsBook(cfg, world, st, standing, k, begun);
      done := ActOnAllKeeps(cfg, world, next, standing, keys[1..], begun + {k});
    }
  }

  lemma StandingIs(standing: map<Fingerprint, Standing>, k: Fingerprint)
    requires GoodStanding(standing) && k in standing
    ensures standing[k].condition.fingerprint == k
    ensures standing[k].condition.severity == RuleOf(standing[k].condition.rule).severity
    ensures standing[k].condition.source == RuleOf(standing[k].condition.rule).source
  {
  }

  lemma BeginMore(st: Ledger, now: Time, begun: set<Fingerprint>, ended: set<Fingerprint>, k: Fingerprint)
    requires Book(st, now, begun, ended)
    ensures Book(st, now, begun + {k}, ended)
  {
    hide Open, NoOtherActive, UniqueEvents, Paired, Balanced;
  }

  lemma {:induction false} CloseAllKeeps(cfg: Settings, world: World, st: Ledger, keys: seq<Fingerprint>,
                                         begun: set<Fingerprint>, ended: set<Fingerprint>)
    returns (done: set<Fingerprint>)
    requires Fresh(keys, ended) && Book(st, world.now, begun, ended)
             && forall i | 0 <= i < |keys| :: keys[i] in st.active
    ensures Book(CloseAll(cfg, world, st, keys), world.now, begun, done)
    ensures CloseAll(cfg, world, st, keys).active.Keys == st.active.Keys - set k | k in keys
    decreases |keys|
  {
    hide Book, Deliver, ReplaceById;
    if keys == [] {
      done := ended;
    } else {
      var k := keys[0];
      FreshTail(keys, ended);
      CloseKeepsBook(cfg, world, st, k, begun, ended);
      var next := Close(cfg, world, st, k);
      forall i | 0 <= i < |keys[1..]| ensures keys[1..][i] in next.active {
        assert keys[1..][i] == keys[i + 1] && keys[i + 1] != k;
      }
      done := CloseAllKeeps(cfg, world, next, keys[1..], begun, ended + {k});
    }
  }

  lemma SortedBook(cfg: Settings, st: Ledger, now: Time, begun: set<Fingerprint>, ended: set<Fingerprint>)
    requires Book(st, now, begun, ended)
    ensures Book(Stored(cfg, st), now, begun, ended)
  {
    hide Sort, RuleOf;
    EventsPermuted(st.active, st.events, Sort(EventOrder(cfg), st.events), now, begun, ended);
  }

  /** Everything the book says of the events is said of them in any order. */
  lemma EventsPermuted(active: map<Fingerprint, Incident>, a: seq<Incident>, b: seq<Incident>, now: Time,
                       begun: set<Fingerprint>, ended: set<Fingerprint>)
    requires multiset(a) == multiset(b)
    requires Open(active, a) && NoOtherActive(active, a) && UniqueEvents(a) && Dated(a, now, begun, ended)
    requires Paired(a) && Balanced(active, a)
    ensures Open(active, b) && NoOtherActive(active, b) && UniqueEvents(b) && Dated(b, now, begun, ended)
    ensures Paired(b) && Balanced(active, b)
  {
    hide Ids, Paired, UniqueEvents, RuleOf;
    SameElements(a, b);
    UniquePermuted(a, b);
    PairedPermuted(a, b);
    forall i | 0 <= i < |b| && b[i].active
      ensures b[i].id.fingerprint in active && active[b[i].id.fingerprint] == b[i] {
      assert b[i] in a;
    }
    forall i | 0 <= i < |b|
      ensures b[i].firstSeen == b[i].id.firstSeen <= now
      ensures b[i].firstSeen == now ==> b[i].id.fingerprint in (if b[i].id.recovery then ended else begun)
    {
      assert b[i] in a;
    }
    forall k: Fingerprint, recovery ensures Ids(b, k, recovery) == Ids(a, k, recovery) {
      IdsPermuted(a, b, k, recovery);
    }
  }

  lemma IdsPermuted(a: seq<Incident>, b: seq<Incident>, k: Fingerprint, recovery: bool)
    requires forall x :: x in a <==> x in b
    ensures Ids(b, k, recovery) == Ids(a, k, recovery)
  {
    forall id ensures id in Ids(a, k, recovery) <==> id in Ids(b, k, recovery) {
      if id in Ids(a, k, recovery) {
        var i :| 0 <= i < |a| && a[i].id == id && a[i].id.fingerprint == k && a[i].id.recovery == recovery;
        assert a[i] in b;
        var j :| 0 <= j < |b| && b[j] == a[i];
      }
      if id in Ids(b, k, recovery) {
        var i :| 0 <= i < |b| && b[i].id == id && b[i].id.fingerprint == k && b[i].id.recovery == recovery;
        assert b[i] in a;
        var j :| 0 <= j < |a| && a[j] == b[i];
      }
    }
  }

  lemma UniquePermuted(a: seq<Incident>, b: seq<Incident>)
    requires UniqueEvents(a) && multiset(a) == multiset(b)
    ensures UniqueEvents(b)
  {
    var idOf := (x: Incident) => x.id;
    MapPermutation(idOf, a, b);
    var p, q := Map(idOf, a), Map(idOf, b);
    assert NoDuplicates(p);
    NoDuplicatesPermutation(p, q);
    forall i, j | 0 <= i < j < |b| ensures b[i].id != b[j].id {
      assert q[i] != q[j];
    }
  }

  lemma PairedPermuted(a: seq<Incident>, b: seq<Incident>)
    requires Paired(a) && UniqueEvents(a) && multiset(a) == multiset(b)
    ensures Paired(b)
  {
    SameElements(a, b);
    UniquePermuted(a, b);
    forall i | 0 <= i < |b| ensures exists k :: 0 <= k < |a| && a[k] == b[i] {
      assert b[i] in a;
    }
    forall i | 0 <= i < |b| && b[i].id.recovery ensures !b[i].active && ClosesSome(b, b[i]) {
      var k :| 0 <= k < |a| && a[k] == b[i];
      assert ClosesSome(a, a[k]);
      var j :| 0 <= j < |a| && Closes(a[k], a[j]);
      assert a[j] in b;
      var l :| 0 <= l < |b| && b[l] == a[j];
      assert Closes(b[i], b[l]);
    }
    forall i | 0 <= i < |b| && !b[i].id.recovery && !b[i].active ensures ClosedBySome(b, b[i]) {
      var k :| 0 <= k < |a| && a[k] == b[i];
      assert ClosedBySome(a, a[k]);
      var j :| 0 <= j < |a| && Closes(a[j], a[k]);
      assert a[j] in b;
      var l :| 0 <= l < |b| && b[l] == a[j];
      assert Closes(b[l], b[i]);
    }
    forall i, j | 0 <= i < j < |b| && b[i].id.recovery && b[j].id.recovery ensures b[i].recoveryOf != b[j].recoveryOf {
      var k :| 0 <= k < |a| && a[k] == b[i];
      var l :| 0 <= l < |a| && a[l] == b[j];
      assert b[i].id != b[j].id;
    }
  }
}
