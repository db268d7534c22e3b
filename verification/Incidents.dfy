/**
 The notification ledger as a state machine: open incidents by fingerprint, the events that record
 them, and the log of deliveries.  Hashed identifiers are the tuples that are hashed.
 */
module Incidents {
  import opened Options
  import opened Ordering
  import opened SortedKeys
  import opened NotificationRules

  /** Times are counted in ticks. */
  type Time = int

  /** How many ticks a second has: any number, as long as a second is not the smallest step of the clock. */
  type Ticks = n: nat | n > 1 witness 2

  datatype EventId = EventId(fingerprint: Fingerprint, firstSeen: Time, recovery: bool)

  datatype Incident = Incident(
    id: EventId,
    rule: RuleId,
    severity: Severity,
    title: string,
    summary: string,
    source: string,
    subject: string,
    firstSeen: Time,
    lastSeen: Time,
    occurrences: int,
    active: bool,
    acknowledged: Option<Time>,
    recoveryOf: Option<EventId>)

  datatype Channel = Console | Webhook | Operator

  datatype DeliveryStatus = Delivered | DeliveryFailed | Suppressed | Acknowledged

  datatype Delivery = Delivery(eventId: EventId, channel: Channel, status: DeliveryStatus, at: Time, number: nat)

  datatype Ledger = Ledger(active: map<Fingerprint, Incident>, events: seq<Incident>, deliveries: seq<Delivery>)

  datatype Settings = Settings(
    digest: Digest,
    minimum: Severity,
    ticks: Ticks,
    repeatSeconds: int,
    staleSeconds: int,
    eventOrder: EventId -> int,
    deliveryOrder: Delivery -> int)

  /**
   One evaluation's surroundings: the time it stamps on events, the time each delivery stamps, the
   time at which each channel decides on suppression, and which sends work.
   */
  datatype World = World(
    now: Time,
    start: EventId -> Time,
    check: ((EventId, Channel)) -> Time,
    works: ((EventId, Channel)) -> bool,
    channels: seq<Channel>)

  // --- deliveries ---------------------------------------------------------------------------

  predicate Attempt(d: Delivery, id: EventId, channel: Channel)
  {
    d.eventId == id && d.channel == channel && (d.status == Delivered || d.status == DeliveryFailed)
  }

  /** The last real attempt to send an event over a channel. */
  function LastAttempt(deliveries: seq<Delivery>, id: EventId, channel: Channel): (r: Option<Delivery>)
    ensures r.Some? ==> r.value in deliveries && Attempt(r.value, id, channel)
    ensures r.None? ==> forall d | d in deliveries :: !Attempt(d, id, channel)
  {
    if deliveries == [] then None
    else
      var init, last := deliveries[..|deliveries| - 1], deliveries[|deliveries| - 1];
      assert deliveries == init + [last];
      if Attempt(last, id, channel) then Some(last) else LastAttempt(init, id, channel)
  }

  /** The repeat setting in ticks. */
  function Repeat(cfg: Settings): int
  {
    if cfg.repeatSeconds > 0 then cfg.repeatSeconds * cfg.ticks else 0
  }

  /** The age in ticks beyond which a heartbeat is stale. */
  function StaleAfter(cfg: Settings): int
  {
    cfg.staleSeconds * cfg.ticks
  }

  function DeliverOne(cfg: Settings, world: World, deliveries: seq<Delivery>, id: EventId, channel: Channel,
                      force: bool): Delivery
  {
    var last := LastAttempt(deliveries, id, channel);
    var suppressed := !force && last.Some? && world.check((id, channel)) - last.value.at < Repeat(cfg);
    Delivery(id, channel,
             if suppressed then Suppressed else if world.works((id, channel)) then Delivered else DeliveryFailed,
             world.start(id), |deliveries|)
  }

  function DeliverTo(cfg: Settings, world: World, deliveries: seq<Delivery>, id: EventId, force: bool,
                     n: nat): seq<Delivery>
    requires n <= |world.channels|
  {
    if n == 0 then deliveries
    else
      var before := DeliverTo(cfg, world, deliveries, id, force, n - 1);
      before + [DeliverOne(cfg, world, before, id, world.channels[n - 1], force)]
  }

  function Deliver(cfg: Settings, world: World, deliveries: seq<Delivery>, id: EventId, force: bool): seq<Delivery>
  {
    DeliverTo(cfg, world, deliveries, id, force, |world.channels|)
  }

  // --- evaluation ---------------------------------------------------------------------------

  /** A condition to act on, or one carried over only so that its incident stays open. */
  datatype Standing = Standing(condition: Condition, preserveOnly: bool)

  function ByFingerprint(conditions: seq<Condition>): (r: map<Fingerprint, Standing>)
    ensures forall k | k in r :: r[k].condition in conditions && r[k].condition.fingerprint == k && !r[k].preserveOnly
    ensures forall c | c in conditions :: c.fingerprint in r
  {
    if conditions == [] then map[]
    else
      var last := conditions[|conditions| - 1];
      assert conditions == conditions[..|conditions| - 1] + [last];
      ByFingerprint(conditions[..|conditions| - 1])[last.fingerprint := Standing(last, false)]
  }

  function Restated(i: Incident): Condition
  {
    Condition(i.id.fingerprint, i.rule, i.severity, i.title, i.summary, i.source, i.subject)
  }

  /** Without a doctor report, open doctor incidents count as standing. */
  function WithDoctor(found: map<Fingerprint, Standing>,
                      active: map<Fingerprint, Incident>): (r: map<Fingerprint, Standing>)
    ensures r.Keys == found.Keys + set k | k in active && active[k].source == "doctor"
  {
    found + map k | k in active && active[k].source == "doctor" ::
      Standing(if k in found then found[k].condition else Restated(active[k]), true)
  }

  function Filtered(cfg: Settings, standing: map<Fingerprint, Standing>): map<Fingerprint, Standing>
  {
    map k | k in standing && SeverityOrder(standing[k].condition.severity) >= SeverityOrder(cfg.minimum) :: standing[k]
  }

  /** The conditions an evaluation acts on. */
  function StandingConditions(cfg: Settings, active: map<Fingerprint, Incident>, status: Status,
                              doctor: Option<seq<Check>>)
    : map<Fingerprint, Standing>
  {
    var found := ByFingerprint(Conditions(cfg.digest, status, doctor, StaleAfter(cfg)));
    Filtered(cfg, if doctor.None? then WithDoctor(found, active) else found)
  }

  function ReplaceById(events: seq<Incident>, x: Incident): (r: seq<Incident>)
    ensures |r| == |events|
    ensures forall i | 0 <= i < |r| :: r[i] == if events[i].id == x.id then x else events[i]
  {
    seq(|events|, i requires 0 <= i < |events| => if events[i].id == x.id then x else events[i])
  }

  function Opened(c: Condition, now: Time): Incident
  {
    Incident(EventId(c.fingerprint, now, false), c.rule, c.severity, c.title, c.summary, c.source, c.subject,
             now, now, 1, true, None, None)
  }

  function RecoveryEvent(i: Incident, now: Time): Incident
  {
    Incident(EventId(i.id.fingerprint, now, true), i.rule, Recovery, i.title + " recovered",
             "Recovered: " + i.summary, i.source, i.subject, now, now, 1, false, None, Some(i.id))
  }

  /** A standing condition repeats its incident, or opens one. */
  function ActOn(cfg: Settings, world: World, st: Ledger, k: Fingerprint, s: Standing): Ledger
  {
    if k in st.active then
      if s.preserveOnly then st
      else
        var i := st.active[k].(lastSeen := world.now, occurrences := st.active[k].occurrences + 1);
        Ledger(st.active[k := i], ReplaceById(st.events, i),
               if i.acknowledged.Some? then st.deliveries else Deliver(cfg, world, st.deliveries, i.id, false))
    else
      var i := Opened(s.condition, world.now);
      Ledger(st.active[k := i], st.events + [i], Deliver(cfg, world, st.deliveries, i.id, true))
  }

  function Without(active: map<Fingerprint, Incident>, k: Fingerprint): map<Fingerprint, Incident>
  {
    map x | x in active && x != k :: active[x]
  }

  /** An incident whose condition is gone is closed and followed by a recovery event. */
  function Close(cfg: Settings, world: World, st: Ledger, k: Fingerprint): Ledger
  {
    if k !in st.active then st
    else
      var closed := st.active[k].(active := false, lastSeen := world.now);
      var r := RecoveryEvent(closed, world.now);
      Ledger(Without(st.active, k), ReplaceById(st.events, closed) + [r],
             Deliver(cfg, world, st.deliveries, r.id, true))
  }

  function ActOnAll(cfg: Settings, world: World, st: Ledger, standing: map<Fingerprint, Standing>,
                    keys: seq<Fingerprint>): Ledger
    requires forall k | k in keys :: k in standing
    decreases |keys|
  {
    if keys == [] then st
    else ActOnAll(cfg, world, ActOn(cfg, world, st, keys[0], standing[keys[0]]), standing, keys[1..])
  }

  function CloseAll(cfg: Settings, world: World, st: Ledger, keys: seq<Fingerprint>): Ledger
    decreases |keys|
  {
    if keys == [] then st else CloseAll(cfg, world, Close(cfg, world, st, keys[0]), keys[1..])
  }

  predicate EventLe(cfg: Settings, a: Incident, b: Incident)
  {
    a.firstSeen < b.firstSeen || (a.firstSeen == b.firstSeen && cfg.eventOrder(a.id) <= cfg.eventOrder(b.id))
  }

  predicate DeliveryLe(cfg: Settings, a: Delivery, b: Delivery)
  {
    a.at < b.at || (a.at == b.at && cfg.deliveryOrder(a) <= cfg.deliveryOrder(b))
  }

  function EventOrder(cfg: Settings): (Incident, Incident) -> bool
  {
    (a, b) => EventLe(cfg, a, b)
  }

  function DeliveryOrder(cfg: Settings): (Delivery, Delivery) -> bool
  {
    (a, b) => DeliveryLe(cfg, a, b)
  }

  lemma StoreOrders(cfg: Settings)
    ensures Total(EventOrder(cfg)) && Transitive(EventOrder(cfg))
    ensures Total(DeliveryOrder(cfg)) && Transitive(DeliveryOrder(cfg))
  {
  }

  /** Storing the state sorts events and deliveries. */
  function Stored(cfg: Settings, st: Ledger): Ledger
  {
    Ledger(st.active, Sort(EventOrder(cfg), st.events), Sort(DeliveryOrder(cfg), st.deliveries))
  }

  function Evaluated(cfg: Settings, world: World, st: Ledger, status: Status, doctor: Option<seq<Check>>): Ledger
  {
    var standing := StandingConditions(cfg, st.active, status, doctor);
    var acted := ActOnAll(cfg, world, st, standing, Ascending(standing.Keys));
    Stored(cfg, CloseAll(cfg, world, acted, Ascending(st.active.Keys - standing.Keys)))
  }

  /** What an evaluation reports as new: an incident for each standing fingerprint that was not open. */
  function NewEvents(now: Time, active: map<Fingerprint, Incident>, standing: map<Fingerprint, Standing>,
                     keys: seq<Fingerprint>)
    : seq<Incident>
    requires forall k | k in keys :: k in standing
  {
    if keys == [] then []
    else
      var k := keys[|keys| - 1];
      NewEvents(now, active, standing, keys[..|keys| - 1])
      + (if k in active then [] else [Opened(standing[k].condition, now)])
  }

  /** And as recovered: a recovery for each open fingerprint that does not stand. */
  function Recoveries(now: Time, active: map<Fingerprint, Incident>, standing: map<Fingerprint, Standing>,
                      keys: seq<Fingerprint>)
    : seq<Incident>
    requires forall k | k in keys :: k in active
  {
    if keys == [] then []
    else
      var k := keys[|keys| - 1];
      Recoveries(now, active, standing, keys[..|keys| - 1]) +
      (if k in standing then [] else [RecoveryEvent(active[k].(active := false, lastSeen := now), now)])
  }

  // --- acknowledgement ----------------------------------------------------------------------

  function Acked(i: Incident, id: EventId, at: Time): Incident
  {
    if i.id == id then i.(acknowledged := Some(at)) else i
  }

  predicate Knows(events: seq<Incident>, id: EventId)
  {
    exists i | 0 <= i < |events| :: events[i].id == id
  }

  function AckEvents(events: seq<Incident>, id: EventId, at: Time): (r: seq<Incident>)
    ensures |r| == |events| && forall i | 0 <= i < |r| :: r[i] == Acked(events[i], id, at)
  {
    seq(|events|, i requires 0 <= i < |events| => Acked(events[i], id, at))
  }

  function AckActive(active: map<Fingerprint, Incident>, id: EventId, at: Time): map<Fingerprint, Incident>
  {
    map k | k in active :: Acked(active[k], id, at)
  }

  /** Acknowledging an unknown event changes nothing. */
  function Acknowledge(cfg: Settings, st: Ledger, id: EventId, at: Time): Ledger
  {
    if !Knows(st.events, id) then st
    else
      Stored(cfg, Ledger(AckActive(st.active, id, at), AckEvents(st.events, id, at),
                         st.deliveries + [Delivery(id, Operator, Acknowledged, at, |st.deliveries|)]))
  }

  const EMPTY := Ledger(map[], [], [])

  // --- runs ---------------------------------------------------------------------------------

  datatype Op =
    | Evaluate(world: World, status: Status, doctor: Option<seq<Check>>)
    | Ack(id: EventId, at: Time)

  function Step(cfg: Settings, st: Ledger, op: Op): Ledger
  {
    match op
    case Evaluate(world, status, doctor) => Evaluated(cfg, world, st, status, doctor)
    case Ack(id, at) => Acknowledge(cfg, st, id, at)
  }

  /** A run starts with nothing stored. */
  function RunAll(cfg: Settings, ops: seq<Op>): Ledger
    decreases |ops|
  {
    if ops == [] then EMPTY else Step(cfg, RunAll(cfg, ops[..|ops| - 1]), ops[|ops| - 1])
  }

  /** Evaluations happen at strictly later and later times. */
  predicate StrictlyLater(ops: seq<Op>)
  {
    forall i, j | 0 <= i < j < |ops| && ops[i].Evaluate? && ops[j].Evaluate? :: ops[i].world.now < ops[j].world.now
  }
}
