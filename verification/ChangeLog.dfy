/**
 The change history: detected field changes are appended to a log unless the same change was
 already stored a short while before; the log is pruned by age and by length, and kept sorted.
 */
module ChangeLog {
  import opened Options
  import opened Ordering
  import opened InventoryTypes

  predicate ChangeLe(a: Change, b: Change)
  {
    a.at < b.at || (a.at == b.at && a.eventId <= b.eventId)
  }

  /** Values are cut before they are stored. */
  function Safe(v: Option<Value>): Option<Value>
  {
    match v
    case Some(Text(s)) => Some(Text(if |s| <= 512 then s else s[..512]))
    case _ => v
  }

  function Classify(field: Field, previous: Option<Value>, current: Option<Value>): (string, Severity, string)
  {
    if field in PROTECTED then
      if previous.None? && current.Some? then ("identity_enriched", Info, "protected_identity_added")
      else ("identity_conflict", HighSeverity, "protected_identity_changed")
    else if field == FirmwareVersion then ("firmware_changed", Info, "firmware_observation_changed")
    else if field == Model then ("classification_changed", HighSeverity, "hardware_model_changed")
    else if field in {Vendor, Platform, DeviceType, DeviceRole} then
      ("classification_changed", MediumSeverity, "asset_classification_changed")
    else if field in {Customer, Site, Location} then ("location_changed", MediumSeverity, "asset_location_changed")
    else if field in {Claimed, Managed, SourcePriority, SourceRecordId} then
      ("ownership_changed",
       if current == None || current == Some(Truth(false)) || current == Some(Number(0)) then MediumSeverity
       else LowSeverity,
       "asset_ownership_changed")
    else
      (if previous.None? then "value_added" else if current.None? then "value_removed" else "value_changed",
       if previous.Some? && field in {Hostname, DisplayName, ManagementIp} then LowSeverity else Info,
       "inventory_value_changed")
  }

  function MakeChange(cfg: Config, key: ChangeKey): Change
  {
    var (_, severity, reason) := Classify(key.field, key.previous, key.current);
    Change(cfg.changeId(key), key.asset, key.field, Safe(key.previous), Safe(key.current), key.kind, severity,
           reason, key.at, key.runId)
  }

  predicate SameChange(a: Change, b: Change)
  {
    && a.asset == b.asset && a.field == b.field && a.previous == b.previous && a.current == b.current
    && a.kind == b.kind
  }

  /** Whether the last stored change like `e`, counted from the end, is too recent. */
  predicate Duplicate(pool: seq<Change>, e: Change, window: int)
  {
    pool != [] &&
    var last := pool[|pool| - 1];
    if SameChange(last, e) then e.at - last.at <= window else Duplicate(pool[..|pool| - 1], e, window)
  }

  predicate IdTaken(log: seq<Change>, e: Change)
  {
    exists i | 0 <= i < |log| :: log[i].eventId == e.eventId
  }

  /** Ids are looked up in the old log only; earlier additions count as duplicates only by their content. */
  function Accept(log: seq<Change>, additions: seq<Change>, window: int): (accepted: seq<Change>)
    ensures forall i | 0 <= i < |accepted| :: accepted[i] in additions
  {
    if additions == [] then []
    else
      assert additions == additions[..|additions| - 1] + [additions[|additions| - 1]];
      var earlier, e := Accept(log, additions[..|additions| - 1], window), additions[|additions| - 1];
      if Duplicate(log + earlier, e, window) || IdTaken(log, e) then earlier else earlier + [e]
  }

  function Since(log: seq<Change>, cutoff: Time): (r: seq<Change>)
    ensures forall i | 0 <= i < |r| :: r[i] in log && r[i].at >= cutoff
  {
    if log == [] then []
    else
      assert log == log[..|log| - 1] + [log[|log| - 1]];
      Since(log[..|log| - 1], cutoff) + (if log[|log| - 1].at >= cutoff then [log[|log| - 1]] else [])
  }

  function TakeLast(s: seq<Change>, n: nat): seq<Change>
  {
    if |s| <= n then s else s[|s| - n..]
  }

  function Pruned(cfg: Config, events: seq<Change>, now: Time): seq<Change>
  {
    TakeLast(Sort(ChangeLe, Since(events, now - cfg.changeRetention)), cfg.changeMax)
  }

  function AppendChanges(cfg: Config, log: seq<Change>, additions: seq<Change>, now: Time): seq<Change>
  {
    var accepted := Accept(log, additions, cfg.window);
    if accepted == [] then log else Pruned(cfg, log + accepted, now)
  }

  // --- the invariant ------------------------------------------------------------------------

  /** Two stored changes have different ids, and like changes lie more than the window apart. */
  predicate Clear(window: int, a: Change, b: Change)
  {
    a.eventId != b.eventId && (SameChange(a, b) ==> b.at - a.at > window || a.at - b.at > window)
  }

  ghost predicate AllClear(window: int, s: seq<Change>)
  {
    forall i, j | 0 <= i < j < |s| :: Clear(window, s[i], s[j])
  }

  /** Like changes stand in the order of their times. */
  ghost predicate InOrder(s: seq<Change>)
  {
    forall i, j | 0 <= i < j < |s| && SameChange(s[i], s[j]) :: s[i].at <= s[j].at
  }

  ghost predicate Tidy(cfg: Config, log: seq<Change>)
  {
    Sorted(ChangeLe, log) && AllClear(cfg.window, log) && |log| <= cfg.changeMax
  }

  /** What the additions come from: each carries the id of exactly what it reports. */
  ghost predicate Made(cfg: Config, additions: seq<Change>)
  {
    forall i | 0 <= i < |additions| :: IsMade(cfg, additions[i])
  }

  ghost predicate IsMade(cfg: Config, e: Change)
  {
    exists key :: e == MakeChange(cfg, key)
  }

  lemma SameIdSameChange(cfg: Config, a: Change, b: Change)
    requires InjectiveIds(cfg) && IsMade(cfg, a) && IsMade(cfg, b) && a.eventId == b.eventId
    ensures a == b
  {
    var k :| a == MakeChange(cfg, k);
    var l :| b == MakeChange(cfg, l);
    assert k == l;
  }

  /** Not being a duplicate means lying beyond the window after every like change in the pool. */
  lemma {:induction false} NotDuplicateIsLater(pool: seq<Change>, e: Change, window: int)
    requires InOrder(pool) && !Duplicate(pool, e, window)
    ensures forall i | 0 <= i < |pool| && SameChange(pool[i], e) :: e.at - pool[i].at > window
  {
    if pool != [] {
      var init, last := pool[..|pool| - 1], pool[|pool| - 1];
      if SameChange(last, e) {
        forall i | 0 <= i < |pool| && SameChange(pool[i], e) ensures e.at - pool[i].at > window {
          assert SameChange(pool[i], last);
        }
      } else {
        NotDuplicateIsLater(init, e, window);
        forall i | 0 <= i < |pool| && SameChange(pool[i], e) ensures e.at - pool[i].at > window {
          assert i < |init| && pool[i] == init[i];
        }
      }
    }
  }

  lemma SortedInOrder(log: seq<Change>)
    requires Sorted(ChangeLe, log)
    ensures InOrder(log)
  {
    forall i, j | 0 <= i < j < |log| ensures log[i].at <= log[j].at {
      assert ChangeLe(log[i], log[j]);
    }
  }

  lemma {:induction false} AcceptKeepsClear(cfg: Config, log: seq<Change>, additions: seq<Change>)
    requires Accepted(cfg) && InjectiveIds(cfg) && Made(cfg, additions)
    requires AllClear(cfg.window, log) && InOrder(log)
    ensures AllClear(cfg.window, log + Accept(log, additions, cfg.window))
    ensures InOrder(log + Accept(log, additions, cfg.window))
  {
    hide MakeChange, Duplicate, SameChange, IsMade;
    if additions == [] {
      assert log + [] == log;
    } else {
      var init, e := additions[..|additions| - 1], additions[|additions| - 1];
      AcceptKeepsClear(cfg, log, init);
      var earlier := Accept(log, init, cfg.window);
      var pool := log + earlier;
      if !Duplicate(pool, e, cfg.window) && !IdTaken(log, e) {
        assert log + (earlier + [e]) == pool + [e];
        NotDuplicateIsLater(pool, e, cfg.window);
        forall i | 0 <= i < |pool| ensures Clear(cfg.window, pool[i], e) {
          if i >= |log| {
            NewIdsDiffer(cfg, pool[i], e, additions);
          }
        }
      }
    }
  }

  /** An addition is not a duplicate of an accepted one, so it cannot carry the same id either. */
  lemma NewIdsDiffer(cfg: Config, a: Change, e: Change, additions: seq<Change>)
    requires Accepted(cfg) && InjectiveIds(cfg) && Made(cfg, additions) && a in additions && e in additions
    requires SameChange(a, e) ==> e.at - a.at > cfg.window
    ensures a.eventId != e.eventId
  {
    if a.eventId == e.eventId {
      SameIdSameChange(cfg, a, e);
      assert false;
    }
  }

  lemma ClearPermutation(window: int, a: seq<Change>, b: seq<Change>)
    requires AllClear(window, a) && multiset(a) == multiset(b)
    ensures AllClear(window, b)
  {
    hide Clear;
    var clear := (x, y) => Clear(window, x, y);
    forall x, y | clear(x, y) ensures clear(y, x) {
      ClearSymmetric(window, x, y);
    }
    PairwisePermutation(clear, a, b);
    assert forall i, j | 0 <= i < j < |b| :: clear(b[i], b[j]);
  }

  lemma ClearSymmetric(window: int, a: Change, b: Change)
    ensures Clear(window, a, b) <==> Clear(window, b, a)
  {
  }

  lemma {:induction false} SinceClear(window: int, s: seq<Change>, cutoff: Time)
    requires AllClear(window, s)
    ensures AllClear(window, Since(s, cutoff))
  {
    hide Clear;
    if s != [] {
      var init, last := s[..|s| - 1], s[|s| - 1];
      SinceClear(window, init, cutoff);
      forall i | 0 <= i < |Since(init, cutoff)| ensures Clear(window, Since(init, cutoff)[i], last) {
        assert Since(init, cutoff)[i] in init;
      }
    }
  }

  lemma ChangeOrder()
    ensures Total(ChangeLe) && Transitive(ChangeLe)
  {
  }

  lemma TakeLastSuffix(s: seq<Change>, n: nat)
    requires Sorted(ChangeLe, s)
    ensures Sorted(ChangeLe, TakeLast(s, n)) && |TakeLast(s, n)| <= n
    ensures forall window | AllClear(window, s) :: AllClear(window, TakeLast(s, n))
    ensures forall x | x in TakeLast(s, n) :: x in s
  {
    hide ChangeLe, Clear;
  }

  lemma PrunedTidy(cfg: Config, events: seq<Change>, now: Time)
    requires AllClear(cfg.window, events)
    ensures Tidy(cfg, Pruned(cfg, events, now))
    ensures forall e | e in Pruned(cfg, events, now) :: e in events && e.at >= now - cfg.changeRetention
  {
    hide ChangeLe, AllClear, Since, Sort, TakeLast;
    var kept := Since(events, now - cfg.changeRetention);
    SinceClear(cfg.window, events, now - cfg.changeRetention);
    ChangeOrder();
    SortSorts(ChangeLe, kept);
    var sorted := Sort(ChangeLe, kept);
    ClearPermutation(cfg.window, kept, sorted);
    TakeLastSuffix(sorted, cfg.changeMax);
    SameElements(kept, sorted);
  }

  /**
   Whatever is appended, and however the clock moves, the log stays sorted and bounded, ids stay
   unique, and like changes stay more than the suppression window apart.
   */
  lemma AppendKeepsTidy(cfg: Config, log: seq<Change>, additions: seq<Change>, now: Time)
    requires Accepted(cfg) && InjectiveIds(cfg) && Made(cfg, additions) && Tidy(cfg, log)
    ensures Tidy(cfg, AppendChanges(cfg, log, additions, now))
    ensures AppendChanges(cfg, log, additions, now) != log ==>
              forall e | e in AppendChanges(cfg, log, additions, now) ::
                (e in log || e in additions) && e.at >= now - cfg.changeRetention
  {
    hide ChangeLe, AllClear, Pruned, Made;
    SortedInOrder(log);
    AcceptKeepsClear(cfg, log, additions);
    PrunedTidy(cfg, log + Accept(log, additions, cfg.window), now);
  }

  /**
   Of a batch, an addition is suppressed exactly when its id is in the old log, or a like change in the
   log or accepted before it is too recent.
   */
  lemma AcceptedIffFresh(cfg: Config, log: seq<Change>, additions: seq<Change>, n: nat)
    requires Accepted(cfg) && InjectiveIds(cfg) && Made(cfg, additions) && Tidy(cfg, log) && n < |additions|
    ensures var earlier, e := Accept(log, additions[..n], cfg.window), additions[n];
            var pool, unseen := log + earlier, !IdTaken(log, e);
            Accept(log, additions[..n + 1], cfg.window) ==
            if unseen && (forall i | 0 <= i < |pool| && SameChange(pool[i], e) :: e.at - pool[i].at > cfg.window)
            then earlier + [e] else earlier
  {
    hide Clear, SameChange, IdTaken, Made, IsMade;
    var pool, e := log + Accept(log, additions[..n], cfg.window), additions[n];
    SortedInOrder(log);
    MadePrefix(cfg, additions, n);
    AcceptKeepsClear(cfg, log, additions[..n]);
    assert additions[..n + 1][..n] == additions[..n];
    if !Duplicate(pool, e, cfg.window) {
      NotDuplicateIsLater(pool, e, cfg.window);
    } else {
      var i := DuplicateWitness(pool, e, cfg.window);
    }
  }

  lemma MadePrefix(cfg: Config, additions: seq<Change>, n: nat)
    requires Made(cfg, additions) && n <= |additions|
    ensures Made(cfg, additions[..n])
  {
    hide IsMade;
  }

  lemma {:induction false} DuplicateWitness(pool: seq<Change>, e: Change, window: int) returns (i: nat)
    requires Duplicate(pool, e, window)
    ensures i < |pool| && SameChange(pool[i], e) && e.at - pool[i].at <= window
  {
    if SameChange(pool[|pool| - 1], e) {
      i := |pool| - 1;
    } else {
      i := DuplicateWitness(pool[..|pool| - 1], e, window);
    }
  }

  // --- retention ----------------------------------------------------------------------------

  /** Nothing lies after the clock, and no change is older than the retention allows beside another. */
  ghost predicate Recent(cfg: Config, log: seq<Change>, clock: Time)
  {
    && (forall e | e in log :: e.at <= clock)
    && forall e, f | e in log && f in log :: e.at >= f.at - cfg.changeRetention
  }

  lemma AppendKeepsRecent(cfg: Config, log: seq<Change>, additions: seq<Change>, clock: Time, now: Time)
    requires Accepted(cfg) && InjectiveIds(cfg) && Made(cfg, additions) && Tidy(cfg, log)
    requires Recent(cfg, log, clock) && now >= clock && forall e | e in additions :: e.at == now
    ensures Recent(cfg, AppendChanges(cfg, log, additions, now), now)
  {
    hide Tidy, Made, AppendChanges;
    AppendKeepsTidy(cfg, log, additions, now);
  }

  // --- the method ---------------------------------------------------------------------------

  lemma DuplicatePrefix(pool: seq<Change>, e: Change, window: int, k: nat)
    requires k <= |pool| && forall i | k <= i < |pool| :: !SameChange(pool[i], e)
    ensures Duplicate(pool, e, window) == Duplicate(pool[..k], e, window)
    decreases |pool| - k
  {
    if k < |pool| {
      DuplicatePrefix(pool, e, window, k + 1);
      assert pool[..k + 1][..k] == pool[..k];
    } else {
      assert pool[..k] == pool;
    }
  }

  /** Looks for the last stored change like `e`, from the end. */
  method FindDuplicate(pool: seq<Change>, e: Change, window: int) returns (duplicate: bool)
    ensures duplicate == Duplicate(pool, e, window)
  {
    var k := |pool|;
    while k > 0
      invariant 0 <= k <= |pool| && forall i | k <= i < |pool| :: !SameChange(pool[i], e)
    {
      DuplicatePrefix(pool, e, window, k);
      if SameChange(pool[k - 1], e) {
        return e.at - pool[k - 1].at <= window;
      }
      k := k - 1;
    }
    DuplicatePrefix(pool, e, window, 0);
    return false;
  }

  /** Appends what is not suppressed; returns the new log and the accepted changes. */
  method AppendAccepted(cfg: Config, log: seq<Change>, additions: seq<Change>, now: Time)
    returns (grown: seq<Change>, accepted: seq<Change>)
    ensures grown == AppendChanges(cfg, log, additions, now)
    ensures accepted == Accept(log, additions, cfg.window)
  {
    hide Pruned, Duplicate;
    accepted := [];
    for i := 0 to |additions|
      invariant accepted == Accept(log, additions[..i], cfg.window)
    {
      var event := additions[i];
      assert additions[..i + 1][..i] == additions[..i];
      var duplicate := FindDuplicate(log + accepted, event, cfg.window);
      if !duplicate && !IdTaken(log, event) {
        accepted := accepted + [event];
      }
    }
    assert additions[..|additions|] == additions;
    if accepted == [] {
      return log, accepted;
    }
    grown := Pruned(cfg, log + accepted, now);
  }
}
