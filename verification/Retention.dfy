/** What the two logs of the inventory keep, and what they suppress and let go. */
module Retention {
  import opened Options
  import opened Ordering
  import opened InventoryTypes
  import History
  import ChangeLog

  // --- lifecycle events ---------------------------------------------------------------------

  lemma {:induction false} EventsSince(log: seq<Transition>, cutoff: Time, e: Transition)
    ensures e in History.Since(log, cutoff) <==> e in log && e.at >= cutoff
  {
    if log != [] {
      EventsSince(log[..|log| - 1], cutoff, e);
      assert log == log[..|log| - 1] + [log[|log| - 1]];
    }
  }

  lemma LastEvents(sorted: seq<Transition>, n: nat, e: Transition)
    requires Sorted(History.TransitionLe, sorted) && e in sorted
    ensures var kept := History.TakeLast(sorted, n);
      && |kept| <= n && (forall x | x in kept :: x in sorted)
      && (e in kept || (|kept| == n && forall x | x in kept :: History.TransitionLe(e, x)))
  {
    hide History.TransitionLe;
    var kept := History.TakeLast(sorted, n);
    var over := |sorted| - |kept|;
    var i :| 0 <= i < |sorted| && sorted[i] == e;
    if i >= over {
      assert kept[i - over] == e;
    } else {
      forall x | x in kept ensures History.TransitionLe(e, x) {
        var j :| 0 <= j < |kept| && kept[j] == x;
        assert x == sorted[over + j];
      }
    }
  }

  /**
   Recording a state change keeps every event that is not older than the retention, as long as there is
   room, and the latest where there is not; it keeps nothing else.
   */
  lemma HistoryKeeps(cfg: Config, log: seq<Transition>, key: TransitionKey, e: Transition)
    requires key.previous != Some(key.current) && !History.Recorded(log, cfg.transitionId(key))
    ensures var after := History.AppendTransition(cfg, log, key);
            var present := e in log || e == History.MakeTransition(cfg, key);
            var candidate := present && e.at >= key.at - cfg.historyRetention;
      && |after| <= cfg.historyMax
      && (e in after ==> candidate)
      && (candidate ==>
            e in after || (|after| == cfg.historyMax && forall x | x in after :: History.TransitionLe(e, x)))
  {
    hide History.TransitionLe, History.Since, Sort, History.TakeLast, History.Recorded;
    var recent := History.Since(log + [History.MakeTransition(cfg, key)], key.at - cfg.historyRetention);
    var sorted := Sort(History.TransitionLe, recent);
    EventsSince(log + [History.MakeTransition(cfg, key)], key.at - cfg.historyRetention, e);
    History.TransitionOrder();
    SortSorts(History.TransitionLe, recent);
    SameElements(recent, sorted);
    KeptSorted(sorted, cfg.historyMax);
    if e in recent {
      LastEvents(sorted, cfg.historyMax, e);
    }
  }

  lemma KeptSorted(sorted: seq<Transition>, n: nat)
    ensures |History.TakeLast(sorted, n)| <= n && forall x | x in History.TakeLast(sorted, n) :: x in sorted
  {
  }

  // --- changes ------------------------------------------------------------------------------

  lemma {:induction false} ChangesSince(log: seq<Change>, cutoff: Time, e: Change)
    ensures e in ChangeLog.Since(log, cutoff) <==> e in log && e.at >= cutoff
  {
    if log != [] {
      ChangesSince(log[..|log| - 1], cutoff, e);
      assert log == log[..|log| - 1] + [log[|log| - 1]];
    }
  }

  lemma LastChanges(sorted: seq<Change>, n: nat, e: Change)
    requires Sorted(ChangeLog.ChangeLe, sorted) && e in sorted
    ensures var kept := ChangeLog.TakeLast(sorted, n);
            e in kept || (|kept| == n && forall x | x in kept :: ChangeLog.ChangeLe(e, x))
  {
    hide ChangeLog.ChangeLe;
    var kept := ChangeLog.TakeLast(sorted, n);
    var over := |sorted| - |kept|;
    var i :| 0 <= i < |sorted| && sorted[i] == e;
    if i >= over {
      assert kept[i - over] == e;
    } else {
      forall x | x in kept ensures ChangeLog.ChangeLe(e, x) {
        var j :| 0 <= j < |kept| && kept[j] == x;
        assert x == sorted[over + j];
      }
    }
  }

  /** Appending accepted changes loses no change within the retention, but the oldest where there is no room. */
  lemma ChangesKeep(cfg: Config, log: seq<Change>, additions: seq<Change>, now: Time, e: Change)
    requires ChangeLog.Accept(log, additions, cfg.window) != []
    requires e in log || e in ChangeLog.Accept(log, additions, cfg.window)
    requires e.at >= now - cfg.changeRetention
    ensures var after := ChangeLog.AppendChanges(cfg, log, additions, now);
            e in after || (|after| == cfg.changeMax && forall x | x in after :: ChangeLog.ChangeLe(e, x))
  {
    hide ChangeLog.ChangeLe, ChangeLog.Since, Sort, ChangeLog.TakeLast, ChangeLog.Accept;
    var all := log + ChangeLog.Accept(log, additions, cfg.window);
    var recent := ChangeLog.Since(all, now - cfg.changeRetention);
    var sorted := Sort(ChangeLog.ChangeLe, recent);
    ChangesSince(all, now - cfg.changeRetention, e);
    ChangeLog.ChangeOrder();
    SortSorts(ChangeLog.ChangeLe, recent);
    SameElements(recent, sorted);
    LastChanges(sorted, cfg.changeMax, e);
  }

  /** Both changes say that the same field of the same asset went from one value to the same other. */
  predicate Repeats(a: Change, b: Change)
  {
    (a.asset, a.field, a.previous, a.current, a.kind) == (b.asset, b.field, b.previous, b.current, b.kind)
  }

  /** The n-th change is suppressed exactly if its id is stored, or it repeats one within the window. */
  lemma SuppressedIff(cfg: Config, log: seq<Change>, additions: seq<Change>, n: nat)
    requires Accepted(cfg) && InjectiveIds(cfg) && ChangeLog.Made(cfg, additions) && ChangeLog.Tidy(cfg, log)
    requires n < |additions|
    ensures var earlier, e := ChangeLog.Accept(log, additions[..n], cfg.window), additions[n];
            ChangeLog.Accept(log, additions[..n + 1], cfg.window) ==
            if (exists x | x in log :: x.eventId == e.eventId)
               || (exists x | x in log + earlier :: Repeats(x, e) && e.at - x.at <= cfg.window)
            then earlier else earlier + [e]
  {
    hide ChangeLog.Made, ChangeLog.Tidy, ChangeLog.Accept;
    ChangeLog.AcceptedIffFresh(cfg, log, additions, n);
    var earlier, e := ChangeLog.Accept(log, additions[..n], cfg.window), additions[n];
    var pool := log + earlier;
    forall x ensures x in pool <==> exists i :: 0 <= i < |pool| && pool[i] == x {
    }
    assert ChangeLog.IdTaken(log, e) <==> exists x | x in log :: x.eventId == e.eventId by {
      if exists x | x in log :: x.eventId == e.eventId {
        var x :| x in log && x.eventId == e.eventId;
        var i :| 0 <= i < |log| && log[i] == x;
      }
    }
    forall x ensures Repeats(x, e) <==> ChangeLog.SameChange(x, e) {
    }
  }
}
