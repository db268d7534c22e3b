/** What the scheduler's root state says of the connectors, in every state reached from the defaults. */
module SchedulerAggregation {
  import opened Options
  import opened Ordering
  import opened SortedKeys
  import opened SchedulerState

  // --- sums ---------------------------------------------------------------------------------

  lemma {:induction false} SumSame(a: map<Name, Connector>, b: map<Name, Connector>, names: seq<Name>, phase: Phase)
    requires forall n | n in names :: Known(a, n).Of(phase).failures == Known(b, n).Of(phase).failures
    ensures Sum(a, names, phase) == Sum(b, names, phase)
    decreases |names|
  {
    if names != [] {
      SumSame(a, b, names[1..], phase);
    }
  }

  lemma {:induction false} SumExcept(connectors: map<Name, Connector>, names: seq<Name>, n: Name, phase: Phase)
    requires Rising(names) && n in names
    ensures Sum(connectors, names, phase)
         == Known(connectors, n).Of(phase).failures + Sum(connectors, Except(names, {n}), phase)
    decreases |names|
  {
    if names[0] == n {
      NothingExcepted(names[1..], n);
      assert Except(names, {n}) == Except(names[1..], {n});
    } else {
      SumExcept(connectors, names[1..], n, phase);
      var rest := Except(names[1..], {n});
      assert Except(names, {n}) == [names[0]] + rest && ([names[0]] + rest)[1..] == rest;
    }
  }

  lemma {:induction false} NothingExcepted(names: seq<Name>, n: Name)
    requires n !in names
    ensures Except(names, {n}) == names
    decreases |names|
  {
    if names != [] {
      NothingExcepted(names[1..], n);
    }
  }

  /** A connector that has never failed adds nothing. */
  lemma SumWithNew(connectors: map<Name, Connector>, names: set<Name>, n: Name, phase: Phase)
    requires n !in names && Known(connectors, n).Of(phase).failures == 0
    ensures Sum(connectors, Ascending(names + {n}), phase) == Sum(connectors, Ascending(names), phase)
  {
    hide Ascending, Sum;
    SumExcept(connectors, Ascending(names + {n}), n, phase);
    ExceptAscending(names + {n}, {n});
    assert names + {n} - {n} == names;
  }

  lemma {:induction false} SumZero(connectors: map<Name, Connector>, names: seq<Name>, phase: Phase)
    ensures Sum(connectors, names, phase) == 0
            <==> forall n | n in names :: Known(connectors, n).Of(phase).failures == 0
    decreases |names|
  {
    if names != [] {
      SumZero(connectors, names[1..], phase);
      assert forall n | n in names :: n == names[0] || n in names[1..];
    }
  }

  // --- errors -------------------------------------------------------------------------------

  lemma {:induction false} KeysAre(connectors: map<Name, Connector>, names: seq<Name>, status: Status, key: Key)
    ensures key in KeysWith(connectors, names, status)
            <==> key.0 in names && At(connectors, key).outcome == Some(status)
    decreases |names|
  {
    if names != [] {
      KeysAre(connectors, names[1..], status, key);
      assert key.0 in names <==> key.0 == names[0] || key.0 in names[1..];
    }
  }

  lemma KeyOrder()
    ensures Total(KeyLe) && Transitive(KeyLe)
  {
  }

  /** `key` is the least connector phase whose last outcome is `status`. */
  ghost predicate LeastWith(connectors: map<Name, Connector>, status: Status, key: Key)
  {
    && key.0 in connectors && At(connectors, key).outcome == Some(status)
    && forall n: Name, phase: Phase | n in connectors && At(connectors, (n, phase)).outcome == Some(status) ::
         KeyLe(key, (n, phase))
  }

  lemma SortedWithIs(connectors: map<Name, Connector>, status: Status)
    ensures SortedWith(connectors, status) == []
            <==> forall n: Name, phase: Phase | n in connectors :: At(connectors, (n, phase)).outcome != Some(status)
    ensures SortedWith(connectors, status) != [] ==> LeastWith(connectors, status, SortedWith(connectors, status)[0])
  {
    hide Sort, Ascending, KeysWith, KeyLe, At;
    var keys := KeysWith(connectors, Ascending(connectors.Keys), status);
    var sorted := SortedWith(connectors, status);
    KeyOrder();
    SortSorts(KeyLe, keys);
    SameElements(keys, sorted);
    forall n: Name, phase: Phase
      ensures (n, phase) in sorted <==> n in connectors && At(connectors, (n, phase)).outcome == Some(status)
    {
      KeysAre(connectors, Ascending(connectors.Keys), status, (n, phase));
    }
    if sorted != [] {
      var (m, p) := sorted[0];
      assert (m, p) in sorted;
      forall n: Name, phase: Phase | n in connectors && At(connectors, (n, phase)).outcome == Some(status)
        ensures KeyLe(sorted[0], (n, phase))
      {
        assert (n, phase) in sorted;
        FirstIsLeast(sorted, (n, phase));
      }
    }
  }

  lemma FirstIsLeast(sorted: seq<Key>, key: Key)
    requires Sorted(KeyLe, sorted) && key in sorted
    ensures KeyLe(sorted[0], key)
  {
    var i :| 0 <= i < |sorted| && sorted[i] == key;
  }

  // --- the invariant ------------------------------------------------------------------------

  ghost predicate NoneWith(connectors: map<Name, Connector>, status: Status)
  {
    forall n: Name, phase: Phase | n in connectors :: At(connectors, (n, phase)).outcome != Some(status)
  }

  /** The root counters are the sums of the connectors' counters. */
  ghost predicate SumsUp(root: Root)
  {
    forall phase: Phase :: root.Of(phase).failures == Sum(root.connectors, Ascending(root.connectors.Keys), phase)
  }

  /** The root's error is that of the least failing connector phase; nothing fails, nothing is reported. */
  ghost predicate ReportsLeast(root: Root)
  {
    if NoneWith(root.connectors, Failed) then root.error.None? && root.summary.None? && root.diagnostic.None?
    else exists key: Key :: LeastWith(root.connectors, Failed, key) && ReportedAs(root, At(root.connectors, key))
  }

  ghost predicate ReportedAs(root: Root, r: PhaseRecord)
  {
    root.error == r.error && root.summary == r.summary && root.diagnostic == r.diagnostic
  }

  lemma OtherPhaseKept(c: Connector, phase: Phase, o: Outcome, attemptedAt: Time, now: Time, other: Phase)
    ensures ConnectorNoted(c, phase, o, attemptedAt, now).Of(other)
         == if other == phase then Noted(c.Of(phase), o, attemptedAt, now) else c.Of(other)
  {
  }

  /** The sum of the phase that is not recorded stays, even when the connector is new. */
  lemma OtherSumKept(connectors: map<Name, Connector>, phase: Phase, o: Outcome, attemptedAt: Time, now: Time,
                     other: Phase)
    requires other != phase
    ensures var next := connectors[
              o.connector := ConnectorNoted(Known(connectors, o.connector), phase, o, attemptedAt, now)];
            Sum(next, Ascending(next.Keys), other) == Sum(connectors, Ascending(connectors.Keys), other)
  {
    hide Ascending, ConnectorNoted, Sum;
    var n := o.connector;
    var next := connectors[n := ConnectorNoted(Known(connectors, n), phase, o, attemptedAt, now)];
    OtherPhaseKept(Known(connectors, n), phase, o, attemptedAt, now, other);
    SumSame(next, connectors, Ascending(next.Keys), other);
    if n in connectors {
      assert next.Keys == connectors.Keys;
    } else {
      assert next.Keys == connectors.Keys + {n};
      SumWithNew(connectors, connectors.Keys, n, other);
    }
  }

  lemma RecordSumsUp(root: Root, phase: Phase, o: Outcome, attemptedAt: Time, now: Time)
    requires SumsUp(root)
    ensures SumsUp(Recorded(root, phase, o, attemptedAt, now))
  {
    hide Ascending, ConnectorNoted, Sum, SortedWith, At;
    var next := Recorded(root, phase, o, attemptedAt, now);
    forall other: Phase
      ensures next.Of(other).failures == Sum(next.connectors, Ascending(next.connectors.Keys), other) {
      if other != phase {
        OtherSumKept(root.connectors, phase, o, attemptedAt, now, other);
      }
    }
  }

  lemma RecordReportsLeast(root: Root, phase: Phase, o: Outcome, attemptedAt: Time, now: Time)
    ensures ReportsLeast(Recorded(root, phase, o, attemptedAt, now))
  {
    hide Ascending, ConnectorNoted, Sum, SortedWith, At, LeastWith;
    var next := Recorded(root, phase, o, attemptedAt, now);
    var errors := SortedWith(next.connectors, Failed);
    SortedWithIs(next.connectors, Failed);
    if errors != [] {
      assert LeastWith(next.connectors, Failed, errors[0]) && ReportedAs(next, At(next.connectors, errors[0]));
    }
  }

  // --- every state reached from the defaults ------------------------------------------------

  lemma {:induction false} AlwaysAggregated(changes: seq<Change>)
    ensures SumsUp(ApplyAll(changes)) && ReportsLeast(ApplyAll(changes))
  {
    hide Recorded, LeastWith;
    if changes != [] {
      var root := ApplyAll(changes[..|changes| - 1]);
      AlwaysAggregated(changes[..|changes| - 1]);
      match changes[|changes| - 1]
      case Record(phase, outcome, attemptedAt, now) =>
        RecordSumsUp(root, phase, outcome, attemptedAt, now);
        RecordReportsLeast(root, phase, outcome, attemptedAt, now);
      case Move(lifecycle, readyAt, skipReason) =>
        MoveAggregated(root, changes[|changes| - 1]);
    }
  }

  lemma MoveAggregated(root: Root, change: Change)
    requires change.Move? && SumsUp(root) && ReportsLeast(root)
    ensures SumsUp(Apply(root, change)) && ReportsLeast(Apply(root, change))
  {
    hide LeastWith, Sum, Ascending, At;
    var next := Apply(root, change);
    if !NoneWith(root.connectors, Failed) {
      var key: Key :| LeastWith(root.connectors, Failed, key) && ReportedAs(root, At(root.connectors, key));
      assert LeastWith(next.connectors, Failed, key) && ReportedAs(next, At(next.connectors, key));
    }
  }

  // --- what a state says of the outcomes so far ---------------------------------------------

  ghost predicate RecordFollows(r: PhaseRecord, changes: seq<Change>, key: Key)
  {
    && r.failures == Streak(changes, key)
    && match Latest(changes, key)
       case None => r == NO_RECORD
       case Some(o) =>
         && r.outcome == Some(o.status)
         && (o.status == Failed ==>
               (r.error == NonEmpty(o.errorType) && r.summary == NonEmpty(o.reason) && r.diagnostic == o.diagnostic))
  }

  lemma RecordedAt(root: Root, phase: Phase, o: Outcome, attemptedAt: Time, now: Time, key: Key)
    ensures var next := Recorded(root, phase, o, attemptedAt, now);
            At(next.connectors, key) == if o.connector == key.0 && phase == key.1
              then Noted(At(root.connectors, key), o, attemptedAt, now) else At(root.connectors, key)
  {
    hide Noted, SortedWith, Sum, Ascending, RootNoted;
    OtherPhaseKept(Known(root.connectors, o.connector), phase, o, attemptedAt, now, key.1);
  }

  /** In every state a connector phase's counter is its streak of failures and its error its last one's. */
  lemma {:induction false} CountersAreStreaks(changes: seq<Change>, key: Key)
    ensures RecordFollows(At(ApplyAll(changes).connectors, key), changes, key)
    ensures key.0 in ApplyAll(changes).connectors <== Latest(changes, key).Some?
  {
    hide Recorded, Noted;
    if changes != [] {
      var init, last := changes[..|changes| - 1], changes[|changes| - 1];
      var root := ApplyAll(init);
      CountersAreStreaks(init, key);
      match last
      case Record(phase, o, attemptedAt, now) =>
        RecordedAt(root, phase, o, attemptedAt, now, key);
        RecordedKeys(root, phase, o, attemptedAt, now);
        NotedFollows(At(root.connectors, key), init, last, key);
      case Move(lifecycle, readyAt, skipReason) =>
    }
  }

  lemma RecordedKeys(root: Root, phase: Phase, o: Outcome, attemptedAt: Time, now: Time)
    ensures Recorded(root, phase, o, attemptedAt, now).connectors.Keys == root.connectors.Keys + {o.connector}
  {
    hide ConnectorNoted, SortedWith, Sum, Ascending, RootNoted, At;
  }

  lemma NotedFollows(r: PhaseRecord, init: seq<Change>, last: Change, key: Key)
    requires last.Record? && RecordFollows(r, init, key)
    ensures RecordFollows(if About(last, key) then Noted(r, last.outcome, last.attemptedAt, last.now) else r,
                          init + [last], key)
  {
    assert (init + [last])[..|init|] == init;
  }

  lemma {:induction false} SuccessesNoted(changes: seq<Change>, phase: Phase)
    ensures ApplyAll(changes).Of(phase).succeeded.Some? <==> EverSucceeded(changes, phase)
  {
    hide ConnectorNoted, SortedWith, Sum, Ascending, At;
    if changes != [] {
      var init := changes[..|changes| - 1];
      SuccessesNoted(init, phase);
      SucceededSnoc(init, changes[|changes| - 1], phase);
      assert init + [changes[|changes| - 1]] == changes;
    }
  }

  lemma SucceededSnoc(init: seq<Change>, last: Change, phase: Phase)
    ensures EverSucceeded(init + [last], phase)
            <==> EverSucceeded(init, phase) || (last.Record? && last.phase == phase && last.outcome.status == Success)
  {
    var all := init + [last];
    assert all[|init|] == last;
    if EverSucceeded(init, phase) {
      var i :| 0 <= i < |init| && init[i].Record? && init[i].phase == phase && init[i].outcome.status == Success;
      assert all[i] == init[i];
    }
    if EverSucceeded(all, phase) {
      var i :| 0 <= i < |all| && all[i].Record? && all[i].phase == phase && all[i].outcome.status == Success;
      assert i < |init| ==> init[i] == all[i];
    }
  }

  // --- recovery -----------------------------------------------------------------------------

  /** No streak is running anywhere. */
  ghost predicate AllClear(changes: seq<Change>)
  {
    forall n: Name, phase: Phase :: Streak(changes, (n, phase)) == 0
  }

  lemma ZeroSumsAreClear(changes: seq<Change>)
    ensures ApplyAll(changes).discovery.failures == 0 && ApplyAll(changes).collection.failures == 0
            <==> AllClear(changes)
  {
    hide Sum, Ascending, Streak, ApplyAll, LeastWith, At, Latest;
    var root := ApplyAll(changes);
    AlwaysAggregated(changes);
    assert root.Of(Discovery) == root.discovery && root.Of(Collection) == root.collection;
    forall n: Name, phase: Phase ensures Known(root.connectors, n).Of(phase).failures == Streak(changes, (n, phase)) {
      CounterIs(changes, n, phase);
    }
    var names := Ascending(root.connectors.Keys);
    SumZero(root.connectors, names, Discovery);
    SumZero(root.connectors, names, Collection);
  }

  lemma CounterIs(changes: seq<Change>, n: Name, phase: Phase)
    ensures Known(ApplyAll(changes).connectors, n).Of(phase).failures == Streak(changes, (n, phase))
  {
    hide Streak, ApplyAll, Latest;
    CountersAreStreaks(changes, (n, phase));
  }

  /**
   Recording an outcome moves a degraded scheduler to ready exactly when it is a success, no connector
   phase has an unfinished streak of failures, and both phases have succeeded at some time; otherwise
   the lifecycle stays as it is.
   */
  lemma RecoversWhenClear(changes: seq<Change>, phase: Phase, o: Outcome, attemptedAt: Time, now: Time)
    ensures var all := changes + [Record(phase, o, attemptedAt, now)];
            var before, after := ApplyAll(changes), ApplyAll(all);
            && (before.lifecycle == Degraded ==>
                  (after.lifecycle == Ready <==>
                     && o.status == Success && AllClear(all)
                     && EverSucceeded(all, Discovery) && EverSucceeded(all, Collection)))
            && (after.lifecycle != before.lifecycle ==> before.lifecycle == Degraded && after.lifecycle == Ready)
  {
    hide ConnectorNoted, SortedWith, Sum, Ascending, At, AllClear, EverSucceeded;
    var change := Record(phase, o, attemptedAt, now);
    var all := changes + [change];
    assert all[..|changes|] == changes;
    ZeroSumsAreClear(all);
    SuccessesNoted(all, Discovery);
    SuccessesNoted(all, Collection);
    assert ApplyAll(all).Of(Discovery) == ApplyAll(all).discovery
           && ApplyAll(all).Of(Collection) == ApplyAll(all).collection;
  }

  // --- errors -------------------------------------------------------------------------------

  ghost predicate FailedLast(changes: seq<Change>, key: Key)
  {
    Latest(changes, key).Some? && Latest(changes, key).value.status == Failed
  }

  /** The connector phase is the same, or of an earlier name, or the collection where the other is the discovery. */
  predicate NoLater(a: Key, b: Key)
  {
    a == b || a.0 < b.0 || (a.0 == b.0 && a.1 == Collection && b.1 == Discovery)
  }

  lemma NoLaterIs(a: Key, b: Key)
    ensures NoLater(a, b) <==> KeyLe(a, b)
  {
    assert (a.0, a.1) == a && (b.0, b.1) == b;
  }

  ghost predicate LeastFailed(changes: seq<Change>, key: Key)
  {
    FailedLast(changes, key)
    && forall n: Name, phase: Phase | FailedLast(changes, (n, phase)) :: NoLater(key, (n, phase))
  }

  /** Where some connector phase failed last, the root reports the error of the least such phase. */
  lemma RootErrorIsLeast(changes: seq<Change>, key: Key)
    requires LeastFailed(changes, key)
    ensures var root, o := ApplyAll(changes), Latest(changes, key).value;
            root.error == NonEmpty(o.errorType) && root.summary == NonEmpty(o.reason) && root.diagnostic == o.diagnostic
  {
    hide Streak, ApplyAll, Latest, Sum, Ascending;
    var root := ApplyAll(changes);
    AlwaysAggregated(changes);
    CountersAreStreaks(changes, key);
    assert !NoneWith(root.connectors, Failed) by {
      assert (key.0, key.1) == key;
    }
    var least: Key :| LeastWith(root.connectors, Failed, least) && ReportedAs(root, At(root.connectors, least));
    CountersAreStreaks(changes, least);
    assert (least.0, least.1) == least && (key.0, key.1) == key;
    NoLaterIs(key, least);
    assert KeyLe(least, key) && KeyLe(key, least);
  }

  lemma NoErrorWithoutFailure(changes: seq<Change>)
    requires forall n: Name, phase: Phase :: !FailedLast(changes, (n, phase))
    ensures ApplyAll(changes).error.None? && ApplyAll(changes).summary.None? && ApplyAll(changes).diagnostic.None?
  {
    hide Streak, ApplyAll, Latest, Sum, Ascending, LeastWith;
    var root := ApplyAll(changes);
    AlwaysAggregated(changes);
    forall n: Name, phase: Phase | n in root.connectors
      ensures At(root.connectors, (n, phase)).outcome != Some(Failed) {
      CountersAreStreaks(changes, (n, phase));
      assert !FailedLast(changes, (n, phase));
    }
  }

  /** The change at `i` is a failure that no later success answers. */
  ghost predicate Unanswered(changes: seq<Change>, key: Key, i: int)
    requires 0 <= i < |changes|
  {
    && About(changes[i], key) && changes[i].outcome.status == Failed
    && forall j | i < j < |changes| && About(changes[j], key) :: changes[j].outcome.status != Success
  }

  /** A streak is running exactly when some failure has not been answered by a success. */
  lemma {:induction false} StreakIffUnanswered(changes: seq<Change>, key: Key)
    ensures Streak(changes, key) > 0 <==> exists i | 0 <= i < |changes| :: Unanswered(changes, key, i)
  {
    if changes != [] {
      var n := |changes| - 1;
      var init := changes[..n];
      StreakIffUnanswered(init, key);
      if Streak(init, key) > 0 {
        var i :| 0 <= i < |init| && Unanswered(init, key, i);
        assert !About(changes[n], key) || changes[n].outcome.status != Success ==> Unanswered(changes, key, i);
      }
      if About(changes[n], key) && changes[n].outcome.status == Failed {
        assert Unanswered(changes, key, n);
      }
      if i :| 0 <= i < |changes| && Unanswered(changes, key, i) {
        if i < n {
          assert Unanswered(init, key, i);
        }
      }
    }
  }

  /** Then the last outcome is that failure, or a skip after it. */
  lemma {:induction false} StreakEndings(changes: seq<Change>, key: Key)
    ensures Streak(changes, key) > 0 ==> Latest(changes, key).Some? && Latest(changes, key).value.status != Success
    ensures FailedLast(changes, key) ==> Streak(changes, key) > 0
  {
    if changes != [] {
      StreakEndings(changes[..|changes| - 1], key);
    }
  }

  /** Every failure names its exception, as the scheduler's always do. */
  ghost predicate NamedErrors(changes: seq<Change>)
  {
    forall i | 0 <= i < |changes| && changes[i].Record? && changes[i].outcome.status == Failed ::
      changes[i].outcome.errorType != ""
  }

  lemma {:induction false} LatestNamed(changes: seq<Change>, key: Key)
    requires NamedErrors(changes)
    ensures FailedLast(changes, key) ==> Latest(changes, key).value.errorType != ""
  {
    if changes != [] {
      LatestNamed(changes[..|changes| - 1], key);
    }
  }

  /** The root reports an error exactly when some connector phase failed last. */
  lemma RootErrorIff(changes: seq<Change>)
    requires NamedErrors(changes)
    ensures ApplyAll(changes).error.Some? <==> exists n: Name, phase: Phase :: FailedLast(changes, (n, phase))
  {
    hide Streak, ApplyAll, Latest, Sum, Ascending, NamedErrors;
    var root := ApplyAll(changes);
    if exists n: Name, phase: Phase :: FailedLast(changes, (n, phase)) {
      var n: Name, phase: Phase :| FailedLast(changes, (n, phase));
      AlwaysAggregated(changes);
      CountersAreStreaks(changes, (n, phase));
      var least: Key :| LeastWith(root.connectors, Failed, least) && ReportedAs(root, At(root.connectors, least));
      CountersAreStreaks(changes, least);
      LatestNamed(changes, least);
    } else {
      NoErrorWithoutFailure(changes);
    }
  }

  /**
   Failures are running while the root reports no error exactly when some streak is running and every
   running streak was last skipped.
   */
  lemma ErrorHiddenIff(changes: seq<Change>)
    requires NamedErrors(changes)
    ensures ApplyAll(changes).error.None? && !AllClear(changes) <==>
            && (exists n: Name, phase: Phase :: Streak(changes, (n, phase)) > 0)
            && (forall n: Name, phase: Phase | Streak(changes, (n, phase)) > 0 ::
                  Latest(changes, (n, phase)).Some? && Latest(changes, (n, phase)).value.status == Skipped)
  {
    hide Streak, ApplyAll, Latest, NamedErrors;
    RootErrorIff(changes);
    forall n: Name, phase: Phase
      ensures Streak(changes, (n, phase)) > 0 ==>
                Latest(changes, (n, phase)).Some? && Latest(changes, (n, phase)).value.status != Success
      ensures FailedLast(changes, (n, phase)) ==> Streak(changes, (n, phase)) > 0
    {
      StreakEndings(changes, (n, phase));
    }
  }

  /** A skip hides the error of a failure that still counts: no error does not mean no failures. */
  lemma SkipHidesFailure(n: Name, failed: Outcome, skipped: Outcome, now: Time)
    requires failed.connector == n == skipped.connector && failed.status == Failed && skipped.status == Skipped
    ensures var changes := [Record(Collection, failed, now, now), Record(Collection, skipped, now, now)];
            ApplyAll(changes).error.None? && !AllClear(changes)
  {
    hide ApplyAll;
    var one := [Record(Collection, failed, now, now)];
    var two := [Record(Collection, failed, now, now), Record(Collection, skipped, now, now)];
    assert one[..0] == [] && two[..1] == one;
    assert Streak(one, (n, Collection)) == 1;
    assert Streak(two, (n, Collection)) == 1;
    forall m: Name, phase: Phase ensures !FailedLast(two, (m, phase)) {
      assert Latest([], (m, phase)) == None;
      assert About(one[0], (m, phase)) <==> About(two[1], (m, phase));
      assert Latest(two, (m, phase)) == if About(two[1], (m, phase)) then Some(skipped) else Latest(one, (m, phase));
    }
    NoErrorWithoutFailure(two);
  }
}
