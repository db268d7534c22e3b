/**
 The lifecycle history: every change of an asset's lifecycle state is appended to one log, which
 is deduplicated by event id, pruned by age and by length, and kept sorted.
 */
module History {
  import opened Options
  import opened Ordering
  import opened InventoryTypes

  predicate TransitionLe(a: Transition, b: Transition)
  {
    a.at < b.at || (a.at == b.at && a.eventId <= b.eventId)
  }

  function Since(log: seq<Transition>, cutoff: Time): (r: seq<Transition>)
  {
    if log == [] then []
    else Since(log[..|log| - 1], cutoff) + (if log[|log| - 1].at >= cutoff then [log[|log| - 1]] else [])
  }

  function TakeLast<T>(s: seq<T>, n: nat): seq<T>
  {
    if |s| <= n then s else s[|s| - n..]
  }

  function MakeTransition(cfg: Config, key: TransitionKey): Transition
  {
    Transition(cfg.transitionId(key), key.asset, key.previous, key.current, key.reason, key.at, key.runId)
  }

  predicate Recorded(log: seq<Transition>, eventId: int)
  {
    exists i | 0 <= i < |log| :: log[i].eventId == eventId
  }

  /** Appends one state change, unless nothing changed or the very same event is already there. */
  function AppendTransition(cfg: Config, log: seq<Transition>, key: TransitionKey): seq<Transition>
  {
    var event := MakeTransition(cfg, key);
    if key.previous == Some(key.current) || Recorded(log, event.eventId) then log
    else TakeLast(Sort(TransitionLe, Since(log + [event], key.at - cfg.historyRetention)), cfg.historyMax)
  }

  // --- reading the log ----------------------------------------------------------------------

  /** The last event of an asset. */
  function Last(log: seq<Transition>, id: string): (r: Option<Transition>)
    ensures r.Some? ==> r.value in log && r.value.asset == id
    ensures r.None? ==> forall i | 0 <= i < |log| :: log[i].asset != id
  {
    if log == [] then None
    else if log[|log| - 1].asset == id then Some(log[|log| - 1])
    else
      assert log == log[..|log| - 1] + [log[|log| - 1]];
      Last(log[..|log| - 1], id)
  }

  /** Each event of an asset starts in the state its previous retained event ended in. */
  ghost predicate Chained(log: seq<Transition>)
  {
    log == [] ||
    var init, e := log[..|log| - 1], log[|log| - 1];
    Chained(init) && (Last(init, e.asset).Some? ==> e.previous == Some(Last(init, e.asset).value.current))
  }

  /** Replaying the log gives every asset it mentions its present state. */
  ghost predicate Replays(log: seq<Transition>, assets: seq<Asset>)
  {
    forall id | Last(log, id).Some? :: StateOf(assets, id) == Some(Last(log, id).value.current)
  }

  lemma {:induction false} LastConcat(a: seq<Transition>, b: seq<Transition>, id: string)
    ensures Last(a + b, id) == if Last(b, id).Some? then Last(b, id) else Last(a, id)
  {
    if b == [] {
      assert a + b == a;
    } else {
      LastConcat(a, b[..|b| - 1], id);
      assert (a + b)[..|a + b| - 1] == a + b[..|b| - 1];
    }
  }

  lemma {:induction false} ChainedSuffix(a: seq<Transition>, b: seq<Transition>)
    requires Chained(a + b)
    ensures Chained(b)
  {
    hide Last;
    if b != [] {
      var init, e := b[..|b| - 1], b[|b| - 1];
      assert (a + b)[..|a + b| - 1] == a + init && (a + b)[|a + b| - 1] == e;
      ChainedSuffix(a, init);
      LastConcat(a, init, e.asset);
    }
  }

  lemma {:induction false} ChainedPrefix(a: seq<Transition>, b: seq<Transition>)
    requires Chained(a + b)
    ensures Chained(a)
  {
    hide Last;
    if b == [] {
      assert a + b == a;
    } else {
      assert (a + b)[..|a + b| - 1] == a + b[..|b| - 1];
      ChainedPrefix(a, b[..|b| - 1]);
    }
  }

  /** An event may be put in front of later events of other assets. */
  lemma {:induction false} ChainedInsert(a: seq<Transition>, e: Transition, b: seq<Transition>)
    requires Chained(a + b) && forall i | 0 <= i < |b| :: b[i].asset != e.asset
    requires Last(a, e.asset).Some? ==> e.previous == Some(Last(a, e.asset).value.current)
    ensures Chained(a + [e] + b)
  {
    hide Last;
    var whole := a + [e] + b;
    if b == [] {
      assert a + b == a && whole == a + [e];
      assert whole[..|whole| - 1] == a;
    } else {
      var init, last := b[..|b| - 1], b[|b| - 1];
      assert (a + b)[..|a + b| - 1] == a + init && (a + b)[|a + b| - 1] == last;
      ChainedInsert(a, e, init);
      assert whole[..|whole| - 1] == a + [e] + init && whole[|whole| - 1] == last;
      LastConcat(a + [e], init, last.asset);
      LastConcat(a, [e], last.asset);
      LastConcat(a, init, last.asset);
      LastOne(e, last.asset);
    }
  }

  lemma LastOne(e: Transition, id: string)
    ensures Last([e], id) == if e.asset == id then Some(e) else None
  {
    assert [e][..0] == [];
  }

  // --- what an append does ------------------------------------------------------------------

  lemma TransitionOrder()
    ensures Total(TransitionLe) && Transitive(TransitionLe)
  {
  }

  ghost predicate Ascending(log: seq<Transition>)
  {
    forall i, j | 0 <= i < j < |log| :: log[i].at <= log[j].at
  }

  lemma SortedAscends(log: seq<Transition>)
    requires Sorted(TransitionLe, log)
    ensures Ascending(log)
  {
    forall i, j | 0 <= i < j < |log| ensures log[i].at <= log[j].at {
      assert TransitionLe(log[i], log[j]);
    }
  }

  lemma {:induction false} SinceNothing(log: seq<Transition>, cutoff: Time)
    requires forall i | 0 <= i < |log| :: log[i].at < cutoff
    ensures Since(log, cutoff) == []
  {
    if log != [] {
      SinceNothing(log[..|log| - 1], cutoff);
    }
  }

  /** On a sorted log the cutoff removes a prefix. */
  lemma {:induction false} SinceIsSuffix(log: seq<Transition>, cutoff: Time) returns (k: nat)
    requires Ascending(log)
    ensures k <= |log| && Since(log, cutoff) == log[k..]
    ensures forall i | 0 <= i < k :: log[i].at < cutoff
  {
    if log == [] {
      k := 0;
    } else if log[|log| - 1].at < cutoff {
      SinceNothing(log, cutoff);
      k := |log|;
      assert log[|log|..] == [];
    } else {
      var init, last := log[..|log| - 1], log[|log| - 1];
      k := SinceIsSuffix(init, cutoff);
      assert log[k..] == init[k..] + [last];
    }
  }

  lemma SinceSnoc(log: seq<Transition>, e: Transition, cutoff: Time)
    requires e.at >= cutoff
    ensures Since(log + [e], cutoff) == Since(log, cutoff) + [e]
  {
    assert (log + [e])[..|log|] == log;
  }

  /** Sorting a sorted log with one more event at the end inserts that event. */
  lemma SortSnoc(log: seq<Transition>, e: Transition)
    requires Sorted(TransitionLe, log)
    ensures Sort(TransitionLe, log + [e]) == Insert(TransitionLe, log, e)
  {
    SortKeepsSorted(TransitionLe, log);
    assert (log + [e])[..|log|] == log;
  }

  /** Where the event goes, and how much of the front falls away. */
  ghost predicate Appended(before: seq<Transition>, e: Transition, after: seq<Transition>, p: nat, k: nat)
  {
    && p <= |before| && k <= |before|
    && after == (before[..p] + [e] + before[p..])[k..]
    && (forall i | 0 <= i < p :: TransitionLe(before[i], e))
    && (forall i | p <= i < |before| :: !TransitionLe(before[i], e))
  }

  /** An append is an insertion into what the cutoff leaves, cut to the longest length allowed. */
  lemma AppendShape(cfg: Config, log: seq<Transition>, key: TransitionKey) returns (dropped: nat, over: nat)
    requires Accepted(cfg) && Sorted(TransitionLe, log)
    requires key.previous != Some(key.current) && !Recorded(log, cfg.transitionId(key))
    ensures dropped <= |log| && over <= |log| - dropped
    ensures over == 0 || |log| - dropped + 1 - over == cfg.historyMax
    ensures AppendTransition(cfg, log, key) == Insert(TransitionLe, log[dropped..], MakeTransition(cfg, key))[over..]
    ensures |AppendTransition(cfg, log, key)| <= cfg.historyMax
    ensures forall i | 0 <= i < dropped :: log[i].at < key.at - cfg.historyRetention
  {
    hide Since, Sort, Insert, Recorded, TransitionLe, Ascending, Sorted, TakeLast;
    var e := MakeTransition(cfg, key);
    var cutoff := key.at - cfg.historyRetention;
    SortedAscends(log);
    dropped := SinceIsSuffix(log, cutoff);
    SinceSnoc(log, e, cutoff);
    SortedSuffix(log, dropped);
    SortSnoc(log[dropped..], e);
    over := TakeLastDrops(Insert(TransitionLe, log[dropped..], e), cfg.historyMax);
  }

  lemma AppendCases(cfg: Config, log: seq<Transition>, key: TransitionKey) returns (p: nat, k: nat)
    requires Accepted(cfg) && Sorted(TransitionLe, log)
    requires key.previous != Some(key.current) && !Recorded(log, cfg.transitionId(key))
    ensures Appended(log, MakeTransition(cfg, key), AppendTransition(cfg, log, key), p, k)
    ensures |log| <= cfg.historyMax ==> k <= 1 || forall i | 0 <= i < k :: log[i].at < key.at - cfg.historyRetention
    ensures Sorted(TransitionLe, AppendTransition(cfg, log, key))
    ensures |AppendTransition(cfg, log, key)| <= cfg.historyMax
  {
    hide AppendTransition, Insert, Place, Recorded, TransitionLe, Sorted;
    var e := MakeTransition(cfg, key);
    var dropped, over := AppendShape(cfg, log, key);
    var kept := log[dropped..];
    var q := Place(TransitionLe, kept, e);
    p, k := dropped + q, dropped + over;
    SortedSuffix(log, dropped);
    TransitionOrder();
    InsertSorts(TransitionLe, kept, e);
    SortedSuffix(Insert(TransitionLe, kept, e), over);
    InsertIs(kept, e);
    Assemble(log, e, dropped, q, over);
    PlaceSplits(log, e, key.at - cfg.historyRetention, dropped);
  }

  lemma SortedSuffix(s: seq<Transition>, k: nat)
    requires Sorted(TransitionLe, s) && k <= |s|
    ensures Sorted(TransitionLe, s[k..])
  {
  }

  lemma TakeLastDrops<T>(s: seq<T>, n: nat) returns (over: nat)
    requires n >= 1 && s != []
    ensures over < |s| && TakeLast(s, n) == s[over..] && |TakeLast(s, n)| <= n
    ensures over == 0 || |s| - over == n
  {
    over := if |s| <= n then 0 else |s| - n;
  }

  lemma Assemble(log: seq<Transition>, e: Transition, dropped: nat, q: nat, over: nat)
    requires dropped <= |log| && q <= |log| - dropped && over <= |log| - dropped + 1
    ensures var kept := log[dropped..];
            var p := dropped + q;
            (log[..p] + [e] + log[p..])[dropped + over..] == (kept[..q] + [e] + kept[q..])[over..]
  {
    var kept := log[dropped..];
    var p := dropped + q;
    var whole, tail := log[..p] + [e] + log[p..], kept[..q] + [e] + kept[q..];
    assert |whole| == dropped + |tail|;
    forall i | 0 <= i < |tail| ensures whole[dropped + i] == tail[i] {
    }
  }

  lemma PlaceSplits(log: seq<Transition>, e: Transition, cutoff: Time, dropped: nat)
    requires Sorted(TransitionLe, log) && dropped <= |log| && cutoff <= e.at
    requires forall i | 0 <= i < dropped :: log[i].at < cutoff
    ensures var p := dropped + Place(TransitionLe, log[dropped..], e);
      && (forall i | 0 <= i < p :: TransitionLe(log[i], e))
      && (forall i | p <= i < |log| :: !TransitionLe(log[i], e))
  {
    hide Place;
    var kept := log[dropped..];
    var p := dropped + Place(TransitionLe, kept, e);
    TransitionOrder();
    PlaceAbove(TransitionLe, kept, e);
    PlaceBelow(TransitionLe, kept, e);
    forall i | 0 <= i < p ensures TransitionLe(log[i], e) {
      if i >= dropped {
        assert log[i] == kept[i - dropped];
      }
    }
    forall i | p <= i < |log| ensures !TransitionLe(log[i], e) {
      assert log[i] == kept[i - dropped];
    }
  }

  lemma InsertIs(s: seq<Transition>, e: Transition)
    ensures var q := Place(TransitionLe, s, e);
            q <= |s| && Insert(TransitionLe, s, e) == s[..q] + [e] + s[q..]
  {
  }

  // --- the invariant of the log and the assets together -------------------------------------

  /**
   The log is sorted and bounded, nothing in it lies after `now`, only the assets in `moved` have an
   event at `now`, and replaying it chains up to every asset's present state.
   */
  ghost predicate Faithful(cfg: Config, assets: seq<Asset>, log: seq<Transition>, now: Time, moved: set<string>)
  {
    && UniqueIds(assets)
    && Sorted(TransitionLe, log) && |log| <= cfg.historyMax
    && (forall i | 0 <= i < |log| :: log[i].at <= now && (log[i].at == now ==> log[i].asset in moved))
    && Genuine(cfg, log)
    && Chained(log) && Replays(log, assets)
  }

  function KeyOf(t: Transition): TransitionKey
  {
    TransitionKey(t.asset, t.previous, t.current, t.reason, t.at, t.runId)
  }

  /** Every event carries the id of what it records. */
  ghost predicate Genuine(cfg: Config, log: seq<Transition>)
  {
    forall i | 0 <= i < |log| :: log[i].eventId == cfg.transitionId(KeyOf(log[i]))
  }

  /** Only the asset `id` differs in state between two inventories. */
  ghost predicate SameStatesBut(before: seq<Asset>, after: seq<Asset>, id: string)
  {
    forall other | other != id :: StateOf(after, other) == StateOf(before, other)
  }

  lemma ReplaysAppend(log: seq<Transition>, e: Transition, after: seq<Transition>, p: nat, k: nat,
                      before: seq<Asset>, assets: seq<Asset>)
    requires Appended(log, e, after, p, k) && Chained(log) && Replays(log, before)
    requires e.previous == StateOf(before, e.asset) && StateOf(assets, e.asset) == Some(e.current)
    requires SameStatesBut(before, assets, e.asset)
    requires forall i | p <= i < |log| :: log[i].asset != e.asset
    ensures Chained(after) && Replays(after, assets)
  {
    hide Last, StateOf, TransitionLe;
    var a, b := log[..p], log[p..];
    assert log == a + b;
    LastConcat(a, b, e.asset);
    assert forall x | x in b :: x.asset != e.asset;
    ChainedInsert(a, e, b);
    var whole := a + [e] + b;
    assert whole == whole[..k] + after;
    ChainedSuffix(whole[..k], after);
    forall id | Last(after, id).Some? ensures StateOf(assets, id) == Some(Last(after, id).value.current) {
      LastConcat(whole[..k], after, id);
      LastConcat(a + [e], b, id);
      LastConcat(a, [e], id);
      LastConcat(a, b, id);
      LastOne(e, id);
    }
  }

  /**
   Recording the state change of one asset keeps the log faithful, when that asset has no other
   event at this moment.
   */
  lemma MoveKeepsFaithful(cfg: Config, before: seq<Asset>, after: seq<Asset>, log: seq<Transition>,
                          moved: set<string>, key: TransitionKey)
    requires Accepted(cfg) && InjectiveIds(cfg)
    requires Faithful(cfg, before, log, key.at, moved) && key.asset !in moved
    requires key.previous == StateOf(before, key.asset)
    requires UniqueIds(after) && StateOf(after, key.asset) == Some(key.current)
    requires SameStatesBut(before, after, key.asset)
    ensures Faithful(cfg, after, AppendTransition(cfg, log, key), key.at, moved + {key.asset})
  {
    hide StateOf, UniqueIds, Chained, Sorted, TransitionLe, Last, AppendTransition, Replays, SameStatesBut, Recorded;
    var e := MakeTransition(cfg, key);
    var grown := AppendTransition(cfg, log, key);
    if key.previous == Some(key.current) {
      Suppressed(cfg, log, key);
      Unchanged(log, before, after, key.asset);
    } else {
      NotRecorded(cfg, log, moved, key);
      var p, k := AppendCases(cfg, log, key);
      AppendedElements(log, e, grown, p, k);
      ElementsStay(cfg, log, e, grown, key, moved);
      NothingBehind(log, e, grown, p, k, moved);
      ReplaysAppend(log, e, grown, p, k, before, after);
    }
  }

  lemma ElementsStay(cfg: Config, log: seq<Transition>, e: Transition, grown: seq<Transition>, key: TransitionKey,
                     moved: set<string>)
    requires e == MakeTransition(cfg, key) && Genuine(cfg, log)
    requires forall i | 0 <= i < |grown| :: grown[i] == e || grown[i] in log
    requires forall i | 0 <= i < |log| :: log[i].at <= key.at && (log[i].at == key.at ==> log[i].asset in moved)
    ensures Genuine(cfg, grown)
    ensures forall i | 0 <= i < |grown| ::
              grown[i].at <= key.at && (grown[i].at == key.at ==> grown[i].asset in moved + {key.asset})
  {
  }

  lemma NothingBehind(log: seq<Transition>, e: Transition, after: seq<Transition>, p: nat, k: nat, moved: set<string>)
    requires Appended(log, e, after, p, k) && e.asset !in moved
    requires forall i | 0 <= i < |log| :: log[i].at <= e.at && (log[i].at == e.at ==> log[i].asset in moved)
    ensures forall i | p <= i < |log| :: log[i].asset != e.asset
  {
    hide TransitionLe;
    forall i | p <= i < |log| ensures log[i].asset != e.asset {
      LaterMeansNow(log[i], e);
    }
  }

  lemma NotRecorded(cfg: Config, log: seq<Transition>, moved: set<string>, key: TransitionKey)
    requires InjectiveIds(cfg) && Genuine(cfg, log) && key.asset !in moved
    requires forall i | 0 <= i < |log| && log[i].at == key.at :: log[i].asset in moved
    ensures !Recorded(log, cfg.transitionId(key))
  {
    forall i | 0 <= i < |log| ensures log[i].eventId != cfg.transitionId(key) {
      assert KeyOf(log[i]) != key;
    }
  }

  lemma LaterMeansNow(x: Transition, e: Transition)
    ensures !TransitionLe(x, e) ==> x.at >= e.at
  {
  }

  lemma AppendedElements(log: seq<Transition>, e: Transition, after: seq<Transition>, p: nat, k: nat)
    requires Appended(log, e, after, p, k)
    ensures forall i | 0 <= i < |after| :: after[i] == e || after[i] in log
  {
    hide TransitionLe;
    var whole := log[..p] + [e] + log[p..];
    forall i | 0 <= i < |after| ensures after[i] == e || after[i] in log {
      assert after[i] == whole[i + k];
    }
  }

  lemma Unchanged(log: seq<Transition>, before: seq<Asset>, after: seq<Asset>, id: string)
    requires Replays(log, before) && SameStatesBut(before, after, id)
    requires StateOf(before, id) == StateOf(after, id)
    ensures Replays(log, after)
  {
    hide StateOf, Last;
    forall x | Last(log, x).Some? ensures StateOf(after, x) == Some(Last(log, x).value.current) {
      assert x != id ==> StateOf(after, x) == StateOf(before, x);
    }
  }

  /** Pruning only ever removes a prefix: what remains of the old log is a suffix of it, in place. */
  lemma AppendPrunesPrefix(cfg: Config, log: seq<Transition>, key: TransitionKey)
    requires Accepted(cfg) && Sorted(TransitionLe, log)
    ensures var grown := AppendTransition(cfg, log, key);
            grown == log ||
            exists p: nat, k: nat :: p <= |log| && k <= |log|
                   && grown == (log[..p] + [MakeTransition(cfg, key)] + log[p..])[k..]
  {
    hide Sorted, TransitionLe, AppendTransition;
    if key.previous != Some(key.current) && !Recorded(log, cfg.transitionId(key)) {
      var p, k := AppendCases(cfg, log, key);
      assert Appended(log, MakeTransition(cfg, key), AppendTransition(cfg, log, key), p, k);
    } else {
      Suppressed(cfg, log, key);
    }
  }

  lemma Suppressed(cfg: Config, log: seq<Transition>, key: TransitionKey)
    requires key.previous == Some(key.current) || Recorded(log, cfg.transitionId(key))
    ensures AppendTransition(cfg, log, key) == log
  {
  }

  // --- the order of the log -----------------------------------------------------------------

  lemma {:induction false} LastAt(log: seq<Transition>, id: string) returns (m: nat)
    requires Last(log, id).Some?
    ensures m < |log| && Last(log, id) == Some(log[m]) && forall i | m < i < |log| :: log[i].asset != id
  {
    if log[|log| - 1].asset == id {
      m := |log| - 1;
    } else {
      m := LastAt(log[..|log| - 1], id);
    }
  }

  lemma {:induction false} LastIs(log: seq<Transition>, m: nat, id: string)
    requires m < |log| && log[m].asset == id && forall i | m < i < |log| :: log[i].asset != id
    ensures Last(log, id) == Some(log[m])
  {
    if m < |log| - 1 {
      LastIs(log[..|log| - 1], m, id);
    }
  }

  lemma AppendedAt(log: seq<Transition>, e: Transition, after: seq<Transition>, p: nat, k: nat)
    requires Appended(log, e, after, p, k)
    ensures p <= |log| && |after| == |log| + 1 - k
    ensures forall i | 0 <= i < |after| ::
              after[i] == if i + k < p then log[i + k] else if i + k == p then e else log[i + k - 1]
  {
    hide TransitionLe;
    var whole := log[..p] + [e] + log[p..];
    forall i | 0 <= i < |after|
      ensures after[i] == if i + k < p then log[i + k] else if i + k == p then e else log[i + k - 1] {
      assert after[i] == whole[i + k];
    }
  }

  /** Nothing of the asset follows its last event in the log, so what was inserted after that one is its last. */
  lemma InsertedAfter(log: seq<Transition>, e: Transition, after: seq<Transition>, p: nat, k: nat, m: nat)
    requires Appended(log, e, after, p, k) && m < p && k <= p
    requires forall i | m < i < |log| :: log[i].asset != e.asset
    ensures Last(after, e.asset) == Some(e)
  {
    hide Appended, Last;
    AppendedAt(log, e, after, p, k);
    assert after[p - k] == e;
    LastIs(after, p - k, e.asset);
  }

  /** What was inserted before the asset's last event leaves that one the last. */
  lemma InsertedBefore(log: seq<Transition>, e: Transition, after: seq<Transition>, p: nat, k: nat, m: nat)
    requires Appended(log, e, after, p, k) && p <= m < |log| && k <= m + 1 && log[m].asset == e.asset
    requires forall i | m < i < |log| :: log[i].asset != e.asset
    ensures Last(after, e.asset) == Some(log[m])
  {
    hide Appended, Last;
    AppendedAt(log, e, after, p, k);
    assert after[m + 1 - k] == log[m];
    LastIs(after, m + 1 - k, e.asset);
  }

  /** The greater of an asset's last event and its new one stays, and stands last of the two. */
  lemma GreaterIsLast(log: seq<Transition>, e: Transition, after: seq<Transition>, p: nat, k: nat, m: nat, cutoff: Time)
    requires Appended(log, e, after, p, k) && m < |log| && log[m].asset == e.asset && e.at >= cutoff
    requires forall i | m < i < |log| :: log[i].asset != e.asset
    requires k <= 1 || forall i | 0 <= i < k :: log[i].at < cutoff
    ensures Last(after, e.asset) == Some(if TransitionLe(log[m], e) then e else log[m])
  {
    hide Last;
    if TransitionLe(log[m], e) {
      assert p > m;
      assert k <= p by {
        if k > 1 {
          assert p < k ==> log[p].at < cutoff;
        }
      }
      InsertedAfter(log, e, after, p, k, m);
    } else {
      assert p <= m && log[m].at >= e.at;
      assert k <= m + 1;
      InsertedBefore(log, e, after, p, k, m);
    }
  }

  /**
   The log is kept in the order of times and ids, not of appending: whatever else it holds, it ends in
   the asset's new state if and only if the new event is later than the asset's last one, or has the
   same time and the greater id.
   */
  lemma EndsInNewStateIff(cfg: Config, log: seq<Transition>, key: TransitionKey)
    requires Accepted(cfg) && Sorted(TransitionLe, log) && |log| <= cfg.historyMax
    requires Last(log, key.asset).Some?
    requires key.previous == Some(Last(log, key.asset).value.current) != Some(key.current)
    requires !Recorded(log, cfg.transitionId(key))
    ensures var before, last := Last(log, key.asset).value, Last(AppendTransition(cfg, log, key), key.asset);
            && last.Some?
            && (last.value.current == key.current
                <==> before.at < key.at || (before.at == key.at && before.eventId < cfg.transitionId(key)))
  {
    hide AppendTransition, Last, Sorted, Appended;
    var m := LastAt(log, key.asset);
    var p, k := AppendCases(cfg, log, key);
    assert log[m].eventId != cfg.transitionId(key);
    GreaterIsLast(log, MakeTransition(cfg, key), AppendTransition(cfg, log, key), p, k, m,
                  key.at - cfg.historyRetention);
  }
}
