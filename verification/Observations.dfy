/**
 The observations that go into fusion: of all adapter results, one record per source and source
 asset, taken from the adapter with the greatest (priority, name), and listed by key.
 */
module Observations {
  import opened Options
  import opened Ordering
  import opened Dicts
  import opened Identity
  import Fusion

  datatype AdapterResult = AdapterResult(name: string, priority: int, assets: seq<Record>)
  datatype Key = Key(source: string, sourceKey: string)
  datatype Chosen = Chosen(priority: int, authority: string, record: Record)

  function KeyOf(record: Record): Key
  {
    Key(record.source, record.sourceKey)
  }

  /** Tuples compare by their first components, then by their second. */
  predicate KeyLe(a: Key, b: Key)
  {
    PairLe((a.source, a.sourceKey), (b.source, b.sourceKey))
  }

  predicate RankLe(p: int, n: string, q: int, m: string)
  {
    p < q || (p == q && StringLe(n, m))
  }

  predicate Outranks(c: Chosen, held: Chosen)
  {
    !RankLe(c.priority, c.authority, held.priority, held.authority)
  }

  function Offer(chosen: Dict<Key, Chosen>, c: Chosen): Dict<Key, Chosen>
  {
    var held := Get(chosen, KeyOf(c.record));
    if held.None? || Outranks(c, held.value) then Put(chosen, KeyOf(c.record), c) else chosen
  }

  function OfferAssets(chosen: Dict<Key, Chosen>, result: AdapterResult, n: nat): Dict<Key, Chosen>
    requires n <= |result.assets|
  {
    if n == 0 then chosen
    else Offer(OfferAssets(chosen, result, n - 1), Chosen(result.priority, result.name, result.assets[n - 1]))
  }

  function OfferResults(results: seq<AdapterResult>, n: nat): Dict<Key, Chosen>
    requires n <= |results|
  {
    if n == 0 then [] else OfferAssets(OfferResults(results, n - 1), results[n - 1], |results[n - 1].assets|)
  }

  function Values(d: Dict<Key, Chosen>): seq<Chosen>
  {
    seq(|d|, i requires 0 <= i < |d| => d[i].1)
  }

  function Observe(results: seq<AdapterResult>): seq<Chosen>
  {
    Values(SortedItems(KeyLe, OfferResults(results, |results|)))
  }

  function Records(chosen: seq<Chosen>): seq<Record>
  {
    seq(|chosen|, i requires 0 <= i < |chosen| => chosen[i].record)
  }

  method CollectObservations(results: seq<AdapterResult>) returns (observations: seq<Chosen>)
    ensures observations == Observe(results)
  {
    var chosen: Dict<Key, Chosen> := [];
    for i := 0 to |results|
      invariant chosen == OfferResults(results, i)
    {
      var result := results[i];
      for j := 0 to |result.assets|
        invariant chosen == OfferAssets(OfferResults(results, i), result, j)
      {
        var raw := result.assets[j];
        var candidate := Chosen(result.priority, result.name, raw);
        var held := Get(chosen, KeyOf(raw));
        if held.None? || Outranks(candidate, held.value) {
          chosen := Put(chosen, KeyOf(raw), candidate);
        }
      }
    }
    observations := [];
    var items := SortedItems(KeyLe, chosen);
    for i := 0 to |items|
      invariant observations == Values(items)[..i]
    {
      observations := observations + [items[i].1];
    }
  }

  // --- what is chosen -----------------------------------------------------------------------

  predicate Mentions(result: AdapterResult, key: Key, n: nat)
    requires n <= |result.assets|
  {
    exists j | 0 <= j < n :: KeyOf(result.assets[j]) == key
  }

  /** An adapter's own first record for a key; later ones never replace it. */
  function FirstFor(result: AdapterResult, key: Key, n: nat): Chosen
    requires n <= |result.assets| && Mentions(result, key, n)
  {
    if Mentions(result, key, n - 1) then FirstFor(result, key, n - 1)
    else Chosen(result.priority, result.name, result.assets[n - 1])
  }

  /** `c` is what the best adapter that mentions the key says first about it. */
  ghost predicate IsBest(results: seq<AdapterResult>, key: Key, c: Chosen)
  {
    exists k | 0 <= k < |results| ::
      && Mentions(results[k], key, |results[k].assets|)
      && c == FirstFor(results[k], key, |results[k].assets|)
      && forall other | other in results && Mentions(other, key, |other.assets|) ::
           RankLe(other.priority, other.name, results[k].priority, results[k].name)
  }

  /** No two different adapter results share priority and name. */
  ghost predicate DistinctAdapters(results: seq<AdapterResult>)
  {
    forall a, b | a in results && b in results && a.priority == b.priority && a.name == b.name :: a == b
  }

  lemma RankOrder(p: int, n: string, q: int, m: string)
    ensures RankLe(p, n, p, n)
    ensures RankLe(p, n, q, m) || RankLe(q, m, p, n)
    ensures RankLe(p, n, q, m) && RankLe(q, m, p, n) ==> p == q && n == m
  {
    StringLeTotal(n, n);
    StringLeTotal(n, m);
    if StringLe(n, m) && StringLe(m, n) {
      StringLeAntisymmetric(n, m);
    }
  }

  lemma RankTransitive(a: AdapterResult, b: AdapterResult, c: AdapterResult)
    requires RankLe(a.priority, a.name, b.priority, b.name) && RankLe(b.priority, b.name, c.priority, c.name)
    ensures RankLe(a.priority, a.name, c.priority, c.name)
  {
    if a.priority == c.priority {
      StringLeTransitive(a.name, b.name, c.name);
    }
  }

  lemma FirstForRank(result: AdapterResult, key: Key, n: nat)
    requires n <= |result.assets| && Mentions(result, key, n)
    ensures FirstFor(result, key, n).priority == result.priority && FirstFor(result, key, n).authority == result.name
  {
  }

  /** One adapter's records, offered in order, change a key's entry only to its first record for it. */
  lemma {:induction false} OfferAssetsGets(chosen: Dict<Key, Chosen>, result: AdapterResult, n: nat, key: Key)
    requires Distinct(chosen) && n <= |result.assets|
    ensures var d := OfferAssets(chosen, result, n);
      && Distinct(d)
      && Get(d, key) ==
         if !Mentions(result, key, n) then Get(chosen, key)
         else if Get(chosen, key).None? || Outranks(FirstFor(result, key, n), Get(chosen, key).value)
         then Some(FirstFor(result, key, n))
         else Get(chosen, key)
  {
    hide Get, Put, StringLe, Distinct;
    if n > 0 {
      OfferAssetsGets(chosen, result, n - 1, key);
      var before := OfferAssets(chosen, result, n - 1);
      var asset := result.assets[n - 1];
      var candidate := Chosen(result.priority, result.name, asset);
      PutGets(before, KeyOf(asset), candidate, key);
      RankOrder(result.priority, result.name, result.priority, result.name);
      if KeyOf(asset) == key {
        assert Mentions(result, key, n);
        if Mentions(result, key, n - 1) {
          FirstForRank(result, key, n - 1);
        }
      } else {
        assert Mentions(result, key, n) ==> Mentions(result, key, n - 1);
      }
    }
  }

  /** After any number of adapters, a key holds the word of the best one that mentions it. */
  lemma {:induction false} OfferResultsBest(results: seq<AdapterResult>, n: nat, key: Key)
    requires n <= |results|
    ensures var d := OfferResults(results, n);
      && Distinct(d)
      && (Get(d, key).None? ==> forall k | 0 <= k < n :: !Mentions(results[k], key, |results[k].assets|))
      && (Get(d, key).Some? ==> IsBest(results[..n], key, Get(d, key).value))
  {
    hide OfferAssets, StringLe, Distinct, RankLe, FirstFor, Mentions;
    if n == 0 {
      assert Distinct<Key, Chosen>([]) by { DistinctEmpty(); }
      assert Get<Key, Chosen>([], key).None?;
    } else {
      OfferResultsBest(results, n - 1, key);
      var before, result := OfferResults(results, n - 1), results[n - 1];
      OfferAssetsGets(before, result, |result.assets|, key);
      BestExtends(results, n, key, Get(before, key));
    }
  }

  lemma DistinctEmpty()
    ensures Distinct<Key, Chosen>([])
  {
  }

  lemma BestExtends(results: seq<AdapterResult>, n: nat, key: Key, held: Option<Chosen>)
    requires 0 < n <= |results|
    requires held.None? ==> forall k | 0 <= k < n - 1 :: !Mentions(results[k], key, |results[k].assets|)
    requires held.Some? ==> IsBest(results[..n - 1], key, held.value)
    ensures var result := results[n - 1];
      if !Mentions(result, key, |result.assets|) then held.Some? ==> IsBest(results[..n], key, held.value)
      else
        var first := FirstFor(result, key, |result.assets|);
        IsBest(results[..n], key, if held.None? || Outranks(first, held.value) then first else held.value)
  {
    hide Mentions, StringLe, FirstFor, RankLe;
    var result := results[n - 1];
    var former, all := results[..n - 1], results[..n];
    assert all == former + [result];
    if Mentions(result, key, |result.assets|) {
      FirstForRank(result, key, |result.assets|);
      RankOrder(result.priority, result.name, result.priority, result.name);
    }
    if held.Some? {
      var k :| 0 <= k < |former| && Mentions(former[k], key, |former[k].assets|)
        && held.value == FirstFor(former[k], key, |former[k].assets|)
        && forall other | other in former && Mentions(other, key, |other.assets|) ::
             RankLe(other.priority, other.name, former[k].priority, former[k].name);
      FirstForRank(former[k], key, |former[k].assets|);
      RankOrder(result.priority, result.name, former[k].priority, former[k].name);
      assert all[k] == former[k];
      if Mentions(result, key, |result.assets|) && Outranks(FirstFor(result, key, |result.assets|), held.value) {
        forall other | other in all && Mentions(other, key, |other.assets|)
          ensures RankLe(other.priority, other.name, result.priority, result.name)
        {
          if other in former {
            RankTransitive(other, former[k], result);
          }
        }
        assert all[n - 1] == result;
      }
    } else if Mentions(result, key, |result.assets|) {
      forall k | 0 <= k < |former| ensures !Mentions(former[k], key, |former[k].assets|) {
        assert former[k] == results[k];
      }
      assert all[n - 1] == result;
    }
  }

  lemma BestUnique(a: seq<AdapterResult>, b: seq<AdapterResult>, key: Key, c: Chosen, d: Chosen)
    requires DistinctAdapters(a) && forall r :: r in a <==> r in b
    requires IsBest(a, key, c) && IsBest(b, key, d)
    ensures c == d
  {
    hide Mentions, StringLe, FirstFor, RankLe;
    var j :| 0 <= j < |a| && Mentions(a[j], key, |a[j].assets|) && c == FirstFor(a[j], key, |a[j].assets|)
      && forall other | other in a && Mentions(other, key, |other.assets|) ::
           RankLe(other.priority, other.name, a[j].priority, a[j].name);
    var k :| 0 <= k < |b| && Mentions(b[k], key, |b[k].assets|) && d == FirstFor(b[k], key, |b[k].assets|)
      && forall other | other in b && Mentions(other, key, |other.assets|) ::
           RankLe(other.priority, other.name, b[k].priority, b[k].name);
    assert b[k] in a && a[j] in b;
    RankOrder(a[j].priority, a[j].name, b[k].priority, b[k].name);
  }

  /** The dictionary answers alike whatever order the adapters reported in. */
  lemma ChosenIgnoresOrder(a: seq<AdapterResult>, b: seq<AdapterResult>, key: Key)
    requires DistinctAdapters(a) && forall r :: r in a <==> r in b
    ensures Get(OfferResults(a, |a|), key) == Get(OfferResults(b, |b|), key)
  {
    hide Mentions, FirstFor, RankLe, OfferResults, Get, IsBest, DistinctAdapters;
    OfferResultsBest(a, |a|, key);
    OfferResultsBest(b, |b|, key);
    assert a[..|a|] == a && b[..|b|] == b;
    var c, d := Get(OfferResults(a, |a|), key), Get(OfferResults(b, |b|), key);
    if c.Some? && d.Some? {
      BestUnique(a, b, key, c.value, d.value);
    } else if c.Some? {
      BestMentions(a, b, key, c.value);
    } else if d.Some? {
      BestMentions(b, a, key, d.value);
    }
  }

  lemma BestMentions(a: seq<AdapterResult>, b: seq<AdapterResult>, key: Key, c: Chosen)
    requires IsBest(a, key, c) && forall r :: r in a <==> r in b
    ensures exists k | 0 <= k < |b| :: Mentions(b[k], key, |b[k].assets|)
  {
    hide Mentions, FirstFor, RankLe;
    var j :| 0 <= j < |a| && Mentions(a[j], key, |a[j].assets|);
    assert a[j] in b;
  }

  lemma KeyOrderTotal()
    ensures Total(KeyLe) && Transitive(KeyLe)
    ensures forall x, y | KeyLe(x, y) && KeyLe(y, x) :: x == y
  {
    hide PairLe;
    PairOrder();
    forall a, b | KeyLe(a, b) && KeyLe(b, a) ensures a == b {
      PairLeAntisymmetric((a.source, a.sourceKey), (b.source, b.sourceKey));
    }
  }

  /** The observations, and with them the whole fusion, do not depend on the order of the adapters. */
  lemma FusionIgnoresAdapterOrder(a: seq<AdapterResult>, b: seq<AdapterResult>)
    requires multiset(a) == multiset(b) && DistinctAdapters(a)
    ensures Observe(a) == Observe(b)
    ensures Fusion.Clusters(Records(Observe(a))) == Fusion.Clusters(Records(Observe(b)))
  {
    hide KeyLe, DistinctAdapters, OfferResults, Get, SortedItems, Distinct;
    SameElements(a, b);
    KeyOrderTotal();
    var key := Key("", "");
    OfferResultsBest(a, |a|, key);
    OfferResultsBest(b, |b|, key);
    forall k ensures Get(OfferResults(a, |a|), k) == Get(OfferResults(b, |b|), k) {
      ChosenIgnoresOrder(a, b, k);
    }
    SortedItemsSame(KeyLe, OfferResults(a, |a|), OfferResults(b, |b|));
  }
}
