/** Which records are observed, in terms of the adapters' results. */
module ObservationMeaning {
  import opened Ordering
  import opened Dicts
  import opened Identity
  import opened Observations

  predicate SameAsset(a: Record, b: Record)
  {
    a.source == b.source && a.sourceKey == b.sourceKey
  }

  /** By source, and for one source by its key for the asset. */
  predicate ListedBefore(a: Record, b: Record)
  {
    if a.source == b.source then StringLe(a.sourceKey, b.sourceKey) else StringLe(a.source, b.source)
  }

  lemma KeysListed(a: Record, b: Record)
    requires KeyLe(KeyOf(a), KeyOf(b))
    ensures ListedBefore(a, b)
  {
  }

  predicate HasAsset(result: AdapterResult, x: Record)
  {
    exists j | 0 <= j < |result.assets| :: SameAsset(result.assets[j], x)
  }

  /** The other adapter has a lower priority, or the same and no greater name. */
  predicate NotAbove(other: AdapterResult, result: AdapterResult)
  {
    other.priority < result.priority || (other.priority == result.priority && StringLe(other.name, result.name))
  }

  /** `c` is the first record that the best adapter with this source asset has of it. */
  ghost predicate BestWord(results: seq<AdapterResult>, c: Chosen)
  {
    exists k, j | 0 <= k < |results| && 0 <= j < |results[k].assets| ::
      && c == Chosen(results[k].priority, results[k].name, results[k].assets[j])
      && (forall i | 0 <= i < j :: !SameAsset(results[k].assets[i], c.record))
      && (forall other | other in results && HasAsset(other, c.record) :: NotAbove(other, results[k]))
  }

  lemma {:induction false} FirstForIs(result: AdapterResult, key: Key, n: nat) returns (j: nat)
    requires n <= |result.assets| && Mentions(result, key, n)
    ensures j < n && FirstFor(result, key, n) == Chosen(result.priority, result.name, result.assets[j])
    ensures KeyOf(result.assets[j]) == key && forall i | 0 <= i < j :: KeyOf(result.assets[i]) != key
  {
    if Mentions(result, key, n - 1) {
      j := FirstForIs(result, key, n - 1);
    } else {
      j := n - 1;
    }
  }

  lemma MentionsIs(result: AdapterResult, x: Record)
    ensures Mentions(result, KeyOf(x), |result.assets|) <==> HasAsset(result, x)
  {
    if HasAsset(result, x) {
      var j :| 0 <= j < |result.assets| && SameAsset(result.assets[j], x);
      assert KeyOf(result.assets[j]) == KeyOf(x);
    }
    if Mentions(result, KeyOf(x), |result.assets|) {
      var j :| 0 <= j < |result.assets| && KeyOf(result.assets[j]) == KeyOf(x);
      assert SameAsset(result.assets[j], x);
    }
  }

  lemma BestIs(results: seq<AdapterResult>, key: Key, c: Chosen)
    requires IsBest(results, key, c)
    ensures KeyOf(c.record) == key && BestWord(results, c)
  {
    hide Mentions, FirstFor, HasAsset, StringLe;
    var k :| 0 <= k < |results| && Mentions(results[k], key, |results[k].assets|)
      && c == FirstFor(results[k], key, |results[k].assets|)
      && forall other | other in results && Mentions(other, key, |other.assets|) ::
           RankLe(other.priority, other.name, results[k].priority, results[k].name);
    var j := FirstForIs(results[k], key, |results[k].assets|);
    forall other | other in results && HasAsset(other, c.record) ensures NotAbove(other, results[k]) {
      MentionsIs(other, c.record);
    }
  }

  lemma DistinctPermuted(a: Dict<Key, Chosen>, b: Dict<Key, Chosen>)
    requires Distinct(a) && multiset(a) == multiset(b)
    ensures Distinct(b)
  {
    var keyOf := (x: (Key, Chosen)) => x.0;
    var p, q := Map(keyOf, a), Map(keyOf, b);
    MapPermutation(keyOf, a, b);
    assert NoDuplicates(p);
    NoDuplicatesPermutation(p, q);
    forall i, j | 0 <= i < j < |b| ensures b[i].0 != b[j].0 {
      assert q[i] != q[j];
    }
  }

  /**
   What is observed: each source asset that some adapter mentions once, in the order of source and source
   asset, and of each what the best adapter says first.
   */
  lemma ObservedMeans(results: seq<AdapterResult>)
    ensures var seen := Observe(results);
      && (forall c | c in seen :: BestWord(results, c))
      && (forall result, x | result in results && x in result.assets ::
            exists c | c in seen :: SameAsset(c.record, x))
      && (forall i, j | 0 <= i < j < |seen| ::
            ListedBefore(seen[i].record, seen[j].record) && !SameAsset(seen[i].record, seen[j].record))
  {
    hide OfferResults, Get, KeyLe, BestWord, IsBest, Sort, Mentions, Distinct;
    var d := OfferResults(results, |results|);
    var items := SortedItems(KeyLe, d);
    var seen := Observe(results);
    assert results[..|results|] == results;
    OfferResultsBest(results, |results|, Key("", ""));
    SameElements(d, items);
    DistinctPermuted(d, items);
    KeyOrderTotal();
    KeyOrderOrders<Key, Chosen>(KeyLe);
    SortSorts(KeyOrder<Key, Chosen>(KeyLe), d);
    forall i | 0 <= i < |items| ensures items[i].0 == KeyOf(items[i].1.record) && BestWord(results, items[i].1) {
      EntryIsBest(results, d, items[i]);
    }
    ItemsDiffer(items);
    forall i, j | 0 <= i < j < |seen|
      ensures ListedBefore(seen[i].record, seen[j].record) && !SameAsset(seen[i].record, seen[j].record) {
      assert KeyOrder<Key, Chosen>(KeyLe)(items[i], items[j]);
      KeysListed(seen[i].record, seen[j].record);
    }
    forall result, x | result in results && x in result.assets ensures exists c | c in seen :: SameAsset(c.record, x) {
      var c := MentionedIsSeen(results, d, result, x);
      var i :| 0 <= i < |items| && items[i] == (KeyOf(x), c);
      assert seen[i] == c;
    }
  }

  lemma ItemsDiffer(items: Dict<Key, Chosen>)
    requires Distinct(items)
    ensures forall i, j | 0 <= i < j < |items| :: items[i].0 != items[j].0
  {
  }

  lemma EntryIsBest(results: seq<AdapterResult>, d: Dict<Key, Chosen>, entry: (Key, Chosen))
    requires d == OfferResults(results, |results|) && entry in d && Distinct(d)
    ensures entry.0 == KeyOf(entry.1.record) && BestWord(results, entry.1)
  {
    hide OfferResults, BestWord, IsBest, Mentions;
    assert results[..|results|] == results;
    GetIffEntry(d, entry.0, entry.1);
    OfferResultsBest(results, |results|, entry.0);
    BestIs(results, entry.0, entry.1);
  }

  lemma MentionedIsSeen(results: seq<AdapterResult>, d: Dict<Key, Chosen>, result: AdapterResult, x: Record)
    returns (c: Chosen)
    requires d == OfferResults(results, |results|) && result in results && x in result.assets && Distinct(d)
    ensures (KeyOf(x), c) in d && SameAsset(c.record, x)
  {
    hide OfferResults, Get, BestWord, IsBest;
    assert results[..|results|] == results;
    var k :| 0 <= k < |results| && results[k] == result;
    var j :| 0 <= j < |result.assets| && result.assets[j] == x;
    assert KeyOf(result.assets[j]) == KeyOf(x);
    OfferResultsBest(results, |results|, KeyOf(x));
    c := Get(d, KeyOf(x)).value;
    GetIffEntry(d, KeyOf(x), c);
    BestIs(results, KeyOf(x), c);
  }
}
