/** Which tags and fields a printed line holds, in what order, and why a point is refused. */
module PrintMeaning {
  import opened Options
  import opened Ordering
  import opened Dicts
  import opened LineProtocol

  /** The field can be written and says something. */
  predicate Says(v: FieldValue)
  {
    match v
    case Flag(_) => true
    case Whole(_) => true
    case Real(_) => true
    case Text(s) => s != ""
    case _ => false
  }

  lemma {:induction false} KeptTagsAre(tags: Dict<string, string>, entry: (string, string))
    ensures entry in KeptTags(tags) <==> entry in tags && entry.1 != ""
  {
    if tags != [] {
      KeptTagsAre(tags[1..], entry);
      assert tags == [tags[0]] + tags[1..];
    }
  }

  lemma {:induction false} KeptFieldsAre(fields: Dict<string, FieldValue>, entry: (string, FieldValue))
    ensures entry in KeptFields(fields) <==> entry in fields && entry.1 != Nothing && entry.1 != Text("")
  {
    if fields != [] {
      KeptFieldsAre(fields[1..], entry);
      assert fields == [fields[0]] + fields[1..];
    }
  }

  lemma {:induction false} KeptTagsSorted(tags: Dict<string, string>)
    requires Sorted(KeyOrder<string, string>(StringLe), tags)
    ensures Sorted(KeyOrder<string, string>(StringLe), KeptTags(tags))
  {
    if tags != [] {
      KeptTagsSorted(tags[1..]);
      forall i | 0 <= i < |KeptTags(tags[1..])| ensures StringLe(tags[0].0, KeptTags(tags[1..])[i].0) {
        var entry := KeptTags(tags[1..])[i];
        KeptTagsAre(tags[1..], entry);
        var j :| 0 <= j < |tags[1..]| && tags[1..][j] == entry;
        assert KeyOrder<string, string>(StringLe)(tags[0], tags[j + 1]);
      }
    }
  }

  lemma {:induction false} KeptFieldsSorted(fields: Dict<string, FieldValue>)
    requires Sorted(KeyOrder<string, FieldValue>(StringLe), fields)
    ensures Sorted(KeyOrder<string, FieldValue>(StringLe), KeptFields(fields))
  {
    if fields != [] {
      KeptFieldsSorted(fields[1..]);
      forall i | 0 <= i < |KeptFields(fields[1..])| ensures StringLe(fields[0].0, KeptFields(fields[1..])[i].0) {
        var entry := KeptFields(fields[1..])[i];
        KeptFieldsAre(fields[1..], entry);
        var j :| 0 <= j < |fields[1..]| && fields[1..][j] == entry;
        assert KeyOrder<string, FieldValue>(StringLe)(fields[0], fields[j + 1]);
      }
    }
  }

  lemma ItemsSorted<V(!new)>(d: Dict<string, V>)
    ensures Sorted(KeyOrder<string, V>(StringLe), SortedItems(StringLe, d))
  {
    StringOrder();
    KeyOrderOrders<string, V>(StringLe);
    SortSorts(KeyOrder<string, V>(StringLe), d);
  }

  lemma ItemsHold<V>(d: Dict<string, V>, entry: (string, V))
    ensures entry in SortedItems(StringLe, d) <==> entry in d
  {
    hide Sort;
    var sorted := SortedItems(StringLe, d);
    assert entry in d <==> entry in multiset(d);
    assert entry in sorted <==> entry in multiset(sorted);
  }

  /** A line holds exactly the tags with a value and the fields that say something, each sorted by key. */
  lemma PrintedAre(p: Point)
    requires Render(p).Rendered?
    ensures Render(p) == Rendered(LineText(p.measurement, SortedTags(p), SortedFields(p), p.timestamp))
    ensures forall entry :: entry in SortedTags(p) <==> entry in p.tags && entry.1 != ""
    ensures forall entry :: entry in SortedFields(p) <==> entry in p.fields && Says(entry.1)
    ensures Sorted(KeyOrder<string, string>(StringLe), SortedTags(p))
    ensures Sorted(KeyOrder<string, FieldValue>(StringLe), SortedFields(p))
  {
    hide LineText, SortedItems, KeptTags, KeptFields, StringLe, FirstRefused;
    ItemsSorted(p.tags);
    ItemsSorted(p.fields);
    KeptTagsSorted(SortedItems(StringLe, p.tags));
    KeptFieldsSorted(SortedItems(StringLe, p.fields));
    forall entry ensures entry in SortedTags(p) <==> entry in p.tags && entry.1 != "" {
      KeptTagsAre(SortedItems(StringLe, p.tags), entry);
      ItemsHold(p.tags, entry);
    }
    forall entry ensures entry in SortedFields(p) <==> entry in p.fields && Says(entry.1) {
      KeptFieldsAre(SortedItems(StringLe, p.fields), entry);
      ItemsHold(p.fields, entry);
      if entry in p.fields {
        NoneRefused(p, entry);
      }
    }
  }

  lemma NoneRefused(p: Point, entry: (string, FieldValue))
    requires Render(p).Rendered? && entry in p.fields
    ensures !Refused(entry.1)
  {
    hide LineText, SortedItems, SortedFields, SortedTags;
    ItemsHold(p.fields, entry);
    var sorted := SortedItems(StringLe, p.fields);
    var i :| 0 <= i < |sorted| && sorted[i] == entry;
  }

  lemma {:induction false} FirstRefusedIs(fields: Dict<string, FieldValue>) returns (i: nat)
    requires FirstRefused(fields).Some?
    ensures i < |fields| && FirstRefused(fields) == Some(fields[i]) && Refused(fields[i].1)
    ensures forall j | 0 <= j < i :: !Refused(fields[j].1)
  {
    if Refused(fields[0].1) {
      i := 0;
    } else {
      var k := FirstRefusedIs(fields[1..]);
      i := k + 1;
      assert forall j | 1 <= j < i :: fields[j] == fields[1..][j - 1];
    }
  }

  /** A refusal names the least key whose value is not finite or of no known type, and which of the two it is. */
  lemma RefusalNames(p: Point)
    requires Render(p).Rejected?
    ensures exists entry | entry in p.fields ::
              && entry.0 == Render(p).field
              && (entry.1.NonFinite? <==> Render(p).category == "invalid_numeric_value")
              && (entry.1.Unsupported? <==> Render(p).category == "unsupported_field_type")
              && forall other | other in p.fields && (other.1.NonFinite? || other.1.Unsupported?) ::
                   StringLe(entry.0, other.0)
  {
    hide LineText, SortedItems, KeptTags, KeptFields, StringLe, FirstRefused;
    var sorted := SortedItems(StringLe, p.fields);
    ItemsSorted(p.fields);
    var i := FirstRefusedIs(sorted);
    assert sorted[i] in sorted;
    ItemsHold(p.fields, sorted[i]);
    assert sorted[i] in p.fields;
    assert |"invalid_numeric_value"| != |"unsupported_field_type"|;
    forall other | other in p.fields && (other.1.NonFinite? || other.1.Unsupported?)
      ensures StringLe(sorted[i].0, other.0) {
      ItemsHold(p.fields, other);
      var j :| 0 <= j < |sorted| && sorted[j] == other;
      if j == i {
        StringLeTotal(other.0, other.0);
      } else {
        assert KeyOrder<string, FieldValue>(StringLe)(sorted[i], sorted[j]);
      }
    }
  }

  /** A name is printed character by character. */
  lemma {:induction false} EscapeByChar(a: string, b: string, special: set<char>)
    ensures Escape(a + b, special) == Escape(a, special) + Escape(b, special)
  {
    if a == "" {
      assert a + b == b;
    } else {
      EscapeByChar(a[1..], b, special);
      assert (a + b)[1..] == a[1..] + b;
    }
  }

  /** A backslash goes before a space, a comma and a backslash, and in tags and field keys before an equals sign. */
  lemma EscapedChars(c: char)
    ensures Escape([c], MEASUREMENT_SPECIAL) == if c == ' ' || c == ',' || c == '\\' then ['\\', c] else [c]
    ensures Escape([c], NAME_SPECIAL) ==
            if c == ' ' || c == ',' || c == '=' || c == '\\' then ['\\', c] else [c]
  {
    assert [c][1..] == "";
  }
}
