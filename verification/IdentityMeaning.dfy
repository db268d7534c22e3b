/** What the hashed text of a canonical id says of the records it stands for. */
module IdentityMeaning {
  import opened Ordering
  import opened Identity

  predicate ShowsSerial(x: Record)
  {
    x.evidence.serial != ""
  }

  predicate ShowsChassis(x: Record)
  {
    x.evidence.chassisId != ""
  }

  predicate ShowsMac(x: Record)
  {
    x.evidence.managementMac != ""
  }

  predicate ShowsHost(x: Record)
  {
    x.evidence.shortHostname != "" && x.evidence.site != ""
  }

  predicate ShowsAddress(x: Record)
  {
    x.evidence.managementIp != "" && x.evidence.site != ""
  }

  /** The record shows this kind of evidence, and this is how the identity text would read. */
  predicate Reads(x: Record, kind: Kind, text: string)
  {
    match kind
    case BySerial => ShowsSerial(x) && text == "serial:" + x.evidence.serial
    case ByChassis => ShowsChassis(x) && text == "chassis_id:" + x.evidence.chassisId
    case ByMac => ShowsMac(x) && text == "management_mac:" + x.evidence.managementMac
    case ByHost => ShowsHost(x) && text == "hostname-site:" + (x.evidence.shortHostname + "|" + x.evidence.site)
    case ByIp => ShowsAddress(x) && text == "ip-site:" + (x.evidence.managementIp + "|" + x.evidence.site)
    case BySource => text == "source:" + x.sourceKey
  }

  ghost predicate Any(records: seq<Record>, shows: Record -> bool)
  {
    exists x | x in records :: shows(x)
  }

  /** Serial numbers come before chassis ids, these before MACs, placed names, placed addresses and source keys. */
  lemma KindMeans(records: seq<Record>)
    requires records != []
    ensures var kind := KindOf(records);
      && (kind == BySerial <==> Any(records, ShowsSerial))
      && (kind == ByChassis <==> !Any(records, ShowsSerial) && Any(records, ShowsChassis))
      && (kind == ByMac <==> !Any(records, ShowsSerial) && !Any(records, ShowsChassis) && Any(records, ShowsMac))
      && (Any(records, ShowsSerial) || Any(records, ShowsChassis) || Any(records, ShowsMac) ==>
            kind != ByHost && kind != ByIp && kind != BySource)
      && (kind == ByHost ==> Any(records, ShowsHost))
      && (kind == ByIp ==> !Any(records, ShowsHost) && Any(records, ShowsAddress))
      && (kind == BySource ==> !Any(records, ShowsHost) && !Any(records, ShowsAddress))
  {
    hide Values;
    ShownOf(records, BySerial, ShowsSerial);
    ShownOf(records, ByChassis, ShowsChassis);
    ShownOf(records, ByMac, ShowsMac);
    ShownOf(records, ByHost, ShowsHost);
    ShownOf(records, ByIp, ShowsAddress);
  }

  lemma ShownOf(records: seq<Record>, kind: Kind, shows: Record -> bool)
    requires kind != BySource && forall x :: shows(x) <==> Shown(x, kind) != ""
    ensures Values(records, kind) != [] <==> Any(records, shows)
  {
    hide Shown;
    if x :| x in records && shows(x) {
      assert Shown(x, kind) in Values(records, kind);
    }
    if Values(records, kind) != [] {
      assert Values(records, kind)[0] in Values(records, kind);
    }
  }

  /** The text that is hashed: the least partition of the group, and the least reading of its strongest evidence. */
  lemma CanonicalReads(records: seq<Record>)
    requires records != []
    ensures CanonicalIdentity(records) == Partition(records) + "|" + IdentityText(records)
    ensures exists x | x in records :: Partition(records) == x.deployment + "|" + x.customer
    ensures forall x | x in records :: StringLe(Partition(records), x.deployment + "|" + x.customer)
    ensures exists x | x in records :: Reads(x, KindOf(records), IdentityText(records))
    ensures forall x, text | x in records && Reads(x, KindOf(records), text) :: StringLe(IdentityText(records), text)
  {
    hide KindOf, Values, Shown, StringLe, Least, Prefix, Reads;
    PartitionReads(records);
    IdentityReads(records);
  }

  lemma PartitionReads(records: seq<Record>)
    requires records != []
    ensures exists x | x in records :: Partition(records) == x.deployment + "|" + x.customer
    ensures forall x | x in records :: StringLe(Partition(records), x.deployment + "|" + x.customer)
  {
    hide Least, StringLe;
    var all := Partitions(records);
    var k :| 0 <= k < |all| && all[k] == Least(all);
    assert records[k] in records && all[k] == records[k].deployment + "|" + records[k].customer;
    forall x | x in records ensures StringLe(Partition(records), x.deployment + "|" + x.customer) {
      var i :| 0 <= i < |records| && records[i] == x;
      assert all[i] in all;
    }
  }

  lemma IdentityReads(records: seq<Record>)
    requires records != []
    ensures exists x | x in records :: Reads(x, KindOf(records), IdentityText(records))
    ensures forall x, text | x in records && Reads(x, KindOf(records), text) :: StringLe(IdentityText(records), text)
  {
    hide KindOf, Values, Shown, StringLe, Least, Prefix, Reads;
    var kind := KindOf(records);
    var values := Values(records, kind);
    assert Least(values) in values;
    var x :| x in records && Shown(x, kind) == Least(values);
    ReadsShown(x, kind, Prefix(kind) + Least(values));
    forall y, text | y in records && Reads(y, kind, text) ensures StringLe(IdentityText(records), text) {
      ReadsShown(y, kind, text);
      assert Shown(y, kind) in values;
      PrefixKeepsOrder(Prefix(kind), Least(values), Shown(y, kind));
    }
  }

  lemma ReadsShown(x: Record, kind: Kind, text: string)
    ensures Reads(x, kind, text) <==>
            (kind == BySource || Shown(x, kind) != "") && text == Prefix(kind) + Shown(x, kind)
  {
  }

  lemma {:induction false} PrefixKeepsOrder(prefix: string, a: string, b: string)
    requires StringLe(a, b)
    ensures StringLe(prefix + a, prefix + b)
  {
    if prefix != [] {
      PrefixKeepsOrder(prefix[1..], a, b);
      assert (prefix + a)[1..] == prefix[1..] + a && (prefix + b)[1..] == prefix[1..] + b;
    } else {
      assert prefix + a == a && prefix + b == b;
    }
  }
}
