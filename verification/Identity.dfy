/**
 Identity evidence of one source record, the pairwise match classification, and the canonical
 identity of a group of records.

 The string normalisers are applied before this model starts: every text below is already
 normalised, and "" stands for evidence that is absent (the source's normalisers never return
 an empty text, they return None).
 */
module Identity {
  import opened Ordering
  import opened Separators

  datatype Evidence = Evidence(
    serial: string,
    chassisId: string,
    managementMac: string,
    shortHostname: string,
    managementIp: string,
    site: string,
    deviceType: string)

  datatype Record = Record(
    source: string,
    sourceKey: string,   // source_asset_id, else asset_id
    siteId: string,      // the record's own site_id; evidence.site falls back to its site name
    deployment: string,
    customer: string,
    evidence: Evidence)

  datatype Confidence = Unmerged | Low | Medium | High | Exact

  function Rank(c: Confidence): nat
  {
    match c
    case Unmerged => 0
    case Low => 1
    case Medium => 2
    case High => 3
    case Exact => 4
  }

  datatype Match = Match(confidence: Confidence, matchedOn: seq<string>, reason: string)

  const VENDOR_SOURCES: set<string> := {"mist", "fortigate", "paloalto"}

  const FAMILIES: seq<set<string>> :=
    [{"switch", "router", "network-device"}, {"access-point", "wireless"}, {"firewall"},
     {"printer"}, {"server"}, {"storage", "nas"}, {"ups"}]

  /** The alias table of the device types, on a text in lower case with hyphens. */
  function Alias(kind: string): string
  {
    if kind == "network-switch" then "switch"
    else if kind == "wireless-access-point" || kind == "wireless-ap" then "access-point"
    else if kind == "security-appliance" then "firewall"
    else if kind == "printer-device" then "printer"
    else kind
  }

  predicate SameFamily(left: string, right: string)
  {
    exists k | 0 <= k < |FAMILIES| :: left in FAMILIES[k] && right in FAMILIES[k]
  }

  /** An unknown type is compatible with everything, which makes the relation intransitive. */
  predicate CompatibleTypes(left: string, right: string)
  {
    var left, right := Alias(left), Alias(right);
    left == "" || right == "" || left == right || SameFamily(left, right)
  }

  predicate SiteAlias(left: string, right: string)
  {
    left != "" && right != "" && (left == right || ((' ' in left) != (' ' in right)))
  }

  function ClassifyMatch(left: Record, right: Record): Match
  {
    var a, b := left.evidence, right.evidence;
    var hostnameMatch := a.shortHostname != "" && a.shortHostname == b.shortHostname;
    var ipMatch := a.managementIp != "" && a.managementIp == b.managementIp;
    var serialMatch := a.serial != "" && a.serial == b.serial;
    var chassisMatch := a.chassisId != "" && a.chassisId == b.chassisId;
    var macMatch := a.managementMac != "" && a.managementMac == b.managementMac;
    var weakest := if hostnameMatch then "hostname" else if ipMatch then "management_ip" else "hardware";
    if !(serialMatch || chassisMatch || macMatch || hostnameMatch || ipMatch) then
      Match(Unmerged, [], "")
    else if a.serial != "" && b.serial != "" && a.serial != b.serial then
      Match(Low, [weakest], "conflicting serial numbers")
    else if !CompatibleTypes(a.deviceType, b.deviceType) then
      Match(Low, [weakest], "incompatible device types")
    else if serialMatch then Match(Exact, ["serial_number"], "")
    else if chassisMatch then Match(Exact, ["chassis_id"], "")
    else if macMatch then Match(Exact, ["management_mac"], "")
    else
      var siteMatch := a.site != "" && a.site == b.site;
      var sources := {left.source, right.source};
      var vendorDiscovery := "snmp" in sources && sources * VENDOR_SOURCES != {};
      var placed := siteMatch || (vendorDiscovery && SiteAlias(left.siteId, right.siteId));
      var where := if siteMatch then "site" else "collector_pair";
      if hostnameMatch && placed then Match(High, ["hostname", where], "")
      else if ipMatch && placed then Match(Medium, ["management_ip", where], "")
      else Match(Low, [if hostnameMatch then "hostname" else "management_ip"],
                 "site identity is incompatible")
  }

  predicate Strong(c: Confidence)
  {
    c == Exact || c == High || c == Medium
  }

  /** The rule a cluster has to satisfy, on two of its records. */
  predicate Agree(left: Record, right: Record)
  {
    && (left.evidence.serial == "" || right.evidence.serial == ""
        || left.evidence.serial == right.evidence.serial)
    && CompatibleTypes(left.evidence.deviceType, right.evidence.deviceType)
  }

  lemma AgreeIsSymmetric(left: Record, right: Record)
    ensures Agree(left, left)
    ensures Agree(left, right) <==> Agree(right, left)
  {
    FamilySymmetric(Alias(left.evidence.deviceType), Alias(right.evidence.deviceType));
  }

  lemma FamilySymmetric(a: string, b: string)
    ensures SameFamily(a, b) <==> SameFamily(b, a)
  {
    if SameFamily(a, b) {
      var k :| 0 <= k < |FAMILIES| && a in FAMILIES[k] && b in FAMILIES[k];
      assert b in FAMILIES[k] && a in FAMILIES[k];
    }
    if SameFamily(b, a) {
      var k :| 0 <= k < |FAMILIES| && b in FAMILIES[k] && a in FAMILIES[k];
      assert a in FAMILIES[k] && b in FAMILIES[k];
    }
  }

  /** The verdict on a pair, evidence and reason included, does not depend on which record comes first. */
  lemma ClassifySymmetric(left: Record, right: Record)
    ensures ClassifyMatch(left, right) == ClassifyMatch(right, left)
  {
    AgreeIsSymmetric(left, right);
    assert {left.source, right.source} == {right.source, left.source};
  }

  /** A pair strong enough to fuse never breaks the cluster rule by itself. */
  lemma StrongPairsAgree(left: Record, right: Record)
    ensures Strong(ClassifyMatch(left, right).confidence) ==> Agree(left, right)
  {
  }

  /** A type belongs to one family at most. */
  lemma FamiliesDisjoint(kind: string, j: nat, k: nat)
    requires j < |FAMILIES| && k < |FAMILIES| && kind in FAMILIES[j] && kind in FAMILIES[k]
    ensures j == k
  {
  }

  /** Compatibility is transitive exactly through known types: only an unknown middle one breaks the chain. */
  lemma CompatibleThroughKnown(left: string, middle: string, right: string)
    requires CompatibleTypes(left, middle) && CompatibleTypes(middle, right) && Alias(middle) != ""
    ensures CompatibleTypes(left, right)
  {
    var l, m, r := Alias(left), Alias(middle), Alias(right);
    if l != "" && r != "" && l != m && m != r {
      var j :| 0 <= j < |FAMILIES| && l in FAMILIES[j] && m in FAMILIES[j];
      var k :| 0 <= k < |FAMILIES| && m in FAMILIES[k] && r in FAMILIES[k];
      FamiliesDisjoint(m, j, k);
    }
  }

  lemma UnknownTypeBridgesIncompatible()
    ensures CompatibleTypes("printer", "") && CompatibleTypes("", "server") && !CompatibleTypes("printer", "server")
  {
  }

  // --- canonical identity -------------------------------------------------------------------

  /** The least text, which is what taking the first of a sorted set yields. */
  function Least(s: seq<string>): (r: string)
    requires s != []
    ensures r in s && forall x | x in s :: StringLe(r, x)
  {
    if |s| == 1 then
      StringLeTotal(s[0], s[0]);
      s[0]
    else
      var rest := Least(s[1..]);
      StringLeTotal(s[0], rest);
      StringLeTotal(s[0], s[0]);
      StringOrder();
      assert s == [s[0]] + s[1..];
      if StringLe(s[0], rest) then s[0] else rest
  }

  function NonEmpty(s: seq<string>): (r: seq<string>)
    ensures forall x :: x in r <==> x in s && x != ""
  {
    if s == [] then []
    else
      assert s == [s[0]] + s[1..];
      (if s[0] != "" then [s[0]] else []) + NonEmpty(s[1..])
  }

  function Joined(left: string, right: string): string
  {
    if left != "" && right != "" then left + "|" + right else ""
  }

  /** What an identity may rest on, the strongest first. */
  datatype Kind = BySerial | ByChassis | ByMac | ByHost | ByIp | BySource

  function Prefix(kind: Kind): string
  {
    match kind
    case BySerial => "serial:"
    case ByChassis => "chassis_id:"
    case ByMac => "management_mac:"
    case ByHost => "hostname-site:"
    case ByIp => "ip-site:"
    case BySource => "source:"
  }

  /** What a record shows of a kind; "" where it shows nothing. */
  function Shown(r: Record, kind: Kind): string
  {
    match kind
    case BySerial => r.evidence.serial
    case ByChassis => r.evidence.chassisId
    case ByMac => r.evidence.managementMac
    case ByHost => Joined(r.evidence.shortHostname, r.evidence.site)
    case ByIp => Joined(r.evidence.managementIp, r.evidence.site)
    case BySource => r.sourceKey
  }

  /** Everything a group shows of a kind; a source key counts even where it is empty. */
  function Values(records: seq<Record>, kind: Kind): (r: seq<string>)
    ensures forall v :: v in r <==> (v != "" || kind == BySource) && exists x | x in records :: Shown(x, kind) == v
    ensures kind == BySource && records != [] ==> r != []
  {
    var all := Map((x: Record) => Shown(x, kind), records);
    assert forall i | 0 <= i < |records| :: all[i] == Shown(records[i], kind) && records[i] in records;
    assert forall x | x in records :: Shown(x, kind) in all by {
      forall x | x in records ensures Shown(x, kind) in all {
        var i :| 0 <= i < |records| && records[i] == x;
        assert all[i] == Shown(x, kind);
      }
    }
    if kind == BySource then all else NonEmpty(all)
  }

  /** The strongest kind the group shows anything of. */
  function KindOf(records: seq<Record>): (kind: Kind)
    requires records != []
    ensures Values(records, kind) != []
  {
    if Values(records, BySerial) != [] then BySerial
    else if Values(records, ByChassis) != [] then ByChassis
    else if Values(records, ByMac) != [] then ByMac
    else if Values(records, ByHost) != [] then ByHost
    else if Values(records, ByIp) != [] then ByIp
    else BySource
  }

  function PartitionOf(r: Record): string
  {
    r.deployment + "|" + r.customer
  }

  function Partitions(records: seq<Record>): seq<string>
  {
    Map(PartitionOf, records)
  }

  /** The partition of a group. */
  function Partition(records: seq<Record>): string
    requires records != []
  {
    Least(Partitions(records))
  }

  /** The identity of a group within its partition. */
  function IdentityText(records: seq<Record>): string
    requires records != []
  {
    Prefix(KindOf(records)) + Least(Values(records, KindOf(records)))
  }

  /** The text that is hashed into the canonical id of a group. */
  function CanonicalIdentity(records: seq<Record>): string
    requires records != []
  {
    Partition(records) + "|" + IdentityText(records)
  }

  lemma LeastIgnoresOrder(a: seq<string>, b: seq<string>)
    requires forall x :: x in a <==> x in b
    ensures a == [] <==> b == []
    ensures a != [] && b != [] ==> Least(a) == Least(b)
  {
    if a != [] {
      assert a[0] in b;
    }
    if b != [] {
      assert b[0] in a;
      StringLeAntisymmetric(Least(a), Least(b));
    }
  }

  lemma ValuesIgnoreOrder(a: seq<Record>, b: seq<Record>, kind: Kind)
    requires multiset(a) == multiset(b)
    ensures Values(a, kind) == [] <==> Values(b, kind) == []
    ensures Values(a, kind) != [] && Values(b, kind) != [] ==> Least(Values(a, kind)) == Least(Values(b, kind))
  {
    hide Least, Shown;
    SameElements(a, b);
    LeastIgnoresOrder(Values(a, kind), Values(b, kind));
  }

  lemma PartitionsIgnoreOrder(a: seq<Record>, b: seq<Record>)
    requires a != [] && multiset(a) == multiset(b)
    ensures b != [] && Partition(a) == Partition(b)
  {
    hide Least;
    SameElements(a, b);
    MapPermutation(PartitionOf, a, b);
    SameElements(Partitions(a), Partitions(b));
    LeastIgnoresOrder(Partitions(a), Partitions(b));
  }

  /** A group has the same canonical identity in whatever order its records are listed. */
  lemma CanonicalIdentityIgnoresOrder(a: seq<Record>, b: seq<Record>)
    requires a != [] && multiset(a) == multiset(b)
    ensures b != [] && CanonicalIdentity(a) == CanonicalIdentity(b)
  {
    hide Values, Least, Partition, Prefix;
    PartitionsIgnoreOrder(a, b);
    forall kind: Kind
      ensures Values(a, kind) == [] <==> Values(b, kind) == []
      ensures Values(a, kind) != [] && Values(b, kind) != [] ==> Least(Values(a, kind)) == Least(Values(b, kind))
    {
      ValuesIgnoreOrder(a, b, kind);
    }
  }

  /** No identity of one kind reads like one of another. */
  lemma PrefixesDiffer(j: Kind, k: Kind, a: string, b: string)
    ensures Prefix(j) + a == Prefix(k) + b <==> j == k && a == b
  {
    var p, q := Prefix(j) + a, Prefix(k) + b;
    assert p[0] == Prefix(j)[0] && p[1] == Prefix(j)[1] && q[0] == Prefix(k)[0] && q[1] == Prefix(k)[1];
    if p == q {
      assert j == k;
      assert a == p[|Prefix(j)|..] && b == q[|Prefix(k)|..];
    }
  }

  /** The partition of one group reads like the other's and the beginning of its identity. */
  predicate PartitionsShift(a: seq<Record>, b: seq<Record>)
    requires a != [] && b != []
  {
    || Shifted(Partition(a), IdentityText(a), Partition(b), IdentityText(b))
    || Shifted(Partition(b), IdentityText(b), Partition(a), IdentityText(a))
  }

  /**
   Two groups share their canonical identity exactly when they share partition, kind and least value,
   or their partitions differ and shift against each other.
   */
  lemma SameIdentityIff(a: seq<Record>, b: seq<Record>)
    requires a != [] && b != []
    ensures CanonicalIdentity(a) == CanonicalIdentity(b) <==>
            || (&& Partition(a) == Partition(b) && KindOf(a) == KindOf(b)
                && Least(Values(a, KindOf(a))) == Least(Values(b, KindOf(b))))
            || (Partition(a) != Partition(b) && PartitionsShift(a, b))
  {
    hide Values, Least, Partition, Prefix, KindOf, Shifted;
    PrefixesDiffer(KindOf(a), KindOf(b), Least(Values(a, KindOf(a))), Least(Values(b, KindOf(b))));
    ReadAlikeIff(Partition(a), IdentityText(a), Partition(b), IdentityText(b));
    ShiftsApart(a, b);
  }

  lemma ShiftsApart(a: seq<Record>, b: seq<Record>)
    requires a != [] && b != []
    ensures PartitionsShift(a, b) ==> Partition(a) != Partition(b)
  {
    hide Partition, IdentityText;
  }

  /** Joined texts agree part by part, unless the separator occurs in a left part. */
  lemma JoinedParts(a: string, b: string, c: string, d: string)
    requires Joined(a, b) == Joined(c, d) != "" && '|' !in a && '|' !in c
    ensures a == c && b == d
  {
    PlainReadApart(a, b, c, d);
  }

  lemma OneSeparator(r: Record)
    requires '|' !in r.deployment && '|' !in r.customer
    ensures !exists i, j :: 0 <= i < j < |PartitionOf(r)| && PartitionOf(r)[i] == '|' == PartitionOf(r)[j]
  {
  }

  /** Partitions of deployments and customers that hold no separator do not shift against each other. */
  lemma PlainPartitionsDoNotShift(a: Record, x: string, b: Record, y: string)
    requires '|' !in a.deployment && '|' !in a.customer
    ensures !Shifted(PartitionOf(a), x, PartitionOf(b), y)
  {
    hide Shifted;
    OneSeparator(a);
    if Shifted(PartitionOf(a), x, PartitionOf(b), y) {
      ShiftHoldsTwo(PartitionOf(a), x, b.deployment, b.customer, y);
    }
  }
}
