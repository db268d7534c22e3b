/** When two fused assets share a canonical identity. */
module FusedIdentity {
  import opened Separators
  import opened Identity
  import opened UnionFind
  import opened Fusion

  /** The records of a group, in the order of their indices. */
  function Group(records: seq<Record>, members: seq<nat>): (group: seq<Record>)
    requires forall k | 0 <= k < |members| :: members[k] < |records|
    ensures |group| == |members| && forall k | 0 <= k < |group| :: group[k] == records[members[k]]
  {
    seq(|members|, k requires 0 <= k < |members| => records[members[k]])
  }

  /** The group a record is fused into. */
  function GroupAt(records: seq<Record>, i: nat): (group: seq<Record>)
    requires i < |records|
    ensures group != [] && forall x :: x in group <==> InGroup(records, i, x)
  {
    hide Clusters, Members, InGroup;
    var rep := Clusters(records).rep;
    var members := Members(rep, rep[i]);
    assert i in members && forall k | 0 <= k < |members| :: members[k] in members;
    var group := Group(records, members);
    assert forall x :: x in group <==> InGroup(records, i, x) by {
      forall x ensures x in group <==> InGroup(records, i, x) {
        GroupHas(records, i, x);
      }
    }
    group
  }

  ghost predicate InGroup(records: seq<Record>, i: nat, x: Record)
    requires i < |records|
  {
    exists k: nat | k < |records| :: Clusters(records).rep[k] == Clusters(records).rep[i] && records[k] == x
  }

  lemma GroupHas(records: seq<Record>, i: nat, x: Record)
    requires i < |records|
    ensures var members := Members(Clusters(records).rep, Clusters(records).rep[i]);
            && (forall k | 0 <= k < |members| :: members[k] < |records|)
            && (x in Group(records, members) <==> InGroup(records, i, x))
  {
    hide Clusters, Members;
    var members := Members(Clusters(records).rep, Clusters(records).rep[i]);
    assert forall k | 0 <= k < |members| :: members[k] in members;
    var group := Group(records, members);
    if x in group {
      var k :| 0 <= k < |group| && group[k] == x;
      assert members[k] in members && records[members[k]] == x;
    }
    if InGroup(records, i, x) {
      var n: nat :| n < |records| && Clusters(records).rep[n] == Clusters(records).rep[i] && records[n] == x;
      assert n in members;
      var k :| 0 <= k < |members| && members[k] == n;
      assert group[k] == x;
    }
  }

  /** A record of the one cluster and one of the other have incompatible device types. */
  ghost predicate TypesClash(records: seq<Record>, g: nat, h: nat)
  {
    var rep := Clusters(records).rep;
    exists x: nat, y: nat | x < |records| && y < |records| :: rep[x] == g && rep[y] == h && Incompatible(records, x, y)
  }

  predicate Incompatible(records: seq<Record>, x: nat, y: nat)
    requires x < |records| && y < |records|
  {
    !CompatibleTypes(records[x].evidence.deviceType, records[y].evidence.deviceType)
  }

  // --- linked records end together, or their groups clash -----------------------------------

  /** The two records show one serial, chassis id or MAC, or one host name or address at one site. */
  predicate Linked(a: Evidence, b: Evidence)
  {
    || (a.serial != "" && a.serial == b.serial)
    || (a.chassisId != "" && a.chassisId == b.chassisId)
    || (a.managementMac != "" && a.managementMac == b.managementMac)
    || (a.shortHostname != "" && a.shortHostname == b.shortHostname && a.site != "" && a.site == b.site)
    || (a.managementIp != "" && a.managementIp == b.managementIp && a.site != "" && a.site == b.site)
  }

  predicate SerialsAgree(a: Evidence, b: Evidence)
  {
    a.serial == "" || b.serial == "" || a.serial == b.serial
  }

  lemma LinkedIsStrong(a: Record, b: Record)
    requires Linked(a.evidence, b.evidence) && SerialsAgree(a.evidence, b.evidence)
    requires CompatibleTypes(a.evidence.deviceType, b.evidence.deviceType)
    ensures Strong(ClassifyMatch(a, b).confidence)
  {
    hide CompatibleTypes, SiteAlias;
  }

  /** No serials conflict between the two clusters. */
  ghost predicate NoSerialConflict(records: seq<Record>, g: nat, h: nat)
  {
    var rep := Clusters(records).rep;
    forall x: nat, y: nat | x < |records| && y < |records| && rep[x] == g && rep[y] == h ::
      SerialsAgree(records[x].evidence, records[y].evidence)
  }

  lemma NoClashSymmetric(records: seq<Record>, g: nat, h: nat)
    ensures TypesClash(records, g, h) <==> TypesClash(records, h, g)
    ensures NoSerialConflict(records, g, h) <==> NoSerialConflict(records, h, g)
  {
    hide Clusters, CompatibleTypes;
    forall x: nat, y: nat | x < |records| && y < |records|
      ensures Incompatible(records, x, y) <==> Incompatible(records, y, x) {
      CompatibleSymmetric(records[x].evidence.deviceType, records[y].evidence.deviceType);
    }
  }

  lemma CompatibleSymmetric(a: string, b: string)
    ensures CompatibleTypes(a, b) <==> CompatibleTypes(b, a)
  {
    FamilySymmetric(Alias(a), Alias(b));
  }

  /** Linked records in two clusters whose serials do not conflict: some types across the clusters do. */
  lemma LinkedApartClash(records: seq<Record>, i: nat, j: nat)
    requires i < j < |records| && Linked(records[i].evidence, records[j].evidence)
    requires var rep := Clusters(records).rep; rep[i] != rep[j] && NoSerialConflict(records, rep[i], rep[j])
    ensures var rep := Clusters(records).rep; TypesClash(records, rep[i], rep[j])
  {
    hide Clusters, CompatibleTypes, ClassifyMatch, MayJoin, Members, Linked;
    var rep := Clusters(records).rep;
    if Incompatible(records, i, j) {
      assert TypesClash(records, rep[i], rep[j]);
    } else {
      LinkedIsStrong(records[i], records[j]);
      assert IsStrong(records, i, j);
      FusionSafeAndMaximal(records);
      MayJoinIffAgree(records, rep, rep[i], rep[j]);
      var x, y :| 0 <= x < |rep| && 0 <= y < |rep| && rep[x] == rep[i] && rep[y] == rep[j]
        && !Agree(records[x], records[y]);
      assert SerialsAgree(records[x].evidence, records[y].evidence);
      assert Incompatible(records, x, y);
    }
  }

  lemma LinkedClash(records: seq<Record>, i: nat, j: nat)
    requires i < |records| && j < |records| && Linked(records[i].evidence, records[j].evidence)
    requires var rep := Clusters(records).rep; rep[i] != rep[j] && NoSerialConflict(records, rep[i], rep[j])
    ensures var rep := Clusters(records).rep; TypesClash(records, rep[i], rep[j])
  {
    hide Clusters, NoSerialConflict, TypesClash;
    if i < j {
      LinkedApartClash(records, i, j);
    } else {
      NoClashSymmetric(records, Clusters(records).rep[i], Clusters(records).rep[j]);
      LinkedApartClash(records, j, i);
    }
  }

  /** Clusters that show one serial show no other, so their serials do not conflict. */
  lemma OneSerialEach(records: seq<Record>, i: nat, j: nat)
    requires i < |records| && j < |records| && records[i].evidence.serial == records[j].evidence.serial != ""
    ensures NoSerialConflict(records, Clusters(records).rep[i], Clusters(records).rep[j])
  {
    hide Clusters, CompatibleTypes, ClassifyMatch, MayJoin, Members;
    var rep := Clusters(records).rep;
    FusionSafeAndMaximal(records);
    forall x: nat, y: nat | x < |records| && y < |records| && rep[x] == rep[i] && rep[y] == rep[j]
      ensures SerialsAgree(records[x].evidence, records[y].evidence)
    {
      assert Agree(records[x], records[i]) && Agree(records[y], records[j]);
    }
  }

  /** Two different groups that show the same serial always hold a type-incompatible pair across them. */
  lemma SameSerialClashes(records: seq<Record>, i: nat, j: nat)
    requires i < |records| && j < |records| && records[i].evidence.serial == records[j].evidence.serial != ""
    requires Clusters(records).rep[i] != Clusters(records).rep[j]
    ensures TypesClash(records, Clusters(records).rep[i], Clusters(records).rep[j])
  {
    hide Clusters, NoSerialConflict, TypesClash;
    OneSerialEach(records, i, j);
    LinkedClash(records, i, j);
  }

  // --- shared identities --------------------------------------------------------------------

  /** Host names and sites, or addresses and sites, that differ but read alike once they are joined. */
  predicate JoinedAlike(a: Evidence, b: Evidence)
  {
    || (Joined(a.shortHostname, a.site) == Joined(b.shortHostname, b.site) != ""
        && (a.shortHostname, a.site) != (b.shortHostname, b.site))
    || (Joined(a.managementIp, a.site) == Joined(b.managementIp, b.site) != ""
        && (a.managementIp, a.site) != (b.managementIp, b.site))
  }

  ghost predicate SeparatorsConfuse(a: seq<Record>, b: seq<Record>)
  {
    exists x, y | x in a && y in b :: JoinedAlike(x.evidence, y.evidence)
  }

  ghost predicate ShareSerial(a: seq<Record>, b: seq<Record>)
  {
    exists x, y | x in a && y in b :: x.evidence.serial == y.evidence.serial != ""
  }

  predicate SamePartition(a: seq<Record>, b: seq<Record>)
    requires a != [] && b != []
  {
    Partition(a) == Partition(b)
  }

  /** Both groups rest on this kind of evidence, with the same least value. */
  predicate RestOn(a: seq<Record>, b: seq<Record>, kind: Kind)
    requires a != [] && b != []
  {
    KindOf(a) == kind == KindOf(b) && Least(Values(a, kind)) == Least(Values(b, kind))
  }

  /** Records of two groups that show a common value of one kind are linked, or only their separators agree. */
  lemma CommonValueLinks(a: Record, b: Record, kind: Kind)
    requires kind != BySource && Shown(a, kind) == Shown(b, kind) != ""
    ensures Linked(a.evidence, b.evidence) || JoinedAlike(a.evidence, b.evidence)
  {
  }

  lemma CommonLeast(a: seq<Record>, b: seq<Record>, kind: Kind) returns (x: Record, y: Record)
    requires a != [] && b != [] && RestOn(a, b, kind) && kind != BySource
    ensures x in a && y in b && Shown(x, kind) == Shown(y, kind) != ""
  {
    hide Shown;
    var v := Least(Values(a, kind));
    assert v in Values(a, kind) && v in Values(b, kind);
    x :| x in a && Shown(x, kind) == v;
    y :| y in b && Shown(y, kind) == v;
  }

  lemma ShownIsValue(a: seq<Record>, x: Record, kind: Kind)
    requires x in a && Shown(x, kind) != ""
    ensures Values(a, kind) != []
  {
    hide Shown;
    assert Shown(x, kind) in Values(a, kind);
  }

  /** A group that does not rest on a serial shows none. */
  lemma ShowsNoSerial(a: seq<Record>, x: Record)
    requires a != [] && KindOf(a) != BySerial && x in a
    ensures x.evidence.serial == ""
  {
    hide Values;
    if Shown(x, BySerial) != "" {
      ShownIsValue(a, x, BySerial);
    }
  }

  lemma SharedKindNoConflict(records: seq<Record>, i: nat, j: nat, kind: Kind)
    requires i < |records| && j < |records| && RestOn(GroupAt(records, i), GroupAt(records, j), kind)
             && kind != BySource
    ensures NoSerialConflict(records, Clusters(records).rep[i], Clusters(records).rep[j])
  {
    hide Clusters, GroupAt, RestOn, KindOf;
    var rep, a, b := Clusters(records).rep, GroupAt(records, i), GroupAt(records, j);
    if kind == BySerial {
      var x, y := CommonLeast(a, b, kind);
      assert InGroup(records, i, x) && InGroup(records, j, y);
      var m: nat :| m < |records| && rep[m] == rep[i] && records[m] == x;
      var n: nat :| n < |records| && rep[n] == rep[j] && records[n] == y;
      OneSerialEach(records, m, n);
    } else {
      forall x: nat, y: nat | x < |records| && y < |records| && rep[x] == rep[i] && rep[y] == rep[j]
        ensures SerialsAgree(records[x].evidence, records[y].evidence)
      {
        assert InGroup(records, i, records[x]);
        KindIs(a, b, kind);
        ShowsNoSerial(a, records[x]);
      }
    }
  }

  lemma KindIs(a: seq<Record>, b: seq<Record>, kind: Kind)
    requires a != [] && b != [] && RestOn(a, b, kind)
    ensures KindOf(a) == kind == KindOf(b)
  {
  }

  /** Different groups that rest on the same evidence clash in their types, or agree only in their separators. */
  lemma SharedEvidenceClashes(records: seq<Record>, i: nat, j: nat, kind: Kind)
    requires i < |records| && j < |records| && Clusters(records).rep[i] != Clusters(records).rep[j]
    requires RestOn(GroupAt(records, i), GroupAt(records, j), kind) && kind != BySource
    ensures TypesClash(records, Clusters(records).rep[i], Clusters(records).rep[j])
            || SeparatorsConfuse(GroupAt(records, i), GroupAt(records, j))
  {
    hide Clusters, GroupAt, RestOn, TypesClash, NoSerialConflict, Linked, JoinedAlike, Shown;
    var rep, a, b := Clusters(records).rep, GroupAt(records, i), GroupAt(records, j);
    var x, y := CommonLeast(a, b, kind);
    SharedKindNoConflict(records, i, j, kind);
    CommonValueLinks(x, y, kind);
    if Linked(x.evidence, y.evidence) {
      assert InGroup(records, i, x) && InGroup(records, j, y);
      var m: nat :| m < |records| && rep[m] == rep[i] && records[m] == x;
      var n: nat :| n < |records| && rep[n] == rep[j] && records[n] == y;
      LinkedClash(records, m, n);
    }
  }

  /** Groups that have a serial in common rest on it. */
  lemma CommonSerialIsLeast(records: seq<Record>, i: nat, j: nat)
    requires i < |records| && j < |records| && ShareSerial(GroupAt(records, i), GroupAt(records, j))
    ensures RestOn(GroupAt(records, i), GroupAt(records, j), BySerial)
  {
    hide Clusters, GroupAt, CompatibleTypes, ClassifyMatch, MayJoin, Members, Least;
    var rep, a, b := Clusters(records).rep, GroupAt(records, i), GroupAt(records, j);
    var x, y :| x in a && y in b && x.evidence.serial == y.evidence.serial != "";
    OnlySerial(records, i, x);
    OnlySerial(records, j, y);
    assert Shown(x, BySerial) in Values(a, BySerial) && Shown(y, BySerial) in Values(b, BySerial);
  }

  lemma OnlySerial(records: seq<Record>, i: nat, x: Record)
    requires i < |records| && x in GroupAt(records, i) && x.evidence.serial != ""
    ensures forall v | v in Values(GroupAt(records, i), BySerial) :: v == x.evidence.serial
  {
    hide Clusters, GroupAt, CompatibleTypes, ClassifyMatch, MayJoin, Members, Values;
    var rep, a := Clusters(records).rep, GroupAt(records, i);
    FusionSafeAndMaximal(records);
    assert InGroup(records, i, x);
    var m: nat :| m < |records| && rep[m] == rep[i] && records[m] == x;
    forall v | v in Values(a, BySerial) ensures v == x.evidence.serial {
      var y :| y in a && Shown(y, BySerial) == v;
      assert InGroup(records, i, y);
      var n: nat :| n < |records| && rep[n] == rep[i] && records[n] == y;
      assert Agree(records[m], records[n]);
    }
  }

  /**
   Two different groups get the same canonical identity exactly when they are of one partition and
   * share a serial, and then types clash across them; or
   * rest on the same least chassis id, MAC, host name at a site, or address at a site, and then types
     clash across them, or a separator inside a name makes different names read alike; or
   * show no such evidence at all and have the same least source key;
   or they are of different partitions, and a separator inside a deployment or a customer makes one
   partition read like the other and the beginning of its identity.
   */
  lemma SharedIdentityIff(records: seq<Record>, i: nat, j: nat)
    requires i < |records| && j < |records| && Clusters(records).rep[i] != Clusters(records).rep[j]
    ensures var a, b := GroupAt(records, i), GroupAt(records, j);
            var clash := TypesClash(records, Clusters(records).rep[i], Clusters(records).rep[j]);
            CanonicalIdentity(a) == CanonicalIdentity(b) <==>
            || (&& SamePartition(a, b)
                && (|| (ShareSerial(a, b) && clash)
                    || ((RestOn(a, b, ByChassis) || RestOn(a, b, ByMac)) && clash)
                    || ((RestOn(a, b, ByHost) || RestOn(a, b, ByIp)) && (clash || SeparatorsConfuse(a, b)))
                    || RestOn(a, b, BySource)))
            || (!SamePartition(a, b) && PartitionsShift(a, b))
  {
    hide Clusters, GroupAt, TypesClash, SeparatorsConfuse, ShareSerial, Partition, Values, Least, PartitionsShift;
    var a, b := GroupAt(records, i), GroupAt(records, j);
    SameIdentityIff(a, b);
    IdentityRestsOn(a, b);
    forall kind: Kind | kind != BySource && RestOn(a, b, kind)
      ensures TypesClash(records, Clusters(records).rep[i], Clusters(records).rep[j]) || SeparatorsConfuse(a, b)
    {
      SharedEvidenceClashes(records, i, j, kind);
    }
    if RestOn(a, b, BySerial) || RestOn(a, b, ByChassis) || RestOn(a, b, ByMac) {
      HardwareClashes(records, i, j, KindOf(a));
    }
    if ShareSerial(a, b) {
      CommonSerialIsLeast(records, i, j);
    }
    if RestOn(a, b, BySerial) {
      LeastSerialIsCommon(a, b);
    }
  }

  lemma IdentityRestsOn(a: seq<Record>, b: seq<Record>)
    requires a != [] && b != []
    ensures KindOf(a) == KindOf(b) && Least(Values(a, KindOf(a))) == Least(Values(b, KindOf(b)))
            <==> RestOn(a, b, KindOf(a))
  {
    hide KindOf, Values, Least;
  }

  lemma LeastSerialIsCommon(a: seq<Record>, b: seq<Record>)
    requires a != [] && b != [] && RestOn(a, b, BySerial)
    ensures ShareSerial(a, b)
  {
    hide RestOn;
    var x, y := CommonLeast(a, b, BySerial);
  }

  /** Serials, chassis ids and MACs are not joined from parts, so there only types can keep the groups apart. */
  lemma HardwareClashes(records: seq<Record>, i: nat, j: nat, kind: Kind)
    requires i < |records| && j < |records| && Clusters(records).rep[i] != Clusters(records).rep[j]
    requires RestOn(GroupAt(records, i), GroupAt(records, j), kind)
             && (kind == BySerial || kind == ByChassis || kind == ByMac)
    ensures TypesClash(records, Clusters(records).rep[i], Clusters(records).rep[j])
  {
    hide Clusters, GroupAt, RestOn, TypesClash, NoSerialConflict;
    var rep, a, b := Clusters(records).rep, GroupAt(records, i), GroupAt(records, j);
    var x, y := CommonLeast(a, b, kind);
    SharedKindNoConflict(records, i, j, kind);
    assert InGroup(records, i, x) && InGroup(records, j, y);
    var m: nat :| m < |records| && rep[m] == rep[i] && records[m] == x;
    var n: nat :| n < |records| && rep[n] == rep[j] && records[n] == y;
    LinkedClash(records, m, n);
  }

  // --- where ids are unique -----------------------------------------------------------------

  /** No types are incompatible, and no host name, address, deployment or customer holds the separator. */
  ghost predicate Unconfused(records: seq<Record>)
  {
    && (forall x: nat, y: nat | x < |records| && y < |records| :: !Incompatible(records, x, y))
    && (forall x | x in records :: '|' !in x.evidence.shortHostname && '|' !in x.evidence.managementIp)
    && (forall x | x in records :: '|' !in x.deployment && '|' !in x.customer)
  }

  lemma PartitionShown(a: seq<Record>) returns (x: Record)
    requires a != []
    ensures x in a && Partition(a) == PartitionOf(x)
  {
    hide Least, PartitionOf;
    var all := Partitions(a);
    var k :| 0 <= k < |all| && all[k] == Least(all);
    x := a[k];
  }

  lemma NoShift(records: seq<Record>, i: nat, j: nat)
    requires i < |records| && j < |records| && Unconfused(records)
    ensures !PartitionsShift(GroupAt(records, i), GroupAt(records, j))
  {
    hide Clusters, GroupAt, PartitionOf, Partition, IdentityText, Shifted, Incompatible;
    var a, b := GroupAt(records, i), GroupAt(records, j);
    var x := PartitionShown(a);
    var y := PartitionShown(b);
    assert InGroup(records, i, x) && InGroup(records, j, y);
    PlainPartitionsDoNotShift(x, IdentityText(a), y, IdentityText(b));
    PlainPartitionsDoNotShift(y, IdentityText(b), x, IdentityText(a));
  }

  lemma NoConfusion(records: seq<Record>, i: nat, j: nat)
    requires i < |records| && j < |records| && Unconfused(records)
    ensures !TypesClash(records, Clusters(records).rep[i], Clusters(records).rep[j])
    ensures !SeparatorsConfuse(GroupAt(records, i), GroupAt(records, j))
  {
    hide Clusters, GroupAt, Joined, Incompatible;
    forall x, y | x in GroupAt(records, i) && y in GroupAt(records, j) ensures !JoinedAlike(x.evidence, y.evidence) {
      assert InGroup(records, i, x) && InGroup(records, j, y);
      var a, b := x.evidence, y.evidence;
      if Joined(a.shortHostname, a.site) == Joined(b.shortHostname, b.site) != "" {
        JoinedParts(a.shortHostname, a.site, b.shortHostname, b.site);
      }
      if Joined(a.managementIp, a.site) == Joined(b.managementIp, b.site) != "" {
        JoinedParts(a.managementIp, a.site, b.managementIp, b.site);
      }
    }
  }

  /** On such records canonical ids coincide only without evidence, and then exactly on equal least source keys. */
  lemma OnlySourceKeysCoincide(records: seq<Record>, i: nat, j: nat)
    requires i < |records| && j < |records| && Clusters(records).rep[i] != Clusters(records).rep[j]
             && Unconfused(records)
    ensures var a, b := GroupAt(records, i), GroupAt(records, j);
            CanonicalIdentity(a) == CanonicalIdentity(b) <==> SamePartition(a, b) && RestOn(a, b, BySource)
  {
    hide *;
    SharedIdentityIff(records, i, j);
    NoConfusion(records, i, j);
    NoShift(records, i, j);
  }

  // --- inputs -------------------------------------------------------------------------------

  const NOTHING := Evidence("", "", "", "", "", "", "")

  lemma PartitionOfAll(a: seq<Record>, partition: string)
    requires a != [] && forall x | x in a :: PartitionOf(x) == partition
    ensures Partition(a) == partition
  {
    hide Partition, PartitionOf;
    var x := PartitionShown(a);
  }

  lemma OnePartition(records: seq<Record>, i: nat, j: nat)
    requires i < |records| && j < |records|
    requires forall x | x in records :: PartitionOf(x) == PartitionOf(records[0])
    ensures SamePartition(GroupAt(records, i), GroupAt(records, j))
  {
    hide GroupAt, Clusters, Partition, PartitionOf;
    forall x | x in GroupAt(records, i) || x in GroupAt(records, j) ensures x in records {
      assert InGroup(records, i, x) || InGroup(records, j, x);
    }
    PartitionOfAll(GroupAt(records, i), PartitionOf(records[0]));
    PartitionOfAll(GroupAt(records, j), PartitionOf(records[0]));
  }

  lemma OwnGroup(records: seq<Record>, i: nat)
    requires i < |records|
    ensures records[i] in GroupAt(records, i)
  {
    hide GroupAt, Clusters;
    assert InGroup(records, i, records[i]);
  }

  /** A printer and a server with one serial stay apart and get one canonical id. */
  lemma SerialSharedByTypes() returns (records: seq<Record>)
    ensures |records| == 2 && records[0].evidence.serial == records[1].evidence.serial != ""
            && Incompatible(records, 0, 1)
    ensures Clusters(records).rep[0] != Clusters(records).rep[1]
    ensures CanonicalIdentity(GroupAt(records, 0)) == CanonicalIdentity(GroupAt(records, 1))
  {
    hide GroupAt, Clusters;
    var a := Record("snmp", "1", "", "", "", NOTHING.(serial := "S1", deviceType := "printer"));
    var b := Record("mist", "2", "", "", "", NOTHING.(serial := "S1", deviceType := "server"));
    records := [a, b];
    assert !Agree(a, b);
    FusionSafeAndMaximal(records);
    OnePartition(records, 0, 1);
    OwnGroup(records, 0);
    OwnGroup(records, 1);
    assert ShareSerial(GroupAt(records, 0), GroupAt(records, 1));
    SameSerialClashes(records, 0, 1);
    SharedIdentityIff(records, 0, 1);
  }

  lemma UnmatchedApart(records: seq<Record>)
    requires |records| == 2 && ClassifyMatch(records[0], records[1]).confidence == Unmerged
    ensures Clusters(records).rep[0] != Clusters(records).rep[1]
  {
    hide FuseFrom;
    var st := Initial(2);
    assert Step(records, st, 0, 1) == st;
    assert FuseFrom(records, st, 0, 1) == FuseFrom(records, st, 0, 2) == FuseFrom(records, st, 1, 2)
        == FuseFrom(records, st, 2, 3) == st by {
      LoopOverTwo(records, st);
    }
  }

  lemma LoopOverTwo(records: seq<Record>, st: Clustering)
    requires |records| == 2 && |st.rep| == 2 && Step(records, st, 0, 1) == st
    ensures FuseFrom(records, st, 0, 1) == FuseFrom(records, st, 0, 2) == FuseFrom(records, st, 1, 2)
        == FuseFrom(records, st, 2, 3) == st
  {
    hide Step;
  }

  lemma NoEvidenceNoValues(a: seq<Record>, key: string)
    requires a != [] && forall x | x in a :: x.evidence == NOTHING && x.sourceKey == key
    ensures KindOf(a) == BySource && Least(Values(a, BySource)) == key
  {
    forall kind: Kind | kind != BySource ensures Values(a, kind) == [] {
      ShowsNothing(a, kind);
    }
    assert Least(Values(a, BySource)) in Values(a, BySource);
  }

  lemma ShowsNothing(a: seq<Record>, kind: Kind)
    requires kind != BySource && forall x | x in a :: Shown(x, kind) == ""
    ensures Values(a, kind) == []
  {
    hide Shown;
    var shown := Values(a, kind);
    assert forall v | v in shown :: v == "";
    if shown != [] {
      var least := Least(shown);
    }
  }

  /** Records of two sources without any evidence, and with the same source key, stay apart and get one canonical id. */
  lemma SourceKeyShared() returns (records: seq<Record>)
    ensures |records| == 2 && records[0].source != records[1].source && !Incompatible(records, 0, 1)
    ensures records[0].evidence == NOTHING == records[1].evidence && records[0].sourceKey == records[1].sourceKey
    ensures Clusters(records).rep[0] != Clusters(records).rep[1]
    ensures CanonicalIdentity(GroupAt(records, 0)) == CanonicalIdentity(GroupAt(records, 1))
  {
    hide GroupAt, Clusters;
    records := [Record("snmp", "1", "", "", "", NOTHING), Record("mist", "1", "", "", "", NOTHING)];
    UnmatchedApart(records);
    OnePartition(records, 0, 1);
    forall i: nat | i < 2
      ensures KindOf(GroupAt(records, i)) == BySource && Least(Values(GroupAt(records, i), BySource)) == "1" {
      forall x | x in GroupAt(records, i) ensures x in records {
        assert InGroup(records, i, x);
      }
      NoEvidenceNoValues(GroupAt(records, i), "1");
    }
    SharedIdentityIff(records, 0, 1);
  }

  lemma OnlyName(a: seq<Record>, name: string)
    requires a != [] && name != "" && forall x | x in a :: Shown(x, ByHost) == name
    requires forall x | x in a :: x.evidence.serial == x.evidence.chassisId == x.evidence.managementMac == ""
    ensures KindOf(a) == ByHost && Least(Values(a, ByHost)) == name
  {
    hide Joined;
    ShowsNothing(a, BySerial);
    ShowsNothing(a, ByChassis);
    ShowsNothing(a, ByMac);
    assert Shown(a[0], ByHost) in Values(a, ByHost);
    assert Least(Values(a, ByHost)) in Values(a, ByHost);
  }

  /** Host names and sites that differ but read alike give devices with nothing in common one canonical id. */
  lemma NamesReadAlike() returns (records: seq<Record>)
    ensures |records| == 2 && !Incompatible(records, 0, 1)
    ensures records[0].evidence.shortHostname != records[1].evidence.shortHostname
    ensures records[0].evidence.site != records[1].evidence.site
    ensures Clusters(records).rep[0] != Clusters(records).rep[1]
    ensures CanonicalIdentity(GroupAt(records, 0)) == CanonicalIdentity(GroupAt(records, 1))
  {
    hide GroupAt, Clusters, Values, Least, Partition;
    records := [Record("snmp", "1", "", "", "", NOTHING.(shortHostname := "a|b", site := "c")),
                Record("mist", "2", "", "", "", NOTHING.(shortHostname := "a", site := "b|c"))];
    UnmatchedApart(records);
    OnePartition(records, 0, 1);
    forall i: nat | i < 2
      ensures KindOf(GroupAt(records, i)) == ByHost && Least(Values(GroupAt(records, i), ByHost)) == "a|b|c" {
      forall x | x in GroupAt(records, i) ensures x in records {
        assert InGroup(records, i, x);
      }
      assert Shown(records[0], ByHost) == "a|b|c" == Shown(records[1], ByHost);
      OnlyName(GroupAt(records, i), "a|b|c");
    }
    SameIdentityIff(GroupAt(records, 0), GroupAt(records, 1));
  }

  lemma AloneInGroup(records: seq<Record>, i: nat, x: Record)
    requires |records| == 2 && i < 2 && Clusters(records).rep[0] != Clusters(records).rep[1]
    requires x in GroupAt(records, i)
    ensures x == records[i]
  {
    hide GroupAt, Clusters;
    assert InGroup(records, i, x);
  }

  const ALIKE := "d|c|hostname-site:h|serial:1"

  const NAMED := Record("snmp", "1", "", "d", "c", NOTHING.(shortHostname := "h", site := "serial:1"))

  const NUMBERED := Record("mist", "2", "", "d", "c|hostname-site:h", NOTHING.(serial := "1"))

  /** What the two records show, and what the texts join to. */
  lemma NamedParts()
    ensures PartitionOf(NAMED) == "d|c" && Shown(NAMED, ByHost) == "h|serial:1"
    ensures NAMED.evidence.serial == NAMED.evidence.chassisId == NAMED.evidence.managementMac == ""
  {
  }

  lemma NumberedParts()
    ensures PartitionOf(NUMBERED) == "d|c|hostname-site:h" && NUMBERED.evidence.serial == "1"
  {
  }

  lemma NamedJoins()
    ensures "d|c" + "|" + (Prefix(ByHost) + "h|serial:1") == ALIKE
  {
  }

  lemma NumberedJoins()
    ensures "d|c|hostname-site:h" + "|" + (Prefix(BySerial) + "1") == ALIKE
  {
  }

  lemma NamedText(a: seq<Record>)
    requires a != [] && forall x | x in a :: x == NAMED
    ensures KindOf(a) == ByHost && Partition(a) == "d|c" && CanonicalIdentity(a) == ALIKE
  {
    hide Values, Least, Partition, KindOf, PartitionOf, Shown, NAMED, Prefix, ALIKE;
    NamedParts();
    PartitionOfAll(a, "d|c");
    OnlyName(a, "h|serial:1");
    NamedJoins();
  }

  lemma NumberedText(a: seq<Record>)
    requires a != [] && forall x | x in a :: x == NUMBERED
    ensures KindOf(a) == BySerial && Partition(a) == "d|c|hostname-site:h" && CanonicalIdentity(a) == ALIKE
  {
    hide Values, Least, Partition, KindOf, PartitionOf, Shown, NUMBERED, Prefix, ALIKE;
    NumberedParts();
    PartitionOfAll(a, "d|c|hostname-site:h");
    OnlySerialShown(a, "1");
    NumberedJoins();
  }

  lemma OnlySerialShown(a: seq<Record>, serial: string)
    requires a != [] && serial != "" && forall x | x in a :: x.evidence.serial == serial
    ensures KindOf(a) == BySerial && Least(Values(a, BySerial)) == serial
  {
    assert Shown(a[0], BySerial) in Values(a, BySerial);
    assert Least(Values(a, BySerial)) in Values(a, BySerial);
  }

  /** A customer that holds the separator: different partitions and different evidence, and one canonical id. */
  lemma PartitionReadsAlike() returns (records: seq<Record>)
    ensures |records| == 2 && !Incompatible(records, 0, 1)
    ensures Clusters(records).rep[0] != Clusters(records).rep[1]
    ensures KindOf(GroupAt(records, 0)) == ByHost && KindOf(GroupAt(records, 1)) == BySerial
    ensures !SamePartition(GroupAt(records, 0), GroupAt(records, 1))
    ensures CanonicalIdentity(GroupAt(records, 0)) == CanonicalIdentity(GroupAt(records, 1))
  {
    hide GroupAt, Clusters, KindOf, Partition, CanonicalIdentity;
    records := [NAMED, NUMBERED];
    UnmatchedApart(records);
    forall x | x in GroupAt(records, 0) ensures x == NAMED {
      AloneInGroup(records, 0, x);
    }
    forall x | x in GroupAt(records, 1) ensures x == NUMBERED {
      AloneInGroup(records, 1, x);
    }
    NamedText(GroupAt(records, 0));
    NumberedText(GroupAt(records, 1));
  }
}
