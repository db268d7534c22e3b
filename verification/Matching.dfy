/** What two records must show to be matched, and what the fused assets therefore rest on. */
module Matching {
  import opened Identity
  import opened UnionFind
  import opened Fusion
  import opened FusedIdentity

  // --- device types -------------------------------------------------------------------------

  /** The spellings that may stand for one physical device. */
  const KINDS: seq<set<string>> :=
    [{"switch", "network-switch", "router", "network-device"},
     {"access-point", "wireless-access-point", "wireless-ap", "wireless"},
     {"firewall", "security-appliance"}, {"printer", "printer-device"}, {"storage", "nas"}]

  predicate OneKind(a: string, b: string, k: nat)
    requires k < |KINDS|
  {
    a in KINDS[k] && b in KINDS[k]
  }

  /** An unknown type fits any, a type fits itself, and otherwise both are spellings of one kind. */
  predicate TypesFit(a: string, b: string)
  {
    a == "" || b == "" || a == b
    || OneKind(a, b, 0) || OneKind(a, b, 1) || OneKind(a, b, 2) || OneKind(a, b, 3) || OneKind(a, b, 4)
  }

  /** Where the spelling of a type belongs. */
  lemma AliasOf(a: string)
    ensures Alias(a) == "" <==> a == ""
    ensures Alias(a) in FAMILIES[0] <==> a in KINDS[0]
    ensures Alias(a) in FAMILIES[1] <==> a in KINDS[1]
    ensures Alias(a) in FAMILIES[2] <==> a in KINDS[2]
    ensures Alias(a) in FAMILIES[3] <==> a in KINDS[3]
    ensures Alias(a) in FAMILIES[5] <==> a in KINDS[4]
    ensures Alias(a) in FAMILIES[4] ==> a == Alias(a) == "server"
    ensures Alias(a) in FAMILIES[6] ==> a == Alias(a) == "ups"
    ensures a == Alias(a) || a in KINDS[0] || a in KINDS[1] || a in KINDS[2] || a in KINDS[3]
  {
  }

  lemma FamilyIs(a: string, b: string)
    ensures SameFamily(a, b) <==>
            || (a in FAMILIES[0] && b in FAMILIES[0]) || (a in FAMILIES[1] && b in FAMILIES[1])
            || (a in FAMILIES[2] && b in FAMILIES[2]) || (a in FAMILIES[3] && b in FAMILIES[3])
            || (a in FAMILIES[4] && b in FAMILIES[4]) || (a in FAMILIES[5] && b in FAMILIES[5])
            || (a in FAMILIES[6] && b in FAMILIES[6])
  {
    hide FAMILIES;
    assert |FAMILIES| == 7 by {
      FamilyCount();
    }
  }

  lemma FamilyCount()
    ensures |FAMILIES| == 7
  {
  }

  /** Spellings of one kind are compatible, and unequal known types of different kinds are not. */
  lemma CompatibleIff(a: string, b: string)
    ensures CompatibleTypes(a, b) <==> TypesFit(a, b)
  {
    hide Alias, SameFamily, FAMILIES, KINDS;
    assert |FAMILIES| == 7 && |KINDS| == 5 by {
      FamilyCount();
      KindCount();
    }
    AliasOf(a);
    AliasOf(b);
    FamilyIs(Alias(a), Alias(b));
    AliasesMeet(a, b);
  }

  lemma KindCount()
    ensures |KINDS| == 5
  {
  }

  /** Types with one alias are one type or spellings of one kind, whose aliases are in one family. */
  lemma AliasesMeet(a: string, b: string)
    ensures Alias(a) == Alias(b) ==> TypesFit(a, b)
  {
    hide Alias, FAMILIES, KINDS;
    assert |FAMILIES| == 7 && |KINDS| == 5 by {
      FamilyCount();
      KindCount();
    }
    AliasOf(a);
    AliasOf(b);
  }

  // --- what a match rests on ----------------------------------------------------------------

  predicate SharesHardware(a: Evidence, b: Evidence)
  {
    || (a.serial != "" && a.serial == b.serial)
    || (a.chassisId != "" && a.chassisId == b.chassisId)
    || (a.managementMac != "" && a.managementMac == b.managementMac)
  }

  predicate SharesName(a: Evidence, b: Evidence)
  {
    a.shortHostname != "" && a.shortHostname == b.shortHostname
  }

  predicate SharesAddress(a: Evidence, b: Evidence)
  {
    a.managementIp != "" && a.managementIp == b.managementIp
  }

  predicate OneSite(a: Evidence, b: Evidence)
  {
    a.site != "" && a.site == b.site
  }

  predicate IsVendor(source: string)
  {
    source == "mist" || source == "fortigate" || source == "paloalto"
  }

  /**
   Network discovery and a vendor's controller report the two, and name the site alike, or only one of
   them by a name of several words.
   */
  predicate CrossDiscovered(left: Record, right: Record)
  {
    && ((left.source == "snmp" && IsVendor(right.source)) || (right.source == "snmp" && IsVendor(left.source)))
    && left.siteId != "" && right.siteId != ""
    && (left.siteId == right.siteId || ((' ' in left.siteId) <==> (' ' !in right.siteId)))
  }

  predicate Placed(left: Record, right: Record)
  {
    OneSite(left.evidence, right.evidence) || CrossDiscovered(left, right)
  }

  /** Nothing the two records show rules out that they are one device. */
  predicate NothingAgainst(left: Record, right: Record)
  {
    SerialsAgree(left.evidence, right.evidence) && TypesFit(left.evidence.deviceType, right.evidence.deviceType)
  }

  lemma VendorsMeet(left: Record, right: Record)
    ensures var sources := {left.source, right.source};
            "snmp" in sources && sources * VENDOR_SOURCES != {} <==>
            (left.source == "snmp" && IsVendor(right.source)) || (right.source == "snmp" && IsVendor(left.source))
  {
    var sources := {left.source, right.source};
    if IsVendor(left.source) {
      assert left.source in sources * VENDOR_SOURCES;
    }
    if IsVendor(right.source) {
      assert right.source in sources * VENDOR_SOURCES;
    }
  }

  /**
   A shared hardware identifier is an exact match; a shared host name, and failing that a shared
   address, is a high and a medium match if the place agrees too; anything shared besides is a low
   match, and so is everything shared by records that speak against each other.
   */
  lemma ConfidenceMeans(left: Record, right: Record)
    ensures var c, a, b := ClassifyMatch(left, right).confidence, left.evidence, right.evidence;
      && (c == Unmerged <==> !SharesHardware(a, b) && !SharesName(a, b) && !SharesAddress(a, b))
      && (c == Exact <==> NothingAgainst(left, right) && SharesHardware(a, b))
      && (c == High <==>
            NothingAgainst(left, right) && !SharesHardware(a, b) && SharesName(a, b) && Placed(left, right))
      && (c == Medium <==>
            && NothingAgainst(left, right) && !SharesHardware(a, b) && !SharesName(a, b)
            && SharesAddress(a, b) && Placed(left, right))
  {
    hide CompatibleTypes, TypesFit, VENDOR_SOURCES;
    CompatibleIff(left.evidence.deviceType, right.evidence.deviceType);
    VendorsMeet(left, right);
  }

  /** Two records may be fused exactly if nothing is against it and they share hardware or a placed name or address. */
  lemma StrongIff(left: Record, right: Record)
    ensures Strong(ClassifyMatch(left, right).confidence) <==>
            && NothingAgainst(left, right)
            && (|| Linked(left.evidence, right.evidence)
                || (CrossDiscovered(left, right)
                    && (SharesName(left.evidence, right.evidence) || SharesAddress(left.evidence, right.evidence))))
  {
    hide ClassifyMatch, NothingAgainst, CrossDiscovered;
    ConfidenceMeans(left, right);
  }

  /** The evidence named is shared, the strongest first, and a low match says what is against it. */
  lemma MatchNames(left: Record, right: Record)
    ensures var m, a, b := ClassifyMatch(left, right), left.evidence, right.evidence;
            var place := if OneSite(a, b) then "site" else "collector_pair";
      && (m.confidence == Exact ==>
            && (m.matchedOn == ["serial_number"] <==> a.serial != "" && a.serial == b.serial)
            && (m.matchedOn == ["chassis_id"] <==>
                  !(a.serial != "" && a.serial == b.serial) && a.chassisId != "" && a.chassisId == b.chassisId)
            && m.matchedOn in {["serial_number"], ["chassis_id"], ["management_mac"]})
      && (m.confidence == High ==> m.matchedOn == ["hostname", place])
      && (m.confidence == Medium ==> m.matchedOn == ["management_ip", place])
      && (m.confidence == Unmerged ==> m.matchedOn == [])
      && (m.confidence == Low ==>
            m.matchedOn == [if SharesName(a, b) then "hostname"
                            else if SharesAddress(a, b) then "management_ip" else "hardware"])
      && (m.reason == "conflicting serial numbers" <==> m.confidence == Low && !SerialsAgree(a, b))
      && (m.reason == "incompatible device types" <==>
            m.confidence == Low && SerialsAgree(a, b) && !TypesFit(a.deviceType, b.deviceType))
      && (m.reason == "site identity is incompatible" <==> m.confidence == Low && NothingAgainst(left, right))
      && (m.reason == "" <==> m.confidence != Low)
  {
    hide CompatibleTypes, TypesFit, VENDOR_SOURCES, SiteAlias;
    CompatibleIff(left.evidence.deviceType, right.evidence.deviceType);
  }

  // --- what fused assets rest on ------------------------------------------------------------

  /** Every accepted edge lies between records of one asset that show the evidence of its confidence. */
  lemma EdgesShowEvidence(records: seq<Record>, e: Edge)
    requires e in Clusters(records).edges
    ensures e.left < e.right < |records| && Clusters(records).rep[e.left] == Clusters(records).rep[e.right]
    ensures var left, right := records[e.left], records[e.right];
            var a, b := left.evidence, right.evidence;
      && NothingAgainst(left, right)
      && (e.confidence == Exact || e.confidence == High || e.confidence == Medium)
      && (e.confidence == Exact <==> SharesHardware(a, b))
      && (e.confidence != Exact ==> Placed(left, right))
      && (e.confidence == High ==> SharesName(a, b))
      && (e.confidence == Medium ==> SharesAddress(a, b) && !SharesName(a, b))
  {
    hide Clusters, ClassifyMatch, NothingAgainst, Placed, SharesHardware, SharesName, SharesAddress, LowExact, Maximal,
      Safe;
    EdgesInside(records);
    ClustersSound(records);
    var k :| 0 <= k < |Clusters(records).edges| && Clusters(records).edges[k] == e;
    assert e == EdgeOf(records, e.left, e.right);
    ConfidenceMeans(records[e.left], records[e.right]);
  }

  ghost predicate PairIn(records: seq<Record>, g: nat, i: nat, j: nat)
  {
    i < j < |records| && Clusters(records).rep[i] == g == Clusters(records).rep[j]
  }

  /**
   The confidence of an asset: exact if and only if two of its records share hardware, high if and only
   if none do and two share a placed name, medium if and only if none of that and it has two records.
   */
  lemma AssetConfidenceMeans(records: seq<Record>, g: nat)
    requires g in Labels(Clusters(records).rep)
    ensures var st := Clusters(records);
            var c := GroupConfidence(st.edges, Members(st.rep, g));
      && (c == Exact <==>
            exists i: nat, j: nat ::
              PairIn(records, g, i, j) && SharesHardware(records[i].evidence, records[j].evidence))
      && (c == High <==>
            && c != Exact
            && exists i: nat, j: nat :: PairIn(records, g, i, j) && SharesName(records[i].evidence, records[j].evidence)
                                        && Placed(records[i], records[j]))
      && (c == Unmerged <==> |Members(st.rep, g)| == 1)
  {
    hide Clusters, GroupConfidence, Members, SharesHardware, SharesName, Placed, Labels;
    var st := Clusters(records);
    var members := Members(st.rep, g);
    var c := GroupConfidence(st.edges, members);
    UnmergedIffSingle(records, g);
    forall i: nat, j: nat | PairIn(records, g, i, j)
      ensures SharesHardware(records[i].evidence, records[j].evidence) ==> Rank(c) >= Rank(Exact)
      ensures SharesName(records[i].evidence, records[j].evidence) && Placed(records[i], records[j]) ==>
                Rank(c) >= Rank(High)
    {
      PairRanks(records, g, i, j);
    }
    if c != Unmerged {
      var e :| e in st.edges && Within(e, members) && e.confidence == c;
      EdgesShowEvidence(records, e);
      InMembers(records, g, e.left);
      InMembers(records, g, e.right);
      assert PairIn(records, g, e.left, e.right);
    }
  }

  lemma InMembers(records: seq<Record>, g: nat, i: nat)
    requires i < |records|
    ensures i in Members(Clusters(records).rep, g) <==> Clusters(records).rep[i] == g
  {
    hide Clusters;
  }

  lemma PairRanks(records: seq<Record>, g: nat, i: nat, j: nat)
    requires PairIn(records, g, i, j)
    ensures var st := Clusters(records);
            var c := GroupConfidence(st.edges, Members(st.rep, g));
      && (SharesHardware(records[i].evidence, records[j].evidence) ==> Rank(c) >= Rank(Exact))
      && (SharesName(records[i].evidence, records[j].evidence) && Placed(records[i], records[j]) ==>
            Rank(c) >= Rank(High))
  {
    hide Clusters, GroupConfidence, Members, ClassifyMatch, MayJoin, SharesHardware, SharesName, Placed, TypesFit,
      CompatibleTypes;
    var st := Clusters(records);
    FusionSafeAndMaximal(records);
    assert Agree(records[i], records[j]);
    CompatibleIff(records[i].evidence.deviceType, records[j].evidence.deviceType);
    ConfidenceMeans(records[i], records[j]);
    InMembers(records, g, i);
    InMembers(records, g, j);
    if IsStrong(records, i, j) {
      var e := EdgeOf(records, i, j);
      assert e in st.edges && Within(e, Members(st.rep, g));
    }
  }
}
