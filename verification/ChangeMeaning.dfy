/** What an observation does to each field of an asset, and what is reported and kept of the differences. */
module ChangeMeaning {
  import opened Options
  import opened InventoryTypes
  import opened ChangeLog
  import opened ChangeDetection

  // --- which assets are compared ------------------------------------------------------------

  /** The host name that exclusions look at: the one observed, or else the one known, or else none. */
  ghost predicate HostIs(prior: map<Field, Value>, item: map<Field, Value>, host: string)
  {
    if Named(item) then item[Hostname] == Text(host)
    else if Named(prior) then prior[Hostname] == Text(host) else host == ""
  }

  predicate Named(fields: map<Field, Value>)
  {
    Hostname in fields && fields[Hostname].Text? && fields[Hostname] != Text("")
  }

  predicate Shown(fields: map<Field, Value>, f: Field)
  {
    f in fields && fields[f] != Text("") && fields[f] != Number(0) && fields[f] != Truth(false)
  }

  ghost predicate KindIs(prior: map<Field, Value>, item: map<Field, Value>, kind: Value)
  {
    if Shown(item, DeviceType) then item[DeviceType] == kind else DeviceType in prior && prior[DeviceType] == kind
  }

  /** Nothing is compared if detection is off, or the host name or the device type is excluded. */
  lemma ExcludedMeans(cfg: Config, prior: map<Field, Value>, item: map<Field, Value>)
    ensures Excluded(cfg, prior, item) <==>
            || !cfg.detection
            || (exists host :: HostIs(prior, item, host) && cfg.hostExcluded(host))
            || (exists kind :: KindIs(prior, item, kind) && kind in cfg.excludedTypes)
  {
    var host := TextOr(Lookup(item, Hostname), TextOr(Lookup(prior, Hostname), ""));
    assert HostIs(prior, item, host);
    assert forall h | HostIs(prior, item, h) :: h == host;
    var newType, oldType := Lookup(item, DeviceType), Lookup(prior, DeviceType);
    var kind := if Truthy(newType) then newType else oldType;
    assert Truthy(newType) <==> Shown(item, DeviceType);
    assert forall v :: KindIs(prior, item, v) <==> kind == Some(v);
  }

  // --- which fields differ ------------------------------------------------------------------

  /** A missing value and an empty text compare alike; anything else by what the configuration makes of it. */
  ghost predicate SameIn(cfg: Config, prior: map<Field, Value>, item: map<Field, Value>, f: Field)
  {
    var a, b := f in prior && prior[f] != Text(""), f in item && item[f] != Text("");
    var x, y := if a then cfg.comparable(f, prior[f]) else None, if b then cfg.comparable(f, item[f]) else None;
    x == y
  }

  /** The observation says something about the field, or its silence means that the value is gone. */
  predicate Answers(cfg: Config, item: map<Field, Value>, pass: Pass, f: Field)
  {
    f in item || (!pass.partial && f in pass.declared && f !in cfg.enrichmentOnly)
  }

  ghost predicate Differs(cfg: Config, prior: map<Field, Value>, item: map<Field, Value>, pass: Pass, f: Field)
  {
    f !in cfg.ignored && Answers(cfg, item, pass, f) && !SameIn(cfg, prior, item, f)
  }

  lemma SameInIs(cfg: Config, prior: map<Field, Value>, item: map<Field, Value>, f: Field)
    ensures SameValue(cfg, prior, item, f) <==> SameIn(cfg, prior, item, f)
  {
  }

  predicate Identifying(f: Field)
  {
    f == SerialNumber || f == MacAddress || f == SourceAssetId
  }

  /**
   What a field becomes: the value known stands where the field is not ignored and the observation is
   silent, agrees, or would change an identifier; in every other case what is observed is stored.
   */
  lemma FieldBecomes(cfg: Config, id: string, prior: map<Field, Value>, item: map<Field, Value>, pass: Pass, f: Field)
    requires !Excluded(cfg, prior, item)
    ensures var after := Lookup(Detect(cfg, id, prior, item, pass).0, f);
      && (f in cfg.ignored || f !in prior ==> after == Lookup(item, f))
      && (f in prior && f !in cfg.ignored && !Differs(cfg, prior, item, pass, f) ==> after == Some(prior[f]))
      && (f in prior && Differs(cfg, prior, item, pass, f) && Identifying(f) ==> after == Some(prior[f]))
      && (f in prior && Differs(cfg, prior, item, pass, f) && !Identifying(f) ==> after == Lookup(item, f))
  {
    hide Detect, Excluded, Comparable;
    DetectSettles(cfg, id, prior, item, pass, f);
    SameInIs(cfg, prior, item, f);
    hide SameIn, SameValue;
  }

  /** A changed value is stored, whatever it was before, unless it would replace an identifier. */
  lemma ChangedValueIsStored(cfg: Config, id: string, prior: map<Field, Value>, item: map<Field, Value>, pass: Pass,
                             f: Field)
    requires !Excluded(cfg, prior, item) && f !in cfg.ignored && f in item && !SameIn(cfg, prior, item, f)
    requires f !in PROTECTED || f !in prior
    ensures Lookup(Detect(cfg, id, prior, item, pass).0, f) == Some(item[f])
  {
    hide Detect, Excluded, SameIn;
    FieldBecomes(cfg, id, prior, item, pass, f);
  }

  /** Without comparison everything observed is taken as it is, and nothing is reported. */
  lemma ExcludedTakesAll(cfg: Config, id: string, prior: map<Field, Value>, item: map<Field, Value>, pass: Pass)
    requires Excluded(cfg, prior, item)
    ensures Detect(cfg, id, prior, item, pass) == (item, [])
  {
  }

  // --- what is reported ---------------------------------------------------------------------

  predicate Falsy(v: Option<Value>)
  {
    v == None || v == Some(Truth(false)) || v == Some(Number(0))
  }

  predicate Belongs(f: Field)
  {
    f == Claimed || f == Managed || f == SourcePriority || f == SourceRecordId
  }

  predicate Places(f: Field)
  {
    f == Customer || f == Site || f == Location
  }

  predicate Classifies(f: Field)
  {
    f == Vendor || f == Platform || f == DeviceType || f == DeviceRole
  }

  predicate Names(f: Field)
  {
    f == Hostname || f == DisplayName || f == ManagementIp
  }

  /** A first identifier enriches an asset, and another one conflicts with it. */
  lemma IdentifierChanges(f: Field, previous: Option<Value>, current: Option<Value>)
    requires Identifying(f)
    ensures Classify(f, previous, current) ==
            if previous.None? && current.Some? then ("identity_enriched", Info, "protected_identity_added")
            else ("identity_conflict", HighSeverity, "protected_identity_changed")
  {
  }

  /** What kind of device it is, and what it runs. */
  lemma ClassChanges(f: Field, previous: Option<Value>, current: Option<Value>)
    requires f == FirmwareVersion || f == Model || Classifies(f)
    ensures Classify(f, previous, current) ==
            if f == FirmwareVersion then ("firmware_changed", Info, "firmware_observation_changed")
            else if f == Model then ("classification_changed", HighSeverity, "hardware_model_changed")
            else ("classification_changed", MediumSeverity, "asset_classification_changed")
  {
  }

  /** Where it is, and whose it is; a lost owner weighs more than another one. */
  lemma OwnerChanges(f: Field, previous: Option<Value>, current: Option<Value>)
    requires Places(f) || Belongs(f)
    ensures Classify(f, previous, current) ==
            if Places(f) then ("location_changed", MediumSeverity, "asset_location_changed")
            else
              ("ownership_changed", if Falsy(current) then MediumSeverity else LowSeverity, "asset_ownership_changed")
  {
  }

  /** What it is called: a name for the first time is information, any other change weighs little. */
  lemma NameChanges(f: Field, previous: Option<Value>, current: Option<Value>)
    requires Names(f)
    ensures Classify(f, previous, current) ==
            (if previous.None? then "value_added" else if current.None? then "value_removed" else "value_changed",
             if previous.Some? then LowSeverity else Info, "inventory_value_changed")
  {
  }

  /** A stored value is the value, but for texts beyond 512 characters, of which the beginning is stored. */
  predicate StoredAs(stored: Option<Value>, v: Option<Value>)
  {
    if v.Some? && v.value.Text? && |v.value.s| > 512 then stored == Some(Text(v.value.s[..512])) else stored == v
  }

  /** The event tells of the difference in this field. */
  ghost predicate Tells(cfg: Config, e: Change, id: string, prior: map<Field, Value>, item: map<Field, Value>,
                        pass: Pass, f: Field)
  {
    var (kind, severity, reason) := Classify(f, Lookup(prior, f), Lookup(item, f));
    && e.asset == id && e.field == f && e.at == pass.at && e.runId == pass.runId
    && e.kind == kind && e.severity == severity && e.reason == reason
    && StoredAs(e.previous, Lookup(prior, f)) && StoredAs(e.current, Lookup(item, f))
  }

  /** The severity is the one asked for, or a higher one. */
  predicate AtLeast(severity: Severity, minimum: Severity)
  {
    match minimum
    case Info => true
    case LowSeverity => severity != Info
    case MediumSeverity => severity == MediumSeverity || severity == HighSeverity
    case HighSeverity => severity == HighSeverity
  }

  ghost predicate Reportable(cfg: Config, prior: map<Field, Value>, item: map<Field, Value>, pass: Pass, f: Field)
  {
    Differs(cfg, prior, item, pass, f)
    && AtLeast(Classify(f, Lookup(prior, f), Lookup(item, f)).1, cfg.minimum(f))
  }

  lemma ReportMeans(cfg: Config, id: string, prior: map<Field, Value>, item: map<Field, Value>, pass: Pass, f: Field)
    ensures var events := Report(cfg, id, prior, item, pass, f);
            if Reportable(cfg, prior, item, pass, f) then
              |events| == 1 && Tells(cfg, events[0], id, prior, item, pass, f)
            else events == []
  {
    hide Comparable, Classify, SameIn;
    SameInIs(cfg, prior, item, f);
    hide SameValue;
  }

  lemma ReportLocal(cfg: Config, id: string, prior: map<Field, Value>, a: map<Field, Value>, b: map<Field, Value>,
                    pass: Pass, f: Field)
    requires Lookup(a, f) == Lookup(b, f)
    ensures Report(cfg, id, prior, a, pass, f) == Report(cfg, id, prior, b, pass, f)
  {
    hide Comparable, Classify, MakeChange;
    assert f in a <==> f in b;
  }

  lemma NextReport(cfg: Config, id: string, prior: map<Field, Value>, item: map<Field, Value>, pass: Pass, n: nat)
    requires n < |TRACKED|
    ensures DetectUpTo(cfg, id, prior, item, pass, n + 1).1 ==
            DetectUpTo(cfg, id, prior, item, pass, n).1 + Report(cfg, id, prior, item, pass, TRACKED[n])
  {
    hide Position, Report, Settle;
    var f, fields := TRACKED[n], DetectUpTo(cfg, id, prior, item, pass, n).0;
    TrackedOnce(n);
    FieldSettledOnce(cfg, id, prior, item, pass, n, f);
    ReportLocal(cfg, id, prior, fields, item, pass, f);
  }

  /** The first `n` fields report one event each where they differ enough, and nothing else. */
  lemma {:induction false} DetectedUpTo(cfg: Config, id: string, prior: map<Field, Value>, item: map<Field, Value>,
                                        pass: Pass, n: nat, e: Change)
    requires n <= |TRACKED|
    ensures e in DetectUpTo(cfg, id, prior, item, pass, n).1 <==>
            exists f: Field :: Position(f) < n && e in Report(cfg, id, prior, item, pass, f)
  {
    hide *;
    if n > 0 {
      var f := TRACKED[n - 1];
      NextReport(cfg, id, prior, item, pass, n - 1);
      DetectedUpTo(cfg, id, prior, item, pass, n - 1, e);
      TrackedOnce(n - 1);
      forall g: Field | Position(g) < n ensures Position(g) < n - 1 || g == f {
        PositionIs(g);
      }
    } else {
      NothingYet(cfg, id, prior, item, pass);
    }
  }

  lemma NothingYet(cfg: Config, id: string, prior: map<Field, Value>, item: map<Field, Value>, pass: Pass)
    ensures DetectUpTo(cfg, id, prior, item, pass, 0).1 == []
  {
  }

  lemma PositionIs(f: Field)
    ensures Position(f) < |TRACKED| && TRACKED[Position(f)] == f
  {
    hide Position;
  }

  /** Detection reports every field that differs enough, telling what differs. */
  lemma DifferenceIsReported(cfg: Config, id: string, prior: map<Field, Value>, item: map<Field, Value>, pass: Pass,
                             f: Field)
    requires !Excluded(cfg, prior, item) && Reportable(cfg, prior, item, pass, f)
    ensures exists e | e in Detect(cfg, id, prior, item, pass).1 :: Tells(cfg, e, id, prior, item, pass, f)
  {
    hide *;
    ReportMeans(cfg, id, prior, item, pass, f);
    var e := Report(cfg, id, prior, item, pass, f)[0];
    PositionIs(f);
    DetectedUpTo(cfg, id, prior, item, pass, |TRACKED|, e);
    NotExcluded(cfg, id, prior, item, pass);
    assert e in Detect(cfg, id, prior, item, pass).1;
  }

  /** And it reports nothing else. */
  lemma ReportIsDifference(cfg: Config, id: string, prior: map<Field, Value>, item: map<Field, Value>, pass: Pass,
                           e: Change)
    requires !Excluded(cfg, prior, item) && e in Detect(cfg, id, prior, item, pass).1
    ensures Reportable(cfg, prior, item, pass, e.field) && Tells(cfg, e, id, prior, item, pass, e.field)
  {
    hide *;
    NotExcluded(cfg, id, prior, item, pass);
    DetectedUpTo(cfg, id, prior, item, pass, |TRACKED|, e);
    var f: Field :| Position(f) < |TRACKED| && e in Report(cfg, id, prior, item, pass, f);
    ReportMeans(cfg, id, prior, item, pass, f);
    FieldTold(cfg, e, id, prior, item, pass, f);
  }

  lemma NotExcluded(cfg: Config, id: string, prior: map<Field, Value>, item: map<Field, Value>, pass: Pass)
    requires !Excluded(cfg, prior, item)
    ensures Detect(cfg, id, prior, item, pass) == DetectUpTo(cfg, id, prior, item, pass, |TRACKED|)
  {
  }

  lemma FieldTold(cfg: Config, e: Change, id: string, prior: map<Field, Value>, item: map<Field, Value>, pass: Pass,
                  f: Field)
    requires Tells(cfg, e, id, prior, item, pass, f)
    ensures e.field == f
  {
  }
}
