/**
 Comparing an observation with what the inventory holds: which fields keep their old value, which
 take the new one, and which differences are reported.
 */
module ChangeDetection {
  import opened Options
  import opened InventoryTypes
  import opened ChangeLog

  /** One ingest: the fields it answers for, whether it is partial, when it is and which run it belongs to. */
  datatype Pass = Pass(declared: set<Field>, partial: bool, at: Time, runId: Option<string>)

  /** The value a field is compared by; an empty text compares like no value. */
  function Comparable(cfg: Config, f: Field, v: Option<Value>): Option<Value>
  {
    if v.None? || v.value == Text("") then None else cfg.comparable(f, v.value)
  }

  function TextOr(v: Option<Value>, fallback: string): string
  {
    match v
    case Some(Text(s)) => if s != "" then s else fallback
    case _ => fallback
  }

  /** Exclusions look at the new host name and device type, and at the old ones where those are empty. */
  predicate Excluded(cfg: Config, prior: map<Field, Value>, item: map<Field, Value>)
  {
    var host := TextOr(Lookup(item, Hostname), TextOr(Lookup(prior, Hostname), ""));
    var newType, oldType := Lookup(item, DeviceType), Lookup(prior, DeviceType);
    var kind := if Truthy(newType) then newType else oldType;
    !cfg.detection || cfg.hostExcluded(host) || (kind.Some? && kind.value in cfg.excludedTypes)
  }

  /** A field the observation says nothing about, where silence does not mean that it is gone. */
  predicate Silent(cfg: Config, item: map<Field, Value>, pass: Pass, f: Field)
  {
    f !in item && (pass.partial || f !in pass.declared || f in cfg.enrichmentOnly)
  }

  predicate SameValue(cfg: Config, prior: map<Field, Value>, item: map<Field, Value>, f: Field)
  {
    Comparable(cfg, f, Lookup(prior, f)) == Comparable(cfg, f, Lookup(item, f))
  }

  function Assign(fields: map<Field, Value>, f: Field, v: Option<Value>): map<Field, Value>
  {
    if v.None? then fields else fields[f := v.value]
  }

  /** What one tracked field of the item becomes. */
  function Settle(cfg: Config, prior: map<Field, Value>, item: map<Field, Value>, pass: Pass,
                  f: Field): map<Field, Value>
  {
    if f in cfg.ignored then item
    else if Silent(cfg, item, pass, f) then Assign(item, f, Lookup(prior, f))
    else if SameValue(cfg, prior, item, f) then Assign(item, f, Lookup(prior, f))
    else if f in PROTECTED then Assign(item, f, Lookup(prior, f))
    else item
  }

  /** The change event of one tracked field, unless it is below the severity asked for. */
  function Report(cfg: Config, id: string, prior: map<Field, Value>, item: map<Field, Value>, pass: Pass,
                  f: Field): seq<Change>
  {
    if f in cfg.ignored || Silent(cfg, item, pass, f) || SameValue(cfg, prior, item, f) then []
    else
      var previous, current := Lookup(prior, f), Lookup(item, f);
      var (kind, severity, _) := Classify(f, previous, current);
      if SeverityRank(severity) < SeverityRank(cfg.minimum(f)) then []
      else [MakeChange(cfg, ChangeKey(id, f, previous, current, kind, pass.at, pass.runId))]
  }

  /** The first `n` tracked fields, one after the other. */
  function DetectUpTo(cfg: Config, id: string, prior: map<Field, Value>, item: map<Field, Value>,
                      pass: Pass, n: nat)
    : (r: (map<Field, Value>, seq<Change>))
    requires n <= |TRACKED|
  {
    if n == 0 then (item, [])
    else
      var (fields, events) := DetectUpTo(cfg, id, prior, item, pass, n - 1);
      var f := TRACKED[n - 1];
      (Settle(cfg, prior, fields, pass, f),
       events + Report(cfg, id, prior, fields, pass, f))
  }

  function Detect(cfg: Config, id: string, prior: map<Field, Value>, item: map<Field, Value>,
                  pass: Pass)
    : (map<Field, Value>, seq<Change>)
  {
    if Excluded(cfg, prior, item) then (item, [])
    else DetectUpTo(cfg, id, prior, item, pass, |TRACKED|)
  }

  /** Compares field by field, rewriting the item where the old value stands. */
  method DetectChanges(cfg: Config, id: string, prior: map<Field, Value>, item: map<Field, Value>,
                       pass: Pass)
    returns (fields: map<Field, Value>, events: seq<Change>)
    ensures (fields, events) == Detect(cfg, id, prior, item, pass)
  {
    hide MakeChange, Classify, Comparable;
    fields, events := item, [];
    if Excluded(cfg, prior, item) {
      return;
    }
    for i := 0 to |TRACKED|
      invariant (fields, events) == DetectUpTo(cfg, id, prior, item, pass, i)
    {
      var f := TRACKED[i];
      if f in cfg.ignored {
        assert events == events + [];
        continue;
      }
      var previous := Lookup(prior, f);
      if Silent(cfg, fields, pass, f) {
        fields := Assign(fields, f, previous);
        assert events == events + [];
        continue;
      }
      var current := Lookup(fields, f);
      if SameValue(cfg, prior, fields, f) {
        fields := Assign(fields, f, previous);
        assert events == events + [];
        continue;
      }
      var (kind, severity, _) := Classify(f, previous, current);
      if SeverityRank(severity) >= SeverityRank(cfg.minimum(f)) {
        events := events + [MakeChange(cfg, ChangeKey(id, f, previous, current, kind, pass.at, pass.runId))];
      } else {
        assert events == events + [];
      }
      if f in PROTECTED {
        fields := Assign(fields, f, previous);
      }
    }
  }

  // --- fields are settled independently -----------------------------------------------------

  lemma SettleOwnField(cfg: Config, prior: map<Field, Value>, item: map<Field, Value>, pass: Pass, f: Field, g: Field)
    requires f != g
    ensures Lookup(Settle(cfg, prior, item, pass, f), g) == Lookup(item, g)
  {
  }

  /** The order of the tracked fields, as positions. */
  function Position(f: Field): (i: nat)
    ensures i < |TRACKED| && TRACKED[i] == f
  {
    match f
    case Hostname => 0
    case DisplayName => 1
    case ManagementIp => 2
    case MacAddress => 3
    case SerialNumber => 4
    case SourceAssetId => 5
    case Vendor => 6
    case Model => 7
    case Platform => 8
    case DeviceType => 9
    case DeviceRole => 10
    case Customer => 11
    case Site => 12
    case Location => 13
    case FirmwareVersion => 14
    case Claimed => 15
    case Managed => 16
    case SourcePriority => 17
    case SourceRecordId => 18
  }

  lemma TrackedOnce(i: nat)
    requires i < |TRACKED|
    ensures Position(TRACKED[i]) == i
  {
  }

  /** In the end each field has been settled exactly once, from its own old and new values. */
  lemma {:induction false} FieldSettledOnce(cfg: Config, id: string, prior: map<Field, Value>, item: map<Field, Value>,
                                            pass: Pass,
                                            n: nat, f: Field)
    requires n <= |TRACKED|
    ensures var fields := DetectUpTo(cfg, id, prior, item, pass, n).0;
            Lookup(fields, f) == if Position(f) < n then Lookup(Settle(cfg, prior, item, pass, f), f)
                                 else Lookup(item, f)
  {
    hide Position, Report, Comparable, Excluded;
    if n > 0 {
      FieldSettledOnce(cfg, id, prior, item, pass, n - 1, f);
      var fields := DetectUpTo(cfg, id, prior, item, pass, n - 1).0;
      TrackedOnce(n - 1);
      if TRACKED[n - 1] != f {
        SettleOwnField(cfg, prior, fields, pass, TRACKED[n - 1], f);
      } else {
        SettleLocal(cfg, prior, item, fields, pass, f);
      }
    }
  }

  lemma SettleLocal(cfg: Config, prior: map<Field, Value>, a: map<Field, Value>, b: map<Field, Value>,
                    pass: Pass, f: Field)
    requires Lookup(a, f) == Lookup(b, f)
    ensures Lookup(Settle(cfg, prior, a, pass, f), f) == Lookup(Settle(cfg, prior, b, pass, f), f)
  {
    hide Comparable;
    assert f in a <==> f in b;
  }

  lemma DetectSettles(cfg: Config, id: string, prior: map<Field, Value>, item: map<Field, Value>, pass: Pass, f: Field)
    requires !Excluded(cfg, prior, item)
    ensures Lookup(Detect(cfg, id, prior, item, pass).0, f) ==
            Lookup(Settle(cfg, prior, item, pass, f), f)
  {
    FieldSettledOnce(cfg, id, prior, item, pass, |TRACKED|, f);
  }

  /** A protected identifier that is set keeps its value, whatever is observed. */
  lemma ProtectedFieldStays(cfg: Config, id: string, prior: map<Field, Value>, item: map<Field, Value>,
                            pass: Pass, f: Field)
    requires !Excluded(cfg, prior, item) && f in PROTECTED && f !in cfg.ignored && f in prior
    ensures Lookup(Detect(cfg, id, prior, item, pass).0, f) == Some(prior[f])
  {
    hide Detect, Comparable, Excluded;
    DetectSettles(cfg, id, prior, item, pass, f);
  }

  /** A partial observation removes no value. */
  lemma PartialRemovesNothing(cfg: Config, id: string, prior: map<Field, Value>, item: map<Field, Value>,
                              pass: Pass, f: Field)
    requires pass.partial && !Excluded(cfg, prior, item) && f !in cfg.ignored && f in prior
    ensures Lookup(Detect(cfg, id, prior, item, pass).0, f).Some?
  {
    hide Detect, Comparable, Excluded;
    DetectSettles(cfg, id, prior, item, pass, f);
  }

  /** A value disappears exactly when a complete observation that answers for the field leaves it out. */
  lemma FieldDropsIff(cfg: Config, id: string, prior: map<Field, Value>, item: map<Field, Value>,
                      pass: Pass, f: Field)
    requires !Excluded(cfg, prior, item) && f !in cfg.ignored && f in prior
    ensures Lookup(Detect(cfg, id, prior, item, pass).0, f).None? <==>
            && f !in item && !pass.partial && f in pass.declared && f !in cfg.enrichmentOnly && f !in PROTECTED
            && Comparable(cfg, f, Some(prior[f])).Some?
  {
    hide Detect, Excluded;
    DetectSettles(cfg, id, prior, item, pass, f);
  }

  ghost predicate IsConflict(e: Change, id: string, f: Field)
  {
    e.field == f && e.kind == "identity_conflict" && e.severity == HighSeverity && e.asset == id
  }

  lemma ConflictMade(cfg: Config, id: string, prior: map<Field, Value>, item: map<Field, Value>, pass: Pass, f: Field)
    requires f in PROTECTED && f !in cfg.ignored && f in prior && f in item && !SameValue(cfg, prior, item, f)
    ensures exists e | e in Report(cfg, id, prior, item, pass, f) :: IsConflict(e, id, f)
  {
    hide Comparable;
    var events := Report(cfg, id, prior, item, pass, f);
    assert IsConflict(events[0], id, f);
  }

  /** Trying to change a protected identifier is reported as a conflict, at a severity no threshold hides. */
  lemma {:induction false} ConflictReported(cfg: Config, id: string, prior: map<Field, Value>, item: map<Field, Value>,
                                            pass: Pass, n: nat, f: Field)
    requires n <= |TRACKED| && Position(f) < n
    requires f in PROTECTED && f !in cfg.ignored && f in prior && f in item && !SameValue(cfg, prior, item, f)
    ensures exists e | e in DetectUpTo(cfg, id, prior, item, pass, n).1 :: IsConflict(e, id, f)
  {
    hide Comparable, Position, Report, Settle, IsConflict;
    var (fields, events) := DetectUpTo(cfg, id, prior, item, pass, n - 1);
    TrackedOnce(n - 1);
    if Position(f) < n - 1 {
      ConflictReported(cfg, id, prior, item, pass, n - 1, f);
      var e :| e in events && IsConflict(e, id, f);
      assert e in DetectUpTo(cfg, id, prior, item, pass, n).1;
    } else {
      assert TRACKED[n - 1] == f;
      FieldSettledOnce(cfg, id, prior, item, pass, n - 1, f);
      ConflictMade(cfg, id, prior, fields, pass, f);
      var e :| e in Report(cfg, id, prior, fields, pass, f) && IsConflict(e, id, f);
      assert e in DetectUpTo(cfg, id, prior, item, pass, n).1;
    }
  }

  /**
   A protected identifier that is set keeps its value exactly where changes of it are detected, or the
   observation agrees anyway; without detection, for an excluded asset or for an ignored field, it
   becomes what is observed.
   */
  lemma ProtectedStaysIff(cfg: Config, id: string, prior: map<Field, Value>, item: map<Field, Value>,
                          pass: Pass, f: Field)
    requires f in PROTECTED && f in prior
    ensures var detected := !Excluded(cfg, prior, item) && f !in cfg.ignored;
            var after := Lookup(Detect(cfg, id, prior, item, pass).0, f);
            && (after == Some(prior[f]) <==> detected || Lookup(item, f) == Some(prior[f]))
            && (!detected ==> after == Lookup(item, f))
  {
    hide Comparable, Excluded;
    if !Excluded(cfg, prior, item) {
      hide Detect;
      DetectSettles(cfg, id, prior, item, pass, f);
    }
  }

  lemma ReportedAreMade(cfg: Config, id: string, prior: map<Field, Value>, item: map<Field, Value>, pass: Pass,
                        f: Field)
    ensures Made(cfg, Report(cfg, id, prior, item, pass, f))
  {
    hide MakeChange, Classify, Silent, SameValue;
    var previous, current := Lookup(prior, f), Lookup(item, f);
    var key := ChangeKey(id, f, previous, current, Classify(f, previous, current).0, pass.at, pass.runId);
    assert IsMade(cfg, MakeChange(cfg, key));
  }

  /** Every reported change carries the id of exactly what it reports. */
  lemma {:induction false} DetectedAreMade(cfg: Config, id: string, prior: map<Field, Value>, item: map<Field, Value>,
                                           pass: Pass, n: nat)
    requires n <= |TRACKED|
    ensures Made(cfg, DetectUpTo(cfg, id, prior, item, pass, n).1)
  {
    hide IsMade, Report, Settle;
    if n > 0 {
      DetectedAreMade(cfg, id, prior, item, pass, n - 1);
      ReportedAreMade(cfg, id, prior, DetectUpTo(cfg, id, prior, item, pass, n - 1).0, pass, TRACKED[n - 1]);
    }
  }

  ghost predicate AllAt(events: seq<Change>, at: Time)
  {
    forall e | e in events :: e.at == at
  }

  /** Every reported change carries the time of the observation. */
  lemma {:induction false} DetectedAt(cfg: Config, id: string, prior: map<Field, Value>, item: map<Field, Value>,
                                      pass: Pass, n: nat)
    requires n <= |TRACKED|
    ensures AllAt(DetectUpTo(cfg, id, prior, item, pass, n).1, pass.at)
  {
    hide Settle, Classify, Silent, SameValue;
    if n > 0 {
      DetectedAt(cfg, id, prior, item, pass, n - 1);
    }
  }
}
