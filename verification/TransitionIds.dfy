/** The text that is hashed into the id of a state change. */
module TransitionIds {
  import opened Options
  import opened InventoryTypes
  import opened Separators

  function StateText(s: Lifecycle): string
  {
    match s
    case Discovered => "discovered"
    case Active => "active"
    case Offline => "offline"
    case Stale => "stale"
    case Missing => "missing"
    case Retired => "retired"
  }

  function PreviousText(s: Option<Lifecycle>): string
  {
    if s.Some? then StateText(s.value) else ""
  }

  function RunText(run: Option<string>): string
  {
    if run.Some? then run.value else ""
  }

  /** The six parts, with the time as it is written. */
  function KeyText(written: Time -> string, key: TransitionKey): string
  {
    key.asset + "|" + (PreviousText(key.previous) + "|" + (StateText(key.current) + "|" +
      (key.reason + "|" + (written(key.at) + "|" + RunText(key.runId)))))
  }

  /** No asset id or reason holds the separator, and an absent run is not given as an empty id. */
  predicate Plain(key: TransitionKey)
  {
    '|' !in key.asset && '|' !in key.reason && key.runId != Some("")
  }

  lemma StatesReadApart(a: Option<Lifecycle>, b: Option<Lifecycle>)
    ensures '|' !in PreviousText(a) && (PreviousText(a) == PreviousText(b) <==> a == b)
  {
  }

  /** The texts of two state changes read alike only if they are the same. */
  lemma KeysReadApart(written: Time -> string, a: TransitionKey, b: TransitionKey)
    requires Plain(a) && Plain(b)
    requires forall t :: '|' !in written(t)
    requires forall t, u | written(t) == written(u) :: t == u
    ensures KeyText(written, a) == KeyText(written, b) <==> a == b
  {
    hide StateText, PreviousText;
    StatesReadApart(a.previous, b.previous);
    StatesReadApart(Some(a.current), Some(b.current));
    StatesReadApart(Some(b.current), Some(a.current));
    StatesReadApart(b.previous, a.previous);
    assert forall s: Lifecycle :: PreviousText(Some(s)) == StateText(s) by {
      StatesAreShown();
    }
    var a5, b5 := written(a.at) + "|" + RunText(a.runId), written(b.at) + "|" + RunText(b.runId);
    var a4, b4 := a.reason + "|" + a5, b.reason + "|" + b5;
    var a3, b3 := StateText(a.current) + "|" + a4, StateText(b.current) + "|" + b4;
    PlainReadApart(a.asset, PreviousText(a.previous) + "|" + a3, b.asset, PreviousText(b.previous) + "|" + b3);
    PlainReadApart(PreviousText(a.previous), a3, PreviousText(b.previous), b3);
    PlainReadApart(StateText(a.current), a4, StateText(b.current), b4);
    PlainReadApart(a.reason, a5, b.reason, b5);
    PlainReadApart(written(a.at), RunText(a.runId), written(b.at), RunText(b.runId));
  }

  lemma StatesAreShown()
    ensures forall s: Lifecycle :: PreviousText(Some(s)) == StateText(s)
  {
  }
}
