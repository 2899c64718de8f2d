/** The handler that adds a context's identifiers to every record, and in strict mode
    reports the required fields that are still absent. What the innermost handler
    does with a record is a parameter: how its Handle ends. */
module Injection {
  import opened Sequences
  import opened Options
  import opened Slog
  import opened Traceparent
  import opened IdentityAttributes

  /** An injecting handler, or the handler at the end of the chain of wrappers with
      the derivations applied to it. */
  datatype Handler =
    | Sink(ops: seq<Op>)
    | Inject(next: Handler, attrs: seq<Attr>, strict: bool, required: seq<string>)

  datatype Delivery = Delivery(ops: seq<Op>, record: Record)

  datatype Error = SinkError(cause: string) | HandleError(err: Error)

  /** How the sink ends a call of Handle. */
  type Outcome = Delivery -> Option<string>

  class Deliveries {
    var got: seq<Delivery>
  }

  function SlogHandler(next: Handler, strict: bool, required: seq<string>): Handler {
    Inject(next, [], strict, required)
  }

  function Derive(h: Handler, op: Op): Handler {
    match h
    case Sink(ops) => Sink(ops + [op])
    case Inject(next, attrs, strict, required) =>
      Inject(Derive(next, op), if op.WithAttrs? then attrs + op.attrs else attrs, strict, required)
  }

  function DeriveAll(h: Handler, ops: seq<Op>): Handler
    decreases ops
  {
    if ops == [] then h else DeriveAll(Derive(h, ops[0]), ops[1..])
  }

  // ---- what a record leads to ----

  function Taken(attrs: seq<Attr>, r: Record): set<string> {
    AttrKeys(attrs) + AttrKeys(r.attrs)
  }

  function Added(attrs: seq<Attr>, c: Context, r: Record): seq<Attr> {
    Missing(AttrsOf(c), Taken(attrs, r))
  }

  function Enhanced(attrs: seq<Attr>, c: Context, r: Record): Record {
    r.(attrs := r.attrs + Added(attrs, c, r))
  }

  const WARN := 4

  function Diagnostic(c: Context, field: string, source: Record, now: string): Record {
    Record(now, WARN, "WARN", "correlation.missing_field",
           [Text("missing_field", field), Text("source_msg", source.message)] + AttrsOf(c))
  }

  /** The required entries that are absent everywhere. */
  function Absent(h: Handler, c: Context, r: Record): seq<string>
    requires h.Inject?
  {
    if h.strict && c.traceID != "" then Without(h.required, Taken(h.attrs, r) + AttrKeys(AttrsOf(c))) else []
  }

  /** The deliveries at the sink for one record. */
  function Handled(h: Handler, c: Context, r: Record, now: string): seq<Delivery>
    decreases h, 1, 0
  {
    match h
    case Sink(ops) => [Delivery(ops, r)]
    case Inject(next, attrs, _, _) =>
      Reported(h, c, Absent(h, c, r), r, now) + Handled(next, c, Enhanced(attrs, c, r), now)
  }

  /** The deliveries for one diagnostic for each field. */
  function Reported(h: Handler, c: Context, fields: seq<string>, source: Record, now: string): seq<Delivery>
    requires h.Inject?
    decreases h, 0, |fields|
  {
    if fields == [] then [] else
      Reported(h, c, fields[..|fields| - 1], source, now) +
      Handled(h.next, c, Diagnostic(c, fields[|fields| - 1], source, now), now)
  }

  /** How Handle ends: as the sink ends for the record itself. */
  function Ending(h: Handler, c: Context, r: Record, outcome: Outcome): Option<Error> {
    match h
    case Sink(ops) => Ended(outcome(Delivery(ops, r)))
    case Inject(next, attrs, _, _) =>
      Wrapped(Ending(next, c, Enhanced(attrs, c, r), outcome))
  }

  function Ended(cause: Option<string>): Option<Error> {
    if cause.Some? then Some(SinkError(cause.value)) else None
  }

  function Wrapped(err: Option<Error>): Option<Error> {
    if err.Some? then Some(HandleError(err.value)) else None
  }

  // ---- the handler ----

  method AttrKeySet(attrs: seq<Attr>, r: Record) returns (keys: set<string>)
    ensures keys == Taken(attrs, r)
  {
    keys := AddKeys({}, attrs);
    keys := AddKeys(keys, r.attrs);
  }

  method AddKeys(keys: set<string>, attrs: seq<Attr>) returns (more: set<string>)
    ensures more == keys + AttrKeys(attrs)
  {
    more := keys;
    for i := 0 to |attrs|
      invariant more == keys + AttrKeys(attrs[..i])
    {
      assert attrs[..i + 1] == attrs[..i] + [attrs[i]];
      KeysAfterAppend(attrs[..i], attrs[i]);
      more := more + {attrs[i].key};
    }
    assert attrs[..|attrs|] == attrs;
  }

  method FindMissing(corrAttrs: seq<Attr>, existing: set<string>) returns (missing: seq<Attr>)
    ensures missing == Missing(corrAttrs, existing)
  {
    missing := [];
    for i := 0 to |corrAttrs|
      invariant missing == Missing(corrAttrs[..i], existing)
    {
      MissingNext(corrAttrs, i, existing);
      if corrAttrs[i].key !in existing {
        missing := missing + [corrAttrs[i]];
      }
    }
    assert corrAttrs[..|corrAttrs|] == corrAttrs;
  }

  method Handle(h: Handler, c: Context, r: Record, now: string, outcome: Outcome, log: Deliveries)
    returns (err: Option<Error>)
    modifies log
    ensures log.got == old(log.got) + Handled(h, c, r, now)
    ensures err == Ending(h, c, r, outcome)
    decreases h, 1
  {
    if h.Sink? {
      log.got := log.got + [Delivery(h.ops, r)];
      return Ended(outcome(Delivery(h.ops, r)));
    }
    var corrAttrs := Attrs(c);
    if |corrAttrs| == 0 {
      NothingToAdd(h, c, r, now);
      err := Handle(h.next, c, r, now, outcome, log);
      return Wrapped(err);
    }
    var enhanced, existing := Enhance(h.attrs, c, corrAttrs, r);
    ghost var before := log.got;
    CheckRequired(h, c, r, existing, now, outcome, log);
    err := Handle(h.next, c, enhanced, now, outcome, log);
    Regroup(before, Reported(h, c, Absent(h, c, r), r, now), Handled(h.next, c, enhanced, now));
    return Wrapped(err);
  }

  /** The record with what it lacks, and the keys it then has. */
  method Enhance(attrs: seq<Attr>, ghost c: Context, corrAttrs: seq<Attr>, r: Record)
    returns (enhanced: Record, existing: set<string>)
    requires corrAttrs == AttrsOf(c)
    ensures enhanced == Enhanced(attrs, c, r)
    ensures existing == Taken(attrs, r) + AttrKeys(AttrsOf(c))
  {
    existing := AttrKeySet(attrs, r);
    var missing := FindMissing(corrAttrs, existing);
    enhanced := r;
    MissingCompletes(corrAttrs, existing);
    if |missing| > 0 {
      enhanced := r.(attrs := r.attrs + missing);
      existing := AddKeys(existing, missing);
    } else {
      assert r.attrs + missing == r.attrs;
      assert AttrKeys(missing) == {};
    }
  }

  /** In strict mode, under a trace: one diagnostic for each entry still absent. */
  method CheckRequired(h: Handler, c: Context, r: Record, existing: set<string>, now: string, outcome: Outcome,
                       log: Deliveries)
    requires h.Inject? && existing == Taken(h.attrs, r) + AttrKeys(AttrsOf(c))
    modifies log
    ensures log.got == old(log.got) + Reported(h, c, Absent(h, c, r), r, now)
    decreases h, 0, 1
  {
    if !h.strict || c.traceID == "" {
      return;
    }
    for i := 0 to |h.required|
      invariant log.got == old(log.got) + Reported(h, c, Without(h.required[..i], existing), r, now)
    {
      ghost var before := Without(h.required[..i], existing);
      var field := h.required[i];
      assert h.required[..i + 1] == h.required[..i] + [field];
      WithoutMore(h.required[..i], field, existing);
      if field !in existing {
        ReportedMore(h, c, before, field, r, now);
        EmitMissingField(h, c, field, r, now, outcome, log);
        Regroup(old(log.got), Reported(h, c, before, r, now), Handled(h.next, c, Diagnostic(c, field, r, now), now));
      }
    }
    assert h.required[..|h.required|] == h.required;
  }

  method EmitMissingField(h: Handler, c: Context, field: string, source: Record, now: string, outcome: Outcome,
                          log: Deliveries)
    requires h.Inject?
    modifies log
    ensures log.got == old(log.got) + Handled(h.next, c, Diagnostic(c, field, source, now), now)
    decreases h, 0, 0
  {
    var diag := Record(now, WARN, "WARN", "correlation.missing_field", []);
    diag := diag.(attrs := diag.attrs + [Text("missing_field", field), Text("source_msg", source.message)]);
    var corrAttrs := Attrs(c);
    for i := 0 to |corrAttrs|
      invariant diag.attrs == [Text("missing_field", field), Text("source_msg", source.message)] + corrAttrs[..i]
      invariant diag == Record(now, WARN, "WARN", "correlation.missing_field", diag.attrs)
    {
      diag := diag.(attrs := diag.attrs + [corrAttrs[i]]);
    }
    assert corrAttrs[..|corrAttrs|] == corrAttrs;
    var _ := Handle(h.next, c, diag, now, outcome, log);
  }

  lemma NothingToAdd(h: Handler, c: Context, r: Record, now: string)
    requires h.Inject? && AttrsOf(c) == []
    ensures Enhanced(h.attrs, c, r) == r && Absent(h, c, r) == []
  {
    AttrsMeaning(c);
    assert r.attrs + [] == r.attrs;
  }

  lemma ReportedMore(h: Handler, c: Context, fields: seq<string>, field: string, source: Record, now: string)
    requires h.Inject?
    ensures Reported(h, c, fields + [field], source, now) ==
      Reported(h, c, fields, source, now) + Handled(h.next, c, Diagnostic(c, field, source, now), now)
  {
    assert (fields + [field])[..|fields|] == fields;
  }

  /** The delivery of the record itself. */
  function Final(h: Handler, c: Context, r: Record): Delivery {
    match h
    case Sink(ops) => Delivery(ops, r)
    case Inject(next, attrs, _, _) => Final(next, c, Enhanced(attrs, c, r))
  }

  lemma {:induction false} LastIsFinal(h: Handler, c: Context, r: Record, now: string)
    ensures Handled(h, c, r, now) != [] && Last(Handled(h, c, r, now)) == Final(h, c, r)
  {
    if h.Inject? {
      LastIsFinal(h.next, c, Enhanced(h.attrs, c, r), now);
      LastOfConcat(Reported(h, c, Absent(h, c, r), r, now), Handled(h.next, c, Enhanced(h.attrs, c, r), now));
    }
  }

  // ---- which attributes are added ----

  lemma {:induction false} MissingMeaning(attrs: seq<Attr>, taken: set<string>)
    ensures forall a :: a in Missing(attrs, taken) <==> a in attrs && a.key !in taken
    ensures NoRepeatedKey(attrs) ==> NoRepeatedKey(Missing(attrs, taken))
  {
    if attrs != [] {
      var front, last := attrs[..|attrs| - 1], attrs[|attrs| - 1];
      MissingMeaning(front, taken);
      assert attrs == front + [last];
      if NoRepeatedKey(attrs) {
        forall a | a in Missing(front, taken) ensures a.key != last.key {
          assert a in front;
        }
      }
    }
  }

  lemma NothingMissing(attrs: seq<Attr>, taken: set<string>)
    requires AttrKeys(attrs) <= taken
    ensures Missing(attrs, taken) == []
  {
    MissingMeaning(attrs, taken);
    forall a | a in attrs ensures a.key in taken {
      assert a.key in AttrKeys(attrs);
    }
    assert forall a :: a !in Missing(attrs, taken);
  }

  lemma MissingCompletes(attrs: seq<Attr>, taken: set<string>)
    ensures taken + AttrKeys(Missing(attrs, taken)) == taken + AttrKeys(attrs)
  {
    MissingMeaning(attrs, taken);
  }

  /** The record keeps everything it had, its own attributes first; a correlation
      attribute is added exactly when its key is on neither the handler nor the
      record, and no key is added twice. */
  lemma EnhancedMeaning(attrs: seq<Attr>, c: Context, r: Record)
    ensures var e := Enhanced(attrs, c, r);
      && e == r.(attrs := e.attrs) && r.attrs <= e.attrs
      && (forall a :: a in e.attrs[|r.attrs|..] <==> a in AttrsOf(c) && a.key !in Taken(attrs, r))
      && NoRepeatedKey(e.attrs[|r.attrs|..])
      && Taken(attrs, e) == Taken(attrs, r) + AttrKeys(AttrsOf(c))
  {
    var e, added := Enhanced(attrs, c, r), Added(attrs, c, r);
    MissingMeaning(AttrsOf(c), Taken(attrs, r));
    MissingCompletes(AttrsOf(c), Taken(attrs, r));
    NoKeyRepeats(c);
    assert e.attrs[|r.attrs|..] == added;
    KeysOfConcat(r.attrs, added);
  }

  /** The same with no notion of taken keys: what is added are the context's attributes
      whose key no attribute of the handler or the record has, in the context's order. */
  lemma AddedExactly(attrs: seq<Attr>, c: Context, r: Record, a: Attr)
    ensures var e := Enhanced(attrs, c, r);
      && r.attrs <= e.attrs && e == r.(attrs := e.attrs)
      && (a in e.attrs[|r.attrs|..] <==>
            a in AttrsOf(c) && !exists b :: (b in attrs || b in r.attrs) && b.key == a.key)
  {
    EnhancedMeaning(attrs, c, r);
    assert a.key in Taken(attrs, r) <==> exists b :: (b in attrs || b in r.attrs) && b.key == a.key;
  }

  lemma {:induction false} MissingKeepsOrder(a: seq<Attr>, b: seq<Attr>, taken: set<string>)
    ensures Missing(a + b, taken) == Missing(a, taken) + Missing(b, taken)
    decreases b
  {
    if b == [] {
      assert a + b == a;
    } else {
      var n := |b| - 1;
      MissingKeepsOrder(a, b[..n], taken);
      assert (a + b)[..|a + b| - 1] == a + b[..n];
    }
  }

  lemma KeysOfConcat(a: seq<Attr>, b: seq<Attr>)
    ensures AttrKeys(a + b) == AttrKeys(a) + AttrKeys(b)
  {
    assert forall x :: x in a + b <==> x in a || x in b;
  }

  // ---- derivation chains ----

  /** Every attribute given by the WithAttrs calls of a chain, in order. */
  function Given(ops: seq<Op>): seq<Attr> {
    if ops == [] then [] else (if ops[0].WithAttrs? then ops[0].attrs else []) + Given(ops[1..])
  }

  lemma {:induction false} DerivedHandler(h: Handler, ops: seq<Op>)
    ensures h.Inject? ==>
      DeriveAll(h, ops) == Inject(DeriveAll(h.next, ops), h.attrs + Given(ops), h.strict, h.required)
    ensures h.Sink? ==> DeriveAll(h, ops) == Sink(h.ops + ops)
    decreases ops
  {
    if ops == [] {
      if h.Inject? {
        assert h.attrs + [] == h.attrs;
      } else {
        assert h.ops + [] == h.ops;
      }
    } else {
      DerivedHandler(Derive(h, ops[0]), ops[1..]);
      if h.Inject? {
        var own := if ops[0].WithAttrs? then ops[0].attrs else [];
        assert h.attrs + [] == h.attrs;
        Regroup(h.attrs, own, Given(ops[1..]));
      } else {
        Regroup(h.ops, [ops[0]], ops[1..]);
        assert ops == [ops[0]] + ops[1..];
      }
    }
  }

  /** After any chain, a record reaches the sink behind the same chain once, after
      one diagnostic for each required entry still absent, in the order required. */
  lemma ChainDelivers(strict: bool, required: seq<string>, before: seq<Op>, ops: seq<Op>, c: Context, r: Record,
                      now: string)
    ensures var h := DeriveAll(SlogHandler(Sink(before), strict, required), ops);
      var absent := Without(required, Taken(Given(ops), r) + AttrKeys(AttrsOf(c)));
      Handled(h, c, r, now) ==
      (if strict && c.traceID != "" then ToSink(before + ops, c, absent, r, now) else []) +
      [Delivery(before + ops, Enhanced(Given(ops), c, r))]
  {
    var h := SlogHandler(Sink(before), strict, required);
    DerivedHandler(h, ops);
    DerivedHandler(h.next, ops);
    var d := DeriveAll(h, ops);
    assert [] + Given(ops) == Given(ops);
    assert d == Inject(Sink(before + ops), Given(ops), strict, required);
    ReportedToSink(d, c, Absent(d, c, r), r, now);
  }

  /** What is in each of these deliveries: a warning for the k-th absent entry that names
      it and the record's message and carries the whole context; and at last the record,
      with its time, level and message as they were. */
  lemma ChainDeliversEach(strict: bool, required: seq<string>, before: seq<Op>, ops: seq<Op>, c: Context, r: Record,
                          now: string, k: nat)
    ensures var absent := Without(required, Taken(Given(ops), r) + AttrKeys(AttrsOf(c)));
      var all := Handled(DeriveAll(SlogHandler(Sink(before), strict, required), ops), c, r, now);
      && |all| == (if strict && c.traceID != "" then |absent| else 0) + 1
      && (k < |all| ==> all[k].ops == before + ops)
      && (k < |all| - 1 ==>
            && all[k].record.stamp == now && all[k].record.level == 4 && all[k].record.levelText == "WARN"
            && all[k].record.message == "correlation.missing_field"
            && all[k].record.attrs ==
               [Attr("missing_field", Scalar(absent[k])), Attr("source_msg", Scalar(r.message))] + AttrsOf(c))
      && all[|all| - 1].record == r.(attrs := r.attrs + Missing(AttrsOf(c), Taken(Given(ops), r)))
  {
    ChainDelivers(strict, required, before, ops, c, r, now);
  }

  function ToSink(ops: seq<Op>, c: Context, fields: seq<string>, source: Record, now: string): seq<Delivery> {
    seq(|fields|, i requires 0 <= i < |fields| => Delivery(ops, Diagnostic(c, fields[i], source, now)))
  }

  lemma {:induction false} ReportedToSink(h: Handler, c: Context, fields: seq<string>, source: Record, now: string)
    requires h.Inject? && h.next.Sink?
    ensures Reported(h, c, fields, source, now) == ToSink(h.next.ops, c, fields, source, now)
  {
    if fields != [] {
      ReportedToSink(h, c, fields[..|fields| - 1], source, now);
    }
  }

  /** An entry is reported as often as it is required, unless its key is present. */
  lemma {:induction false} AbsentMeaning(required: seq<string>, present: set<string>, field: string)
    ensures multiset(Without(required, present))[field] == if field in present then 0 else multiset(required)[field]
  {
    if required != [] {
      AbsentMeaning(required[..|required| - 1], present, field);
      assert required == required[..|required| - 1] + [required[|required| - 1]];
    }
  }

  /** Entries are reported in the order required. */
  lemma {:induction false} AbsentKeepsOrder(a: seq<string>, b: seq<string>, present: set<string>)
    ensures Without(a + b, present) == Without(a, present) + Without(b, present)
    decreases b
  {
    if b == [] {
      assert a + b == a;
    } else {
      var n := |b| - 1;
      AbsentKeepsOrder(a, b[..n], present);
      assert a + b == (a + b[..n]) + [b[n]];
      WithoutMore(a + b[..n], b[n], present);
    }
  }

  // ---- wrapping twice ----

  /** A record already enhanced has nothing missing, and lacks what it lacked. */
  lemma EnhancedAgain(h: Handler, c: Context, r: Record)
    requires h.Inject?
    ensures var e := Enhanced(h.attrs, c, r); Enhanced(h.attrs, c, e) == e && Absent(h, c, e) == Absent(h, c, r)
  {
    var e := Enhanced(h.attrs, c, r);
    EnhancedMeaning(h.attrs, c, r);
    NothingMissing(AttrsOf(c), Taken(h.attrs, e));
    assert e.attrs + [] == e.attrs;
    assert Taken(h.attrs, e) + AttrKeys(AttrsOf(c)) == Taken(h.attrs, r) + AttrKeys(AttrsOf(c));
  }

  lemma {:induction false} SameReports(h: Handler, c: Context, fields: seq<string>, r: Record, e: Record, now: string)
    requires h.Inject? && r.message == e.message
    ensures Reported(h, c, fields, r, now) == Reported(h, c, fields, e, now)
    decreases |fields|
  {
    if fields != [] {
      SameReports(h, c, fields[..|fields| - 1], r, e, now);
    }
  }

  /** Two records alike but for attributes the context supplies anyway. */
  ghost predicate SameOnceEnhanced(c: Context, r: Record, e: Record) {
    && r.message == e.message
    && AttrKeys(r.attrs) + AttrKeys(AttrsOf(c)) == AttrKeys(e.attrs) + AttrKeys(AttrsOf(c))
  }

  /** The keys on an enhanced record: its own, and those of the context that the
      handler was not given. */
  lemma EnhancedKeys(attrs: seq<Attr>, c: Context, r: Record)
    ensures AttrKeys(Enhanced(attrs, c, r).attrs) ==
            AttrKeys(r.attrs) + (AttrKeys(AttrsOf(c)) - AttrKeys(attrs))
  {
    var ids, taken := AttrsOf(c), Taken(attrs, r);
    KeysOfConcat(r.attrs, Added(attrs, c, r));
    MissingKeys(ids, taken);
  }

  lemma MissingKeys(attrs: seq<Attr>, taken: set<string>)
    ensures AttrKeys(Missing(attrs, taken)) == AttrKeys(attrs) - taken
  {
    MissingMeaning(attrs, taken);
  }

  lemma EnhancingKeepsThemAlike(attrs: seq<Attr>, c: Context, r: Record, e: Record)
    requires SameOnceEnhanced(c, r, e)
    ensures SameOnceEnhanced(c, Enhanced(attrs, c, r), Enhanced(attrs, c, e))
  {
    EnhancedKeys(attrs, c, r);
    EnhancedKeys(attrs, c, e);
  }

  lemma SameAbsent(h: Handler, c: Context, r: Record, e: Record)
    requires h.Inject? && SameOnceEnhanced(c, r, e)
    ensures Absent(h, c, r) == Absent(h, c, e)
  {
    assert Taken(h.attrs, r) + AttrKeys(AttrsOf(c)) == Taken(h.attrs, e) + AttrKeys(AttrsOf(c));
  }

  /** Such records lead to equally many deliveries. */
  lemma {:induction false} SameCount(h: Handler, c: Context, r: Record, e: Record, now: string)
    requires SameOnceEnhanced(c, r, e)
    ensures |Handled(h, c, r, now)| == |Handled(h, c, e, now)| > 0
  {
    if h.Inject? {
      SameAbsent(h, c, r, e);
      SameReports(h, c, Absent(h, c, r), r, e, now);
      EnhancingKeepsThemAlike(h.attrs, c, r, e);
      SameCount(h.next, c, Enhanced(h.attrs, c, r), Enhanced(h.attrs, c, e), now);
    }
  }

  lemma SomethingIsReported(h: Handler, c: Context, fields: seq<string>, source: Record, now: string)
    requires h.Inject?
    ensures Reported(h, c, fields, source, now) == [] <==> fields == []
  {
    if fields != [] {
      var diag := Diagnostic(c, fields[|fields| - 1], source, now);
      SameCount(h.next, c, diag, diag, now);
    }
  }

  /** Every injecting handler of a stack was given the key. */
  predicate Carries(h: Handler, key: string) {
    h.Inject? ==> key in AttrKeys(h.attrs) && Carries(h.next, key)
  }

  /** A key that all were given is on the delivered record only if it was on the
      record before. */
  lemma {:induction false} NeverAdded(h: Handler, c: Context, r: Record, key: string)
    requires Carries(h, key)
    ensures key in AttrKeys(Final(h, c, r).record.attrs) <==> key in AttrKeys(r.attrs)
  {
    if h.Inject? {
      NeverAdded(h.next, c, Enhanced(h.attrs, c, r), key);
      EnhancedKeys(h.attrs, c, r);
    }
  }

  /** Whether the identifiers that `pre` would hold back are held back anyway. */
  ghost predicate NothingHeldBack(pre: seq<Attr>, given: seq<Attr>, c: Context, r: Record) {
    AttrKeys(AttrsOf(c)) * AttrKeys(pre) <= Taken(given, r)
  }

  /** Then the inner wrapper adds exactly what the outer one adds. */
  lemma SameAdded(pre: seq<Attr>, given: seq<Attr>, c: Context, r: Record)
    requires NothingHeldBack(pre, given, c, r)
    ensures Added(pre + given, c, r) == Added(given, c, r)
  {
    KeysOfConcat(pre, given);
    forall a | a in AttrsOf(c) ensures a.key in Taken(pre + given, r) <==> a.key in Taken(given, r) {
      assert a.key in AttrKeys(AttrsOf(c));
    }
    MissingDepends(AttrsOf(c), Taken(pre + given, r), Taken(given, r));
  }

  lemma {:induction false} MissingDepends(attrs: seq<Attr>, taken: set<string>, other: set<string>)
    requires forall a | a in attrs :: a.key in taken <==> a.key in other
    ensures Missing(attrs, taken) == Missing(attrs, other)
  {
    if attrs != [] {
      MissingDepends(attrs[..|attrs| - 1], taken, other);
      assert attrs[|attrs| - 1] in attrs;
    }
  }

  lemma UnnoticedIfNothingHeldBack(outer: Handler, pre: seq<Attr>, c: Context, r: Record, now: string)
    requires outer.Inject? && outer.next.Inject? && outer.next.attrs == pre + outer.attrs
    requires NothingHeldBack(pre, outer.attrs, c, r)
    ensures Handled(outer.next, c, Enhanced(outer.attrs, c, r), now) == Handled(outer.next, c, r, now)
  {
    var inner, e := outer.next, Enhanced(outer.attrs, c, r);
    SameAdded(pre, outer.attrs, c, r);
    EnhancedAgain(inner, c, r);
    SameReports(inner, c, Absent(inner, c, r), r, e, now);
  }

  lemma NoticedIfHeldBack(outer: Handler, pre: seq<Attr>, c: Context, r: Record, now: string, key: string)
    requires outer.Inject? && outer.next.Inject? && outer.next.attrs == pre + outer.attrs
    requires key in AttrKeys(AttrsOf(c)) * AttrKeys(pre) && key !in Taken(outer.attrs, r)
    requires Carries(outer.next.next, key)
    ensures Handled(outer.next, c, Enhanced(outer.attrs, c, r), now) != Handled(outer.next, c, r, now)
  {
    var inner, e := outer.next, Enhanced(outer.attrs, c, r);
    KeysOfConcat(pre, outer.attrs);
    NeverAdded(inner, c, r, key);
    NeverAdded(inner, c, e, key);
    EnhancedKeys(outer.attrs, c, r);
    LastIsFinal(inner, c, r, now);
    LastIsFinal(inner, c, e, now);
  }

  /** A wrapper around one that was given `pre` beforehand changes what is delivered
      unless it has no diagnostics of its own and `pre` holds back no identifier. */
  lemma WrappedTwice(outer: Handler, pre: seq<Attr>, c: Context, r: Record, now: string)
    requires outer.Inject? && outer.next.Inject? && outer.next.attrs == pre + outer.attrs
    requires forall key | key in AttrKeys(pre) :: Carries(outer.next.next, key)
    ensures Handled(outer, c, r, now) == Handled(outer.next, c, r, now) <==>
            Absent(outer, c, r) == [] && NothingHeldBack(pre, outer.attrs, c, r)
  {
    var e, own := Enhanced(outer.attrs, c, r), Reported(outer, c, Absent(outer, c, r), r, now);
    SomethingIsReported(outer, c, Absent(outer, c, r), r, now);
    EnhancedKeys(outer.attrs, c, r);
    SameCount(outer.next, c, r, e, now);
    if NothingHeldBack(pre, outer.attrs, c, r) {
      UnnoticedIfNothingHeldBack(outer, pre, c, r, now);
    } else {
      var key :| key in AttrKeys(AttrsOf(c)) * AttrKeys(pre) && key !in Taken(outer.attrs, r);
      NoticedIfHeldBack(outer, pre, c, r, now, key);
    }
    LongerDiffers(own, Handled(outer.next, c, e, now), Handled(outer.next, c, r, now));
  }

  lemma LongerDiffers(own: seq<Delivery>, a: seq<Delivery>, b: seq<Delivery>)
    requires |a| == |b|
    ensures own + a == b <==> own == [] && a == b
  {
    if own == [] {
      assert own + a == a;
    }
  }

  lemma {:induction false} ChainIsCarried(h: Handler, ops: seq<Op>, key: string)
    requires key in AttrKeys(Given(ops)) || Carries(h, key)
    ensures Carries(DeriveAll(h, ops), key)
    decreases h
  {
    DerivedHandler(h, ops);
    if h.Inject? {
      KeysOfConcat(h.attrs, Given(ops));
      ChainIsCarried(h.next, ops, key);
    }
  }

  lemma DerivedFresh(next: Handler, strict: bool, required: seq<string>, ops: seq<Op>)
    ensures DeriveAll(SlogHandler(next, strict, required), ops) ==
            Inject(DeriveAll(next, ops), Given(ops), strict, required)
  {
    DerivedHandler(SlogHandler(next, strict, required), ops);
    assert [] + Given(ops) == Given(ops);
  }

  /** What two wrappers are after `pre` between them and `ops` on both. */
  lemma DerivedTwice(next: Handler, strict: bool, required: seq<string>, pre: seq<Op>, again: bool,
                     requiredAgain: seq<string>, ops: seq<Op>)
    ensures var once := DeriveAll(SlogHandler(next, strict, required), pre);
      var d := DeriveAll(SlogHandler(once, again, requiredAgain), ops);
      && d == Inject(DeriveAll(once, ops), Given(ops), again, requiredAgain)
      && d.next == Inject(DeriveAll(DeriveAll(next, pre), ops), Given(pre) + Given(ops), strict, required)
  {
    var once := DeriveAll(SlogHandler(next, strict, required), pre);
    DerivedFresh(next, strict, required, pre);
    DerivedFresh(once, again, requiredAgain, ops);
    DerivedHandler(once, ops);
  }

  /** The exact law of wrapping twice. A wrapper, derived by `pre`, is wrapped again,
      and both are then derived by `ops`: the deliveries are those without the
      second wrapper exactly if that has nothing to report, and every identifier
      whose key `pre` used is also on the record or among the later attributes. */
  lemma WrappingTwice(next: Handler, strict: bool, required: seq<string>, pre: seq<Op>, again: bool,
                      requiredAgain: seq<string>, ops: seq<Op>, c: Context, r: Record, now: string)
    ensures var once := DeriveAll(SlogHandler(next, strict, required), pre);
      var twice := SlogHandler(once, again, requiredAgain);
      Handled(DeriveAll(twice, ops), c, r, now) == Handled(DeriveAll(once, ops), c, r, now) <==>
      && (again && c.traceID != "" ==>
            Without(requiredAgain, Taken(Given(ops), r) + AttrKeys(AttrsOf(c))) == [])
      && AttrKeys(AttrsOf(c)) * AttrKeys(Given(pre)) <= Taken(Given(ops), r)
  {
    var once := DeriveAll(SlogHandler(next, strict, required), pre);
    var d := DeriveAll(SlogHandler(once, again, requiredAgain), ops);
    DerivedTwice(next, strict, required, pre, again, requiredAgain, ops);
    forall key | key in AttrKeys(Given(pre)) ensures Carries(d.next.next, key) {
      ChainIsCarried(next, pre, key);
      ChainIsCarried(DeriveAll(next, pre), ops, key);
    }
    WrappedTwice(d, Given(pre), c, r, now);
  }

  /** Put around a wrapper that was not derived yet, a wrapper that is not strict is
      never noticed, whatever is derived afterwards. */
  lemma WrappingAtOnceIsUnnoticed(next: Handler, strict: bool, required: seq<string>, requiredAgain: seq<string>,
                                  ops: seq<Op>, c: Context, r: Record, now: string)
    ensures var once := SlogHandler(next, strict, required);
      var twice := SlogHandler(once, false, requiredAgain);
      Handled(DeriveAll(twice, ops), c, r, now) == Handled(DeriveAll(once, ops), c, r, now)
  {
    WrappingTwice(next, strict, required, [], false, requiredAgain, ops, c, r, now);
    assert AttrKeys(Given([])) == {};
  }

  /** A derived wrapper is wrapped again, neither of them strict: the trace id that the
      inner one holds back for the handler's own attribute is added by the outer. */
  lemma SecondWrapperShows(r: Record, now: string)
    requires r.attrs == []
    ensures var c := Context("t", "", "", "", []);
      var once := DeriveAll(SlogHandler(Sink([]), false, []), [WithAttrs([Text("trace_id", "x")])]);
      Handled(SlogHandler(once, false, []), c, r, now) != Handled(once, c, r, now)
  {
    var c, pre := Context("t", "", "", "", []), [WithAttrs([Text("trace_id", "x")])];
    WrappingTwice(Sink([]), false, [], pre, false, [], [], c, r, now);
    assert AttrsOf(c) == Core(c) == [Text("trace_id", "t")];
    assert AttrsOf(c)[0].key in AttrKeys(AttrsOf(c));
    assert Given(pre) == [Text("trace_id", "x")] + Given(pre[1..]);
    assert Given(pre)[0].key in AttrKeys(Given(pre));
    assert "trace_id" in AttrKeys(AttrsOf(c)) * AttrKeys(Given(pre));
    assert Taken(Given([]), r) == {};
  }

  // ---- errors and rendering ----

  function Cause(e: Error): string {
    match e
    case SinkError(cause) => cause
    case HandleError(err) => Cause(err)
  }

  /** Handle fails exactly when the last delivery, the record itself, fails, and then
      for its reason: a diagnostic that fails goes unnoticed. */
  lemma FailsWithTheRecord(h: Handler, c: Context, r: Record, now: string, outcome: Outcome)
    ensures Handled(h, c, r, now) != []
    ensures CauseOf(Ending(h, c, r, outcome)) == outcome(Last(Handled(h, c, r, now)))
  {
    LastIsFinal(h, c, r, now);
    EndsAsFinal(h, c, r, outcome);
  }

  function CauseOf(err: Option<Error>): Option<string> {
    if err.Some? then Some(Cause(err.value)) else None
  }

  lemma {:induction false} EndsAsFinal(h: Handler, c: Context, r: Record, outcome: Outcome)
    ensures CauseOf(Ending(h, c, r, outcome)) == outcome(Final(h, c, r))
  {
    if h.Inject? {
      EndsAsFinal(h.next, c, Enhanced(h.attrs, c, r), outcome);
    }
  }

  /** The groups open after a chain. */
  function Open(path: seq<string>, ops: seq<Op>): seq<string>
    decreases ops
  {
    if ops == [] then path
    else if ops[0].WithGroup? && ops[0].name != "" then Open(path + [ops[0].name], ops[1..])
    else Open(path, ops[1..])
  }

  /** What the sink renders is what it would have rendered without the wrapper, then
      the added identifiers, under whatever groups are open. */
  lemma {:induction false} IdentifiersAreRenderedLast(path: seq<string>, ops: seq<Op>, attrs: seq<Attr>, c: Context,
                                                      r: Record)
    ensures Meaning(path, ops, Enhanced(attrs, c, r).attrs) ==
      Meaning(path, ops, r.attrs) + AllLeaves(Open(path, ops), Added(attrs, c, r))
    decreases ops
  {
    if ops == [] {
      AllLeavesConcat(path, r.attrs, Added(attrs, c, r));
    } else if ops[0].WithAttrs? {
      IdentifiersAreRenderedLast(path, ops[1..], attrs, c, r);
    } else {
      IdentifiersAreRenderedLast(if ops[0].name == "" then path else path + [ops[0].name], ops[1..], attrs, c, r);
    }
  }
}
