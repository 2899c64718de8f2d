/** Carrying a correlation context across processes, by HTTP headers or by gRPC
    metadata, and what whole chains of spans and hops preserve. Fresh random ids
    are inputs. */
module Carriers {
  import opened Options
  import opened Strings
  import opened Traceparent

  datatype Key = RequestId | TraceId | SpanId | ParentSpanId | TraceParent

  /** The ids that one received call draws, in the order it draws them. */
  datatype Fresh = Fresh(trace: string, span: string, afterTraceparent: string, afterSpan: string) {
    predicate Valid() {
      ValidTraceID(trace) && ValidSpanID(span) && ValidSpanID(afterTraceparent) && ValidSpanID(afterSpan)
    }
  }

  /** http.Header and metadata.MD, reduced to the keys in use. */
  class Carrier {
    var m: map<Key, string>

    constructor ()
      ensures m == map[]
    {
      m := map[];
    }

    method Set(key: Key, value: string)
      modifies this
      ensures m == old(m)[key := value]
    {
      m := m[key := value];
    }
  }

  function Get(m: map<Key, string>, key: Key): string {
    if key in m then m[key] else ""
  }

  /** The value a context holds for a key. */
  function Field(c: Context, key: Key): string {
    match key
    case RequestId => c.requestID
    case TraceId => c.traceID
    case SpanId => c.spanID
    case ParentSpanId => c.parentSpanID
    case TraceParent => Print(c)
  }

  /** The five values a context sends, the traceparent only if its ids are valid. */
  lemma FieldsAre(c: Context)
    ensures Field(c, RequestId) == c.requestID && Field(c, TraceId) == c.traceID
    ensures Field(c, SpanId) == c.spanID && Field(c, ParentSpanId) == c.parentSpanID
    ensures Field(c, TraceParent) ==
      if ValidTraceID(c.traceID) && ValidSpanID(c.spanID) then "00-" + c.traceID + "-" + c.spanID + "-01" else ""
  {
  }

  /** `m'` is `m` with `value` stored under `key`, unless it is empty. */
  ghost predicate Stored(m: map<Key, string>, key: Key, value: string, m': map<Key, string>) {
    && Get(m', key) == (if value != "" then value else Get(m, key))
    && forall other | other != key :: Get(m', other) == Get(m, other)
  }

  /** The five identifiers stored one after the other. */
  lemma StoredAll(m0: map<Key, string>, m1: map<Key, string>, m2: map<Key, string>,
                  m3: map<Key, string>, m4: map<Key, string>, m5: map<Key, string>, v: Key -> string)
    requires Stored(m0, RequestId, v(RequestId), m1) && Stored(m1, TraceId, v(TraceId), m2)
    requires Stored(m2, SpanId, v(SpanId), m3) && Stored(m3, ParentSpanId, v(ParentSpanId), m4)
    requires Stored(m4, TraceParent, v(TraceParent), m5)
    ensures forall key :: Get(m5, key) == if v(key) != "" then v(key) else Get(m0, key)
  {
    forall key ensures Get(m5, key) == if v(key) != "" then v(key) else Get(m0, key) {
      match key
      case RequestId =>
      case TraceId =>
      case SpanId =>
      case ParentSpanId =>
      case TraceParent =>
    }
  }

  method SetPresent(header: Carrier, key: Key, value: string)
    modifies header
    ensures Stored(old(header.m), key, value, header.m)
  {
    if value != "" {
      header.Set(key, value);
    }
  }

  /** Empty fields are skipped; what the header already held under other keys stays. */
  method SetHTTPHeaders(c: Context, header: Carrier?)
    modifies header
    ensures header != null ==> forall key ::
      Get(header.m, key) == if Field(c, key) != "" then Field(c, key) else Get(old(header.m), key)
  {
    if header == null {
      return;
    }
    ghost var m0 := header.m;
    SetPresent(header, RequestId, c.requestID);
    ghost var m1 := header.m;
    SetPresent(header, TraceId, c.traceID);
    ghost var m2 := header.m;
    SetPresent(header, SpanId, c.spanID);
    ghost var m3 := header.m;
    SetPresent(header, ParentSpanId, c.parentSpanID);
    ghost var m4 := header.m;
    SetPresent(header, TraceParent, Print(c));
    StoredAll(m0, m1, m2, m3, m4, header.m, key => Field(c, key));
  }

  method SetMetadata(md: Carrier, key: Key, value: string)
    modifies md
    ensures Stored(old(md.m), key, TrimSpace(value), md.m)
  {
    var trimmed := TrimSpace(value);
    if trimmed == "" {
      return;
    }
    md.Set(key, trimmed);
  }

  /** Metadata holds the trimmed fields and nothing for blank ones. */
  method Metadata(c: Context) returns (md: Carrier)
    ensures fresh(md)
    ensures forall key :: Get(md.m, key) == TrimSpace(Field(c, key))
  {
    md := new Carrier();
    ghost var m0 := md.m;
    SetMetadata(md, RequestId, c.requestID);
    ghost var m1 := md.m;
    SetMetadata(md, TraceId, c.traceID);
    ghost var m2 := md.m;
    SetMetadata(md, SpanId, c.spanID);
    ghost var m3 := md.m;
    SetMetadata(md, ParentSpanId, c.parentSpanID);
    ghost var m4 := md.m;
    var traceparent := Print(c);
    if traceparent != "" {
      SetMetadata(md, TraceParent, traceparent);
    }
    StoredAll(m0, m1, m2, m3, m4, md.m, key => TrimSpace(Field(c, key)));
  }

  /** What a receiver makes of a carrier, by precedence: an explicit valid header,
      then the traceparent, then a fresh id; an inbound span becomes the parent
      unless an explicit parent is given, and the receiver's own span is fresh. */
  function Received(m: map<Key, string>, requestID: string, ids: Fresh): Context {
    var parsed := Parse(Get(m, TraceParent));
    var traceID, spanID := TrimSpace(Get(m, TraceId)), TrimSpace(Get(m, SpanId));
    var parent := TrimSpace(Get(m, ParentSpanId));
    Context(
      if ValidTraceID(traceID) then traceID else if parsed.Some? then parsed.value.0 else ids.trace,
      if ValidSpanID(spanID) then ids.afterSpan else if parsed.Some? then ids.afterTraceparent else ids.span,
      if ValidSpanID(parent) then parent
      else if ValidSpanID(spanID) then spanID
      else if parsed.Some? then parsed.value.1 else "",
      if TrimSpace(Get(m, RequestId)) != "" then TrimSpace(Get(m, RequestId)) else TrimSpace(requestID),
      [])
  }

  /** A request that carries only a traceparent continues its trace, with the sender's
      span as parent and a span of its own; an explicit valid parent takes precedence. */
  lemma TraceparentAlone(m: map<Key, string>, requestID: string, ids: Fresh, t: string, s: string, flags: string)
    requires TrimSpace(Get(m, TraceParent)) == "00" + "-" + (t + "-" + (s + "-" + flags))
    requires ValidTraceID(t) && ValidSpanID(s) && '-' !in flags
    requires !ValidTraceID(TrimSpace(Get(m, TraceId))) && !ValidSpanID(TrimSpace(Get(m, SpanId)))
    ensures var r := Received(m, requestID, ids);
      && r.traceID == t && r.spanID == ids.afterTraceparent
      && r.parentSpanID == if ValidSpanID(TrimSpace(Get(m, ParentSpanId))) then TrimSpace(Get(m, ParentSpanId)) else s
  {
    assert Matches(Get(m, TraceParent), t, s, flags);
    ParseAcceptsExactly(Get(m, TraceParent));
  }

  /** Explicit valid ids win over the traceparent, each for its own field. */
  lemma ExplicitIdsWin(m: map<Key, string>, requestID: string, ids: Fresh)
    ensures var r := Received(m, requestID, ids);
      && (ValidTraceID(TrimSpace(Get(m, TraceId))) ==> r.traceID == TrimSpace(Get(m, TraceId)))
      && (ValidSpanID(TrimSpace(Get(m, SpanId))) ==>
            && r.spanID == ids.afterSpan
            && (!ValidSpanID(TrimSpace(Get(m, ParentSpanId))) ==> r.parentSpanID == TrimSpace(Get(m, SpanId))))
      && (ValidSpanID(TrimSpace(Get(m, ParentSpanId))) ==> r.parentSpanID == TrimSpace(Get(m, ParentSpanId)))
  {
  }

  /** What is neither explicit nor in a traceparent is fresh, and the parent empty. */
  lemma NothingReceived(m: map<Key, string>, requestID: string, ids: Fresh)
    requires Parse(Get(m, TraceParent)).None?
    ensures var r := Received(m, requestID, ids);
      && (!ValidTraceID(TrimSpace(Get(m, TraceId))) ==> r.traceID == ids.trace)
      && (!ValidSpanID(TrimSpace(Get(m, SpanId))) ==> r.spanID == ids.span)
      && (!ValidSpanID(TrimSpace(Get(m, SpanId))) && !ValidSpanID(TrimSpace(Get(m, ParentSpanId))) ==>
            r.parentSpanID == "")
  {
  }

  /** The request id is the carried one unless that is blank, and then the caller's;
      trimmed either way. Nothing else is carried. */
  lemma RequestIdRule(m: map<Key, string>, requestID: string, ids: Fresh)
    ensures var r := Received(m, requestID, ids);
      && (TrimSpace(Get(m, RequestId)) != "" ==> r.requestID == TrimSpace(Get(m, RequestId)))
      && (TrimSpace(Get(m, RequestId)) == "" ==> r.requestID == TrimSpace(requestID))
      && r.identity == []
  {
  }

  method FromHTTPHeader(header: Carrier, requestID: string, ids: Fresh) returns (corr: Context)
    ensures corr == Received(header.m, requestID, ids)
  {
    corr := Context(ids.trace, ids.span, "", TrimSpace(requestID), []);
    var id := TrimSpace(Get(header.m, RequestId));
    if id != "" {
      corr := corr.(requestID := id);
    }
    var parsed := Parse(Get(header.m, TraceParent));
    if parsed.Some? {
      corr := corr.(traceID := parsed.value.0);
      corr := corr.(parentSpanID := parsed.value.1);
      corr := corr.(spanID := ids.afterTraceparent);
    }
    var traceID := TrimSpace(Get(header.m, TraceId));
    if ValidTraceID(traceID) {
      corr := corr.(traceID := traceID);
    }
    var spanID := TrimSpace(Get(header.m, SpanId));
    if ValidSpanID(spanID) {
      corr := corr.(parentSpanID := spanID);
      corr := corr.(spanID := ids.afterSpan);
    }
    var parent := TrimSpace(Get(header.m, ParentSpanId));
    if ValidSpanID(parent) {
      corr := corr.(parentSpanID := parent);
    }
  }

  method FromMetadata(md: Carrier, ids: Fresh) returns (corr: Context)
    ensures corr == Received(md.m, "", ids)
  {
    TrimSpaceTrims(Get(md.m, RequestId));
    ParseIgnoresSpace(Get(md.m, TraceParent));
    corr := Context(ids.trace, ids.span, "", TrimSpace(TrimSpace(Get(md.m, RequestId))), []);
    var parsed := Parse(TrimSpace(Get(md.m, TraceParent)));
    if parsed.Some? {
      corr := corr.(traceID := parsed.value.0);
      corr := corr.(parentSpanID := parsed.value.1);
      corr := corr.(spanID := ids.afterTraceparent);
    }
    var traceID := TrimSpace(Get(md.m, TraceId));
    if ValidTraceID(traceID) {
      corr := corr.(traceID := traceID);
    }
    var spanID := TrimSpace(Get(md.m, SpanId));
    if ValidSpanID(spanID) {
      corr := corr.(parentSpanID := spanID);
      corr := corr.(spanID := ids.afterSpan);
    }
    var parent := TrimSpace(Get(md.m, ParentSpanId));
    if ValidSpanID(parent) {
      corr := corr.(parentSpanID := parent);
    }
  }

  lemma ParseIgnoresSpace(raw: string)
    ensures Parse(TrimSpace(raw)) == Parse(raw)
  {
    TrimSpaceTrims(raw);
  }

  // ---- round trips ----

  /** What SetHTTPHeaders leaves in an empty header. */
  ghost predicate SentByHTTP(c: Context, m: map<Key, string>) {
    forall key :: Get(m, key) == Field(c, key)
  }

  /** What Metadata builds. */
  ghost predicate SentByGRPC(c: Context, m: map<Key, string>) {
    forall key :: Get(m, key) == TrimSpace(Field(c, key))
  }

  /** One round trip through real carriers, both ways, with the same fresh ids. */
  method RoundTrips(c: Context, requestID: string, ids: Fresh) returns (http: Context, grpc: Context)
    ensures grpc == http.(requestID := grpc.requestID)
    ensures http == grpc <==> TrimSpace(c.requestID) != "" || TrimSpace(requestID) == ""
  {
    var header := new Carrier();
    SetHTTPHeaders(c, header);
    http := FromHTTPHeader(header, requestID, ids);
    var md := Metadata(c);
    grpc := FromMetadata(md, ids);
    CarriersAgree(c, header.m, md.m, requestID, ids);
  }

  /** The two carriers give the same context for every sender, valid or not, except
      that HTTP may fill a blank request id from its caller's fallback. */
  lemma CarriersAgree(c: Context, header: map<Key, string>, md: map<Key, string>, requestID: string, ids: Fresh)
    requires SentByHTTP(c, header) && SentByGRPC(c, md)
    ensures var http, grpc := Received(header, requestID, ids), Received(md, "", ids);
      && grpc == http.(requestID := grpc.requestID)
      && (http == grpc <==> TrimSpace(c.requestID) != "" || TrimSpace(requestID) == "")
  {
    forall key ensures TrimSpace(Get(header, key)) == TrimSpace(Get(md, key)) {
      TrimSpaceTrims(Field(c, key));
    }
    ParseIgnoresSpace(Get(header, TraceParent));
    assert TrimSpace("") == "";
  }

  /** A valid sender's trace survives a hop, the receiver is valid with a fresh
      span, and its parent is the sender's parent if that is valid, else the
      sender's span. */
  lemma HopFromValid(c: Context, m: map<Key, string>, requestID: string, ids: Fresh)
    requires c.Valid() && ids.Valid() && (SentByHTTP(c, m) || SentByGRPC(c, m))
    ensures var r := Received(m, requestID, ids);
      && r.Valid() && r.traceID == c.traceID && r.spanID == ids.afterSpan
      && r.parentSpanID == (if ValidSpanID(TrimSpace(c.parentSpanID)) then TrimSpace(c.parentSpanID) else c.spanID)
      && r.requestID == (if TrimSpace(c.requestID) != "" then TrimSpace(c.requestID) else TrimSpace(requestID))
  {
    HexIsTrimmed(c.traceID, 32);
    HexIsTrimmed(c.spanID, 16);
    TrimSpaceTrims(c.traceID);
    TrimSpaceTrims(c.spanID);
    TrimSpaceTrims(c.parentSpanID);
    TrimSpaceTrims(c.requestID);
    assert TrimSpace(Get(m, TraceId)) == c.traceID && TrimSpace(Get(m, SpanId)) == c.spanID;
    assert TrimSpace(Get(m, ParentSpanId)) == TrimSpace(c.parentSpanID);
    assert TrimSpace(Get(m, RequestId)) == TrimSpace(c.requestID);
  }

  lemma HexIsTrimmed(value: string, length: nat)
    requires IsHex(value, length)
    ensures Trimmed(value)
  {
    if value != "" {
      assert IsHexDigit(value[0]) && IsHexDigit(value[|value| - 1]);
    }
  }

  // ---- chains ----

  function Child(c: Context, trace: string, span: string): Context {
    c.(traceID := if c.traceID == "" then trace else c.traceID,
       parentSpanID := if c.spanID != "" then c.spanID else c.parentSpanID,
       spanID := span)
  }

  function Ensure(c: Context, requestID: string, trace: string, span: string): Context {
    var corr := if c.traceID == "" then Context(trace, span, "", TrimSpace(requestID), []) else c;
    if corr.requestID == "" then corr.(requestID := TrimSpace(requestID)) else corr
  }

  /** From any context at all: a child is valid exactly if there was no trace yet or
      a well-formed one, its parent is the span it came from, and everything the
      application attached stays. */
  lemma ChildOfAny(c: Context, trace: string, span: string)
    requires ValidTraceID(trace) && ValidSpanID(span)
    ensures var d := Child(c, trace, span);
      && (d.Valid() <==> c.traceID == "" || ValidTraceID(c.traceID))
      && d.traceID == (if c.traceID == "" then trace else c.traceID) && d.spanID == span
      && d.parentSpanID == (if c.spanID != "" then c.spanID else c.parentSpanID)
      && d.requestID == c.requestID && d.identity == c.identity
  {
  }

  /** Ensure always yields a trace and changes an existing context at most by filling
      an empty request id; it returns it unchanged exactly if there is nothing to
      fill or nothing to fill it with. Repeated calls then follow the same rule. */
  lemma EnsureSettles(c: Context, requestID: string, trace: string, span: string,
                      again: string, trace': string, span': string)
    requires ValidTraceID(trace) && ValidSpanID(span)
    ensures var e := Ensure(c, requestID, trace, span);
      && e.traceID != ""
      && (c.traceID == "" ==> e.Valid() && e == Context(trace, span, "", TrimSpace(requestID), []))
      && (c.traceID != "" && c.requestID == "" ==> e.requestID == TrimSpace(requestID))
      && (c.traceID != "" ==>
            && e == c.(requestID := e.requestID)
            && (e == c <==> c.requestID != "" || TrimSpace(requestID) == ""))
      && (Ensure(e, again, trace', span') == e <==> e.requestID != "" || TrimSpace(again) == "")
  {
  }

  datatype Move =
    | Spawn(trace: string, span: string)
    | EnsureContext(requestID: string, trace: string, span: string)
    | HopHTTP(requestID: string, ids: Fresh)
    | HopGRPC(ids: Fresh)

  predicate FreshMove(m: Move) {
    match m
    case Spawn(trace, span) => ValidTraceID(trace) && ValidSpanID(span)
    case EnsureContext(_, trace, span) => ValidTraceID(trace) && ValidSpanID(span)
    case HopHTTP(_, ids) => ids.Valid()
    case HopGRPC(ids) => ids.Valid()
  }

  function Headers(c: Context): map<Key, string> {
    map key: Key | key in {RequestId, TraceId, SpanId, ParentSpanId, TraceParent} && Field(c, key) != ""
      :: Field(c, key)
  }

  function TrimmedHeaders(c: Context): map<Key, string> {
    map key: Key | key in {RequestId, TraceId, SpanId, ParentSpanId, TraceParent} && TrimSpace(Field(c, key)) != ""
      :: TrimSpace(Field(c, key))
  }

  function Apply(c: Context, m: Move): Context {
    match m
    case Spawn(trace, span) => Child(c, trace, span)
    case EnsureContext(requestID, trace, span) => Ensure(c, requestID, trace, span)
    case HopHTTP(requestID, ids) => Received(Headers(c), requestID, ids)
    case HopGRPC(ids) => Received(TrimmedHeaders(c), "", ids)
  }

  function ApplyAll(c: Context, moves: seq<Move>): Context {
    if moves == [] then c else Apply(ApplyAll(c, moves[..|moves| - 1]), moves[|moves| - 1])
  }

  lemma HeadersAreSent(c: Context)
    ensures SentByHTTP(c, Headers(c)) && SentByGRPC(c, TrimmedHeaders(c))
  {
    forall key: Key ensures Get(Headers(c), key) == Field(c, key) {
      assert key.RequestId? || key.TraceId? || key.SpanId? || key.ParentSpanId? || key.TraceParent?;
    }
    forall key: Key ensures Get(TrimmedHeaders(c), key) == TrimSpace(Field(c, key)) {
      assert key.RequestId? || key.TraceId? || key.SpanId? || key.ParentSpanId? || key.TraceParent?;
    }
  }

  /** The parent that a hop reports: the sender's parent if it is well-formed once
      trimmed, else the sender's span. */
  function Inherited(c: Context): string {
    if ValidSpanID(TrimSpace(c.parentSpanID)) then TrimSpace(c.parentSpanID) else c.spanID
  }

  predicate IsHop(m: Move) {
    m.HopHTTP? || m.HopGRPC?
  }

  lemma HopKeepsTrace(c: Context, m: Move)
    requires c.Valid() && FreshMove(m) && IsHop(m)
    ensures var d := Apply(c, m);
      && d.Valid() && d.traceID == c.traceID && d.spanID == m.ids.afterSpan
      && d.parentSpanID == Inherited(c)
  {
    HeadersAreSent(c);
    HopFromValid(c, if m.HopHTTP? then Headers(c) else TrimmedHeaders(c),
                 if m.HopHTTP? then m.requestID else "", m.ids);
  }

  /** What each move keeps and sets, from any valid context: the parent span is not
      part of validity and may hold anything. */
  lemma MoveKeepsTrace(c: Context, m: Move)
    requires c.Valid() && FreshMove(m)
    ensures var d := Apply(c, m);
      && d.Valid() && d.traceID == c.traceID
      && (m.Spawn? ==> d.parentSpanID == c.spanID)
      && (m.EnsureContext? ==> d.parentSpanID == c.parentSpanID && d.spanID == c.spanID)
      && (IsHop(m) ==> d.parentSpanID == Inherited(c))
  {
    if IsHop(m) {
      HopKeepsTrace(c, m);
    }
  }

  /** Over any chain of child spans, Ensure calls and hops from a valid context the
      trace never changes and every context is valid. */
  lemma {:induction false} TraceIsPreserved(c: Context, moves: seq<Move>)
    requires c.Valid() && forall k | 0 <= k < |moves| :: FreshMove(moves[k])
    ensures var d := ApplyAll(c, moves); d.Valid() && d.traceID == c.traceID
  {
    if moves != [] {
      TraceIsPreserved(c, moves[..|moves| - 1]);
      MoveKeepsTrace(ApplyAll(c, moves[..|moves| - 1]), moves[|moves| - 1]);
    }
  }

  /** A well-formed id is its own trimmed form, so what was inherited is passed on. */
  lemma InheritedIsInherited(c: Context, d: Context)
    requires c.Valid()
    requires d.parentSpanID == Inherited(c) ||
             (d.parentSpanID == c.parentSpanID && d.spanID == c.spanID)
    ensures Inherited(d) == Inherited(c)
  {
    HexIsTrimmed(Inherited(c), 16);
    TrimSpaceTrims(Inherited(c));
  }

  /** Hops without child spans between them all report the same parent: the one that
      the first of them inherits. Before the first hop nothing changes. */
  lemma {:induction false} HopsKeepParent(c: Context, moves: seq<Move>)
    requires c.Valid() && forall k | 0 <= k < |moves| :: FreshMove(moves[k]) && !moves[k].Spawn?
    ensures var d := ApplyAll(c, moves);
      && Inherited(d) == Inherited(c)
      && if exists k :: 0 <= k < |moves| && IsHop(moves[k])
         then d.parentSpanID == Inherited(c)
         else d.parentSpanID == c.parentSpanID && d.spanID == c.spanID
  {
    if moves != [] {
      var n := |moves| - 1;
      var before := ApplyAll(c, moves[..n]);
      HopsKeepParent(c, moves[..n]);
      TraceIsPreserved(c, moves[..n]);
      MoveKeepsTrace(before, moves[n]);
      InheritedIsInherited(before, Apply(before, moves[n]));
      assert forall k | 0 <= k < n :: moves[..n][k] == moves[k];
      assert IsHop(moves[n]) || moves[n].EnsureContext?;
    }
  }

  /** A hop reports the sender's parent if it has one, else the sender's span, exactly
      if that parent is absent or a well-formed span id. */
  lemma ParentIfThereIsOne(c: Context, m: Move)
    requires c.Valid() && FreshMove(m) && IsHop(m)
    ensures Apply(c, m).parentSpanID == (if c.parentSpanID != "" then c.parentSpanID else c.spanID)
            <==> c.parentSpanID == "" || ValidSpanID(c.parentSpanID)
  {
    HopKeepsTrace(c, m);
    TrimSpaceTrims(c.parentSpanID);
    if ValidSpanID(c.parentSpanID) {
      HexIsTrimmed(c.parentSpanID, 16);
    }
    assert TrimSpace("") == "";
  }

  const SAMPLE_TRACE: string := seq(32, _ => '1')
  const SAMPLE_SPAN: string := seq(16, _ => '2')

  /** A valid context whose parent is malformed: a hop reports the span instead. */
  lemma MalformedParentIsDropped(m: Move)
    requires FreshMove(m) && IsHop(m)
    ensures var c := Context(SAMPLE_TRACE, SAMPLE_SPAN, "P", "", []);
      c.Valid() && Apply(c, m).parentSpanID == c.spanID
  {
    var c := Context(SAMPLE_TRACE, SAMPLE_SPAN, "P", "", []);
    assert c.traceID[0] == '1' && c.spanID[0] == '2';
    TrimSpaceTrims("P");
    HopKeepsTrace(c, m);
  }

  /** A blank request id and a fallback: the two carriers differ. */
  lemma FallbackShows(ids: Fresh)
    ensures var c := Context("", "", "", " ", []);
      Received(Headers(c), "x", ids) != Received(TrimmedHeaders(c), "", ids)
  {
    var c := Context("", "", "", " ", []);
    HeadersAreSent(c);
    CarriersAgree(c, Headers(c), TrimmedHeaders(c), "x", ids);
    assert TrimSpace(" ") == "" && TrimSpace("x") == "x";
  }
}
