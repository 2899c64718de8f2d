/** Fan-out over arbitrary finite trees of tee handlers. What a leaf handler does
    with a record is a parameter: whether it is enabled, and how Handle ends. */
module TeeHandler {
  import opened Options
  import opened Slog

  /** A leaf handler and the derivations applied to it so far. */
  datatype Sink = Sink(id: nat, ops: seq<Op>)

  datatype Handler = Single(sink: Sink) | Tee(children: seq<Handler>)

  datatype Error = SinkError(sink: Sink, cause: string) | TeeChildError(errs: seq<Error>)

  datatype World = World(enabled: (Sink, int) -> bool, outcome: (Sink, Record) -> Option<string>)

  datatype Delivery = Delivery(sink: Sink, record: Record)

  class Deliveries {
    var got: seq<Delivery>
  }

  /** The leaves of a tree, left to right. */
  function Sinks(h: Handler): seq<Sink>
    decreases h, 1
  {
    match h
    case Single(sink) => [sink]
    case Tee(children) => AllSinks(children)
  }

  function AllSinks(hs: seq<Handler>): seq<Sink>
    decreases hs, 0
  {
    if hs == [] then [] else AllSinks(hs[..|hs| - 1]) + Sinks(hs[|hs| - 1])
  }

  function Active(w: World, sinks: seq<Sink>, level: int): seq<Sink> {
    if sinks == [] then []
    else Active(w, sinks[..|sinks| - 1], level) +
         if w.enabled(sinks[|sinks| - 1], level) then [sinks[|sinks| - 1]] else []
  }

  /** Who gets a record: a leaf asked directly, or the enabled leaves of a tee. */
  function Targets(w: World, h: Handler, level: int): seq<Sink> {
    if h.Single? then [h.sink] else Active(w, Sinks(h), level)
  }

  function CopyEach(sinks: seq<Sink>, r: Record): seq<Delivery> {
    seq(|sinks|, i requires 0 <= i < |sinks| => Delivery(sinks[i], r))
  }

  /** The failures of the given leaves, in order. */
  function Failures(w: World, sinks: seq<Sink>, r: Record): seq<Error> {
    if sinks == [] then []
    else
      var last := sinks[|sinks| - 1];
      Failures(w, sinks[..|sinks| - 1], r) +
      match w.outcome(last, r)
      case Some(cause) => [SinkError(last, cause)]
      case None => []
  }

  function Flatten(e: Error): seq<Error>
    decreases e, 1
  {
    match e
    case SinkError(_, _) => [e]
    case TeeChildError(errs) => FlattenAll(errs)
  }

  function FlattenAll(errs: seq<Error>): seq<Error>
    decreases errs, 0
  {
    if errs == [] then [] else FlattenAll(errs[..|errs| - 1]) + Flatten(errs[|errs| - 1])
  }

  function FlattenResult(e: Option<Error>): seq<Error> {
    if e.Some? then Flatten(e.value) else []
  }

  lemma {:induction false} ActiveConcat(w: World, a: seq<Sink>, b: seq<Sink>, level: int)
    ensures Active(w, a + b, level) == Active(w, a, level) + Active(w, b, level)
  {
    if b == [] {
      assert a + b == a;
    } else {
      ActiveConcat(w, a, b[..|b| - 1], level);
      assert (a + b)[..|a + b| - 1] == a + b[..|b| - 1];
    }
  }

  lemma {:induction false} FailuresConcat(w: World, a: seq<Sink>, b: seq<Sink>, r: Record)
    ensures Failures(w, a + b, r) == Failures(w, a, r) + Failures(w, b, r)
  {
    if b == [] {
      assert a + b == a;
    } else {
      FailuresConcat(w, a, b[..|b| - 1], r);
      assert (a + b)[..|a + b| - 1] == a + b[..|b| - 1];
    }
  }

  lemma {:induction false} ActiveIsSome(w: World, sinks: seq<Sink>, level: int)
    ensures Active(w, sinks, level) != [] <==> exists s :: s in sinks && w.enabled(s, level)
  {
    if sinks != [] {
      ActiveIsSome(w, sinks[..|sinks| - 1], level);
      assert sinks == sinks[..|sinks| - 1] + [sinks[|sinks| - 1]];
    }
  }

  /** Enabled answers true iff some leaf of the tree would get a record. */
  method Enabled(w: World, h: Handler, level: int) returns (b: bool)
    ensures b <==> Active(w, Sinks(h), level) != []
    ensures b <==> exists s :: s in Sinks(h) && w.enabled(s, level)
    decreases h
  {
    ActiveIsSome(w, Sinks(h), level);
    if h.Single? {
      assert [h.sink][..0] == [];
      return w.enabled(h.sink, level);
    }
    assert h.children[..|h.children|] == h.children;
    for i := 0 to |h.children|
      invariant Active(w, AllSinks(h.children[..i]), level) == []
    {
      var child := Enabled(w, h.children[i], level);
      assert h.children[..i + 1][..i] == h.children[..i];
      ActiveConcat(w, AllSinks(h.children[..i]), Sinks(h.children[i]), level);
      if child {
        LaterChildrenKeep(w, h.children, i + 1, level);
        return true;
      }
    }
    return false;
  }

  lemma {:induction false} LaterChildrenKeep(w: World, hs: seq<Handler>, i: nat, level: int)
    requires i <= |hs| && Active(w, AllSinks(hs[..i]), level) != []
    ensures Active(w, AllSinks(hs), level) != []
    decreases |hs| - i
  {
    if i == |hs| {
      assert hs[..i] == hs;
    } else {
      assert hs[..i + 1][..i] == hs[..i];
      ActiveConcat(w, AllSinks(hs[..i]), Sinks(hs[i]), level);
      LaterChildrenKeep(w, hs, i + 1, level);
    }
  }

  /** A tee delivers exactly one copy, left to right, to exactly the enabled leaves;
      the nested errors flatten to those leaves' failures in order, and the result
      is nil iff none of them failed. One failure stops nobody else. */
  method Handle(w: World, h: Handler, r: Record, log: Deliveries) returns (err: Option<Error>)
    modifies log
    ensures log.got == old(log.got) + CopyEach(Targets(w, h, r.level), r)
    ensures FlattenResult(err) == Failures(w, Targets(w, h, r.level), r)
    ensures err.None? <==> Failures(w, Targets(w, h, r.level), r) == []
    decreases h, 1
  {
    if h.Single? {
      log.got := log.got + [Delivery(h.sink, r)];
      assert [h.sink][..0] == [];
      var cause := w.outcome(h.sink, r);
      return if cause.Some? then Some(SinkError(h.sink, cause.value)) else None;
    }
    var errs := HandleEach(w, h, r, log);
    return if errs == [] then None else Some(TeeChildError(errs));
  }

  /** Exactly `sinks` have been served so far, and `errs` says which failed. */
  ghost predicate Served(w: World, sinks: seq<Sink>, r: Record,
                         start: seq<Delivery>, got: seq<Delivery>, errs: seq<Error>)
  {
    && got == start + CopyEach(sinks, r)
    && FlattenAll(errs) == Failures(w, sinks, r)
    && (errs == [] <==> Failures(w, sinks, r) == [])
  }

  method HandleEach(w: World, h: Handler, r: Record, log: Deliveries) returns (errs: seq<Error>)
    requires h.Tee?
    modifies log
    ensures Served(w, Active(w, AllSinks(h.children), r.level), r, old(log.got), log.got, errs)
    decreases h, 0
  {
    errs := [];
    assert h.children[..|h.children|] == h.children;
    for i := 0 to |h.children|
      invariant Served(w, Active(w, AllSinks(h.children[..i]), r.level), r, old(log.got), log.got, errs)
    {
      ghost var done, got := Active(w, AllSinks(h.children[..i]), r.level), log.got;
      NextChild(w, h.children, i, r.level);
      var e := Offer(w, h.children[i], r, log);
      ServeMore(w, done, Active(w, Sinks(h.children[i]), r.level), r, old(log.got), got, errs, e);
      if e.Some? {
        errs := errs + [e.value];
      }
    }
  }

  lemma ServeMore(w: World, done: seq<Sink>, now: seq<Sink>, r: Record,
                  start: seq<Delivery>, got: seq<Delivery>, errs: seq<Error>, e: Option<Error>)
    requires Served(w, done, r, start, got, errs)
    requires FlattenResult(e) == Failures(w, now, r) && (e.None? <==> Failures(w, now, r) == [])
    ensures Served(w, done + now, r, start, got + CopyEach(now, r), if e.Some? then errs + [e.value] else errs)
  {
    CopyConcat(done, now, r);
    FailuresConcat(w, done, now, r);
    CollectFlattens(errs, e);
    assert start + CopyEach(done, r) + CopyEach(now, r) == start + (CopyEach(done, r) + CopyEach(now, r));
  }

  lemma CollectFlattens(errs: seq<Error>, e: Option<Error>)
    ensures FlattenAll(if e.Some? then errs + [e.value] else errs) == FlattenAll(errs) + FlattenResult(e)
  {
    if e.Some? {
      assert (errs + [e.value])[..|errs|] == errs;
    }
  }

  /** One round of the loop over the children. */
  method Offer(w: World, child: Handler, r: Record, log: Deliveries) returns (err: Option<Error>)
    modifies log
    ensures log.got == old(log.got) + CopyEach(Active(w, Sinks(child), r.level), r)
    ensures FlattenResult(err) == Failures(w, Active(w, Sinks(child), r.level), r)
    ensures err.None? <==> Failures(w, Active(w, Sinks(child), r.level), r) == []
    decreases child, 2
  {
    err := None;
    var enabled := Enabled(w, child, r.level);
    if enabled {
      if child.Single? { assert [child.sink][..0] == []; }
      err := Handle(w, child, r, log);
    }
  }

  lemma CopyConcat(a: seq<Sink>, b: seq<Sink>, r: Record)
    ensures CopyEach(a + b, r) == CopyEach(a, r) + CopyEach(b, r)
  {
  }

  lemma NextChild(w: World, hs: seq<Handler>, i: nat, level: int)
    requires i < |hs|
    ensures Active(w, AllSinks(hs[..i + 1]), level) ==
            Active(w, AllSinks(hs[..i]), level) + Active(w, Sinks(hs[i]), level)
  {
    assert hs[..i + 1][..i] == hs[..i];
    ActiveConcat(w, AllSinks(hs[..i]), Sinks(hs[i]), level);
  }

  // ---- who gets what, by position ----

  /** The leaves of a tee are those of its children, in the children's order. */
  lemma {:induction false} SinksInOrder(a: seq<Handler>, b: seq<Handler>)
    ensures Sinks(Tee(a + b)) == Sinks(Tee(a)) + Sinks(Tee(b))
    decreases |b|
  {
    if b == [] {
      assert a + b == a;
    } else {
      var n := |b| - 1;
      SinksInOrder(a, b[..n]);
      assert (a + b)[..|a + b| - 1] == a + b[..n];
    }
  }

  lemma SinksOfOne(h: Handler, sink: Sink)
    ensures Sinks(Tee([h])) == Sinks(h) && Sinks(Tee([])) == [] && Sinks(Single(sink)) == [sink]
  {
    assert [h][..0] == [];
    assert AllSinks([h]) == AllSinks([]) + Sinks(h);
  }

  lemma {:induction false} ActiveCounted(w: World, sinks: seq<Sink>, level: int, i: nat)
    requires i <= |sinks|
    ensures |Active(w, sinks[..i], level)| == |set j | 0 <= j < i && w.enabled(sinks[j], level)|
  {
    if i > 0 {
      ActiveCounted(w, sinks, level, i - 1);
      assert sinks[..i][..i - 1] == sinks[..i - 1];
      var before := set j | 0 <= j < i - 1 && w.enabled(sinks[j], level);
      var all := set j | 0 <= j < i && w.enabled(sinks[j], level);
      assert all == before + if w.enabled(sinks[i - 1], level) then {i - 1} else {};
    }
  }

  lemma ActiveAt(w: World, sinks: seq<Sink>, level: int, i: nat)
    requires i < |sinks| && w.enabled(sinks[i], level)
    ensures |Active(w, sinks[..i], level)| < |Active(w, sinks, level)|
    ensures Active(w, sinks, level)[|Active(w, sinks[..i], level)|] == sinks[i]
  {
    assert sinks == sinks[..i] + [sinks[i]] + sinks[i + 1..];
    assert [sinks[i]][..0] == [] && Active(w, [sinks[i]], level) == [] + [sinks[i]];
    ActiveConcat(w, sinks[..i], [sinks[i]], level);
    ActiveConcat(w, sinks[..i] + [sinks[i]], sinks[i + 1..], level);
  }

  /** What a tee delivers: as many records as leaves are enabled, each the record itself;
      the i-th leaf, if enabled, gets the one after those of the enabled leaves before it. */
  lemma LeafGets(w: World, h: Handler, r: Record, i: nat, k: nat)
    requires h.Tee? && i < |Sinks(h)|
    ensures var sinks, got := Sinks(h), CopyEach(Targets(w, h, r.level), r);
      var before := |set j | 0 <= j < i && w.enabled(sinks[j], r.level)|;
      && |got| == |set j | 0 <= j < |sinks| && w.enabled(sinks[j], r.level)|
      && (w.enabled(sinks[i], r.level) ==> before < |got| && got[before] == Delivery(sinks[i], r))
      && (k < |got| ==> got[k].record == r && w.enabled(got[k].sink, r.level))
  {
    var sinks := Sinks(h);
    ActiveCounted(w, sinks, r.level, i);
    ActiveCounted(w, sinks, r.level, |sinks|);
    assert sinks[..|sinks|] == sinks;
    if w.enabled(sinks[i], r.level) {
      ActiveAt(w, sinks, r.level, i);
    }
    ActiveOnly(w, sinks, r.level, k);
  }

  lemma {:induction false} ActiveOnly(w: World, sinks: seq<Sink>, level: int, k: nat)
    ensures k < |Active(w, sinks, level)| ==> w.enabled(Active(w, sinks, level)[k], level)
  {
    if sinks != [] {
      ActiveOnly(w, sinks[..|sinks| - 1], level, k);
    }
  }

  /** A leaf's failure is its cause, and success is no failure; failures of several
      leaves follow one another. */
  lemma FailureOf(w: World, sink: Sink, rest: seq<Sink>, r: Record)
    ensures Failures(w, [sink] + rest, r) ==
      (if w.outcome(sink, r).Some? then [SinkError(sink, w.outcome(sink, r).value)] else []) + Failures(w, rest, r)
    ensures Failures(w, [], r) == []
  {
    FailuresConcat(w, [sink], rest, r);
    assert [sink][..0] == [];
    assert Failures(w, [sink], r) == Failures(w, [], r) +
      if w.outcome(sink, r).Some? then [SinkError(sink, w.outcome(sink, r).value)] else [];
  }

  /** Nested errors flatten from left to right. */
  lemma {:induction false} FlattensInOrder(a: seq<Error>, b: seq<Error>, e: Error)
    ensures Flatten(TeeChildError(a + b)) == Flatten(TeeChildError(a)) + Flatten(TeeChildError(b))
    ensures Flatten(TeeChildError([e])) == Flatten(e) && Flatten(TeeChildError([])) == []
    ensures e.SinkError? ==> Flatten(e) == [e]
    decreases |b|
  {
    assert [e][..0] == [] && FlattenAll([e]) == FlattenAll([]) + Flatten(e);
    if b == [] {
      assert a + b == a;
    } else {
      var n := |b| - 1;
      FlattensInOrder(a, b[..n], e);
      assert (a + b)[..|a + b| - 1] == a + b[..n];
    }
  }

  // ---- derivation ----

  function Derive(h: Handler, op: Op): Handler
    decreases h
  {
    match h
    case Single(sink) => Single(sink.(ops := sink.ops + [op]))
    case Tee(children) => Tee(seq(|children|, i requires 0 <= i < |children| => Derive(children[i], op)))
  }

  function DeriveAll(h: Handler, ops: seq<Op>): Handler {
    if ops == [] then h else Derive(DeriveAll(h, ops[..|ops| - 1]), ops[|ops| - 1])
  }

  function Extend(sinks: seq<Sink>, ops: seq<Op>): seq<Sink> {
    seq(|sinks|, i requires 0 <= i < |sinks| => sinks[i].(ops := sinks[i].ops + ops))
  }

  /** WithAttrs and WithGroup of a tee build a new child from every child. */
  method DeriveTee(h: Handler, op: Op) returns (out: Handler)
    ensures out == Derive(h, op)
    decreases h
  {
    if h.Single? {
      return Single(h.sink.(ops := h.sink.ops + [op]));
    }
    var children: seq<Handler> := [];
    for i := 0 to |h.children|
      invariant children == seq(i, j requires 0 <= j < i => Derive(h.children[j], op))
    {
      var child := DeriveTee(h.children[i], op);
      children := children + [child];
    }
    out := Tee(children);
  }

  lemma {:induction false} DeriveKeepsShape(h: Handler, op: Op)
    ensures Sinks(Derive(h, op)) == Extend(Sinks(h), [op])
    decreases h, 1
  {
    if h.Tee? {
      var derived := Derive(h, op).children;
      DeriveAllChildren(h, h.children, derived, op);
    }
  }

  lemma {:induction false} DeriveAllChildren(h: Handler, hs: seq<Handler>, derived: seq<Handler>, op: Op)
    requires h.Tee? && |hs| <= |h.children| && hs == h.children[..|hs|]
    requires |derived| == |hs| && forall i | 0 <= i < |hs| :: derived[i] == Derive(hs[i], op)
    ensures AllSinks(derived) == Extend(AllSinks(hs), [op])
    decreases h, 0, |hs|
  {
    var n := |hs| - 1;
    if hs != [] {
      DeriveAllChildren(h, hs[..n], derived[..n], op);
      assert hs[n] == h.children[n];
      DeriveKeepsShape(hs[n], op);
    }
  }

  /** A derivation chain on a tree is the same chain on every leaf. */
  lemma ChainReachesEveryLeaf(h: Handler, ops: seq<Op>, i: nat)
    ensures DeriveAll(h, ops).Tee? == h.Tee? && |Sinks(DeriveAll(h, ops))| == |Sinks(h)|
    ensures i < |Sinks(h)| ==> Sinks(DeriveAll(h, ops))[i] == Sink(Sinks(h)[i].id, Sinks(h)[i].ops + ops)
  {
    ChainExtendsLeaves(h, ops);
  }

  lemma {:induction false} ChainExtendsLeaves(h: Handler, ops: seq<Op>)
    ensures Sinks(DeriveAll(h, ops)) == Extend(Sinks(h), ops)
    ensures DeriveAll(h, ops).Tee? == h.Tee?
  {
    var n := |ops| - 1;
    if ops == [] {
      assert forall s: Sink :: s.ops + [] == s.ops;
    } else {
      ChainExtendsLeaves(h, ops[..n]);
      DeriveKeepsShape(DeriveAll(h, ops[..n]), ops[n]);
      forall i | 0 <= i < |Sinks(h)|
        ensures Sinks(h)[i].ops + ops[..n] + [ops[n]] == Sinks(h)[i].ops + ops
      {
        assert ops == ops[..n] + [ops[n]];
      }
    }
  }
}
