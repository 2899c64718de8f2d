/** Routing of records to the combined sink and to lazily created concern files.
    All clones of a router share one cache; many goroutines may be inside Handle at
    once, so a Handle call is three steps that interleave with those of others. */
module RouterDemux {
  import opened Options
  import opened Slog
  import opened Router

  /** `text` is Value.String, `combinedOn` the combined sink's Enabled. */
  datatype Config = Config(
    fallback: string,
    concernAttr: string,
    text: Value -> string,
    combinedOn: int -> bool)

  /** A concern's FileJSON handler: its path and its level threshold. */
  datatype Child = Child(path: string, threshold: int)

  datatype Delivery = Delivery(ops: seq<Op>, record: Record)

  // ---- choosing the concern ----

  function FirstText(c: Config, attrs: seq<Attr>): Option<string> {
    if attrs == [] then None
    else if attrs[0].key == c.concernAttr then Some(c.text(attrs[0].value))
    else FirstText(c, attrs[1..])
  }

  function IndexByte(s: string, b: char): (i: int)
    ensures -1 <= i < |s|
    ensures i >= 0 ==> s[i] == b
    ensures forall j | 0 <= j < if i < 0 then |s| else i :: s[j] != b
  {
    if s == "" then -1
    else if s[0] == b then 0
    else var i := IndexByte(s[1..], b); if i < 0 then -1 else i + 1
  }

  /** The concern of a record: the first attribute with the configured key among
      the router's and then the record's, or the message's first segment. */
  function Concern(c: Config, router: Router, r: Record): string {
    if c.concernAttr != "" then
      match FirstText(c, router.attrs + r.attrs)
      case Some(v) => if v != "" then v else c.fallback
      case None => c.fallback
    else
      var i := IndexByte(r.message, '.');
      if i > 0 then r.message[..i] else c.fallback
  }

  /** A message of the form segment.rest goes to its segment, any other message to
      the fallback, a leading dot included. */
  lemma MessageConcern(c: Config, router: Router, r: Record, segment: string, rest: string)
    requires c.concernAttr == ""
    ensures segment != "" && '.' !in segment && r.message == segment + "." + rest ==>
      Concern(c, router, r) == segment
    ensures '.' !in r.message || r.message[0] == '.' ==> Concern(c, router, r) == c.fallback
  {
    if segment != "" && '.' !in segment && r.message == segment + "." + rest {
      assert r.message[|segment|] == '.' && r.message[..|segment|] == segment;
      forall j | 0 <= j < |segment| ensures r.message[j] != '.' {
        assert r.message[j] == segment[j];
      }
    }
  }

  /** Routing by attribute: the first attribute with the configured key decides, the
      router's own before the record's, if its text is not empty; else the fallback. */
  lemma AttributeConcern(c: Config, router: Router, r: Record, k: nat)
    requires c.concernAttr != "" && k <= |router.attrs + r.attrs|
    requires forall j | 0 <= j < k :: (router.attrs + r.attrs)[j].key != c.concernAttr
    ensures var all := router.attrs + r.attrs;
      && (k == |all| ==> Concern(c, router, r) == c.fallback)
      && (k < |all| && all[k].key == c.concernAttr ==>
            Concern(c, router, r) == if c.text(all[k].value) != "" then c.text(all[k].value) else c.fallback)
  {
    FirstTextAt(c, router.attrs + r.attrs, k);
  }

  lemma {:induction false} FirstTextAt(c: Config, attrs: seq<Attr>, k: nat)
    requires k <= |attrs| && forall j | 0 <= j < k :: attrs[j].key != c.concernAttr
    ensures k == |attrs| ==> FirstText(c, attrs) == None
    ensures k < |attrs| && attrs[k].key == c.concernAttr ==> FirstText(c, attrs) == Some(c.text(attrs[k].value))
  {
    if k > 0 {
      FirstTextAt(c, attrs[1..], k - 1);
    }
  }

  lemma {:induction false} FirstTextConcat(c: Config, a: seq<Attr>, b: seq<Attr>)
    ensures FirstText(c, a + b) == if FirstText(c, a).Some? then FirstText(c, a) else FirstText(c, b)
  {
    if a == [] {
      assert a + b == b;
    } else {
      FirstTextConcat(c, a[1..], b);
      assert (a + b)[1..] == a[1..] + b;
    }
  }

  method AttrConcern(c: Config, router: Router, r: Record) returns (found: string, ok: bool)
    ensures FirstText(c, router.attrs + r.attrs) == if ok then Some(found) else None
  {
    FirstTextConcat(c, router.attrs, r.attrs);
    for i := 0 to |router.attrs|
      invariant FirstText(c, router.attrs) == FirstText(c, router.attrs[i..])
    {
      if router.attrs[i].key == c.concernAttr {
        return c.text(router.attrs[i].value), true;
      }
    }
    found, ok := "", false;
    for i := 0 to |r.attrs|
      invariant FirstText(c, r.attrs) == FirstText(c, r.attrs[i..])
    {
      if r.attrs[i].key == c.concernAttr {
        found := c.text(r.attrs[i].value);
        ok := true;
        return;
      }
    }
  }

  method ConcernOf(c: Config, router: Router, r: Record) returns (concern: string)
    ensures concern == Concern(c, router, r)
  {
    if c.concernAttr != "" {
      var value, ok := AttrConcern(c, router, r);
      if ok && value != "" {
        return value;
      }
      return c.fallback;
    }
    var index := IndexByte(r.message, '.');
    if index > 0 {
      return r.message[..index];
    }
    return c.fallback;
  }

  // ---- the shared state and its steps ----

  /** How far a Handle call has come. A finished call is remembered. */
  datatype Call =
    | Mirrored(router: Router, record: Record)
    | Found(router: Router, record: Record, child: Option<Child>)
    | Done(router: Router, record: Record)

  /** `computed` lists the concerns whose path was asked for, in order. */
  datatype State = State(
    children: map<string, Option<Child>>,
    computed: seq<string>,
    combined: seq<Delivery>,
    files: map<string, seq<Delivery>>,
    calls: map<nat, Call>)

  const START := State(map[], [], [], map[], map[])

  /** A call first serves the combined sink, then looks up its concern's handler, then
      serves that. `made` is what PathForConcern and LevelForConcern yield if asked. */
  datatype Step =
    | ToCombined(call: nat, router: Router, record: Record)
    | LookUp(call: nat, router: Router, record: Record, made: Option<Child>)
    | ToChild(call: nat, router: Router, record: Record)

  function FileAt(s: State, path: string): seq<Delivery> {
    if path in s.files then s.files[path] else []
  }

  function Append(files: map<string, seq<Delivery>>, path: string, d: Delivery): map<string, seq<Delivery>> {
    files[path := (if path in files then files[path] else []) + [d]]
  }

  predicate Enabled(s: State, step: Step) {
    match step
    case ToCombined(call, _, _) => call !in s.calls
    case LookUp(call, router, record, _) => call in s.calls && s.calls[call] == Mirrored(router, record)
    case ToChild(call, router, record) =>
      call in s.calls && s.calls[call].Found? && s.calls[call].router == router && s.calls[call].record == record
  }

  function Next(c: Config, s: State, step: Step): State
    requires Enabled(s, step)
  {
    match step
    case ToCombined(call, router, record) =>
      s.(combined := s.combined + ToBoth(c, step), calls := s.calls[call := Mirrored(router, record)])
    case LookUp(call, router, record, made) =>
      var concern := Concern(c, router, record);
      var s' := if concern in s.children then s
                else s.(children := s.children[concern := made], computed := s.computed + [concern]);
      s'.(calls := s.calls[call := Found(router, record, s'.children[concern])])
    case ToChild(call, router, record) =>
      var child := s.calls[call].child;
      var s' := s.(calls := s.calls[call := Done(router, record)]);
      if child.Some? && record.level >= child.value.threshold
      then s'.(files := Append(s.files, child.value.path, Delivery(ReplayOps(router), record)))
      else s'
  }

  ghost predicate Run(c: Config, states: seq<State>, steps: seq<Step>) {
    && |states| == |steps| + 1
    && states[0] == START
    && forall k | 0 <= k < |steps| :: Enabled(states[k], steps[k]) && states[k + 1] == Next(c, states[k], steps[k])
  }

  // ---- the cache ----

  ghost predicate NoRepeats(s: seq<string>) {
    forall j, k | 0 <= j < k < |s| :: s[j] != s[k]
  }

  ghost predicate CacheInv(c: Config, s: State) {
    && NoRepeats(s.computed)
    && (forall concern :: concern in s.children <==> concern in s.computed)
    && (forall call | call in s.calls && s.calls[call].Found? ::
          var p := s.calls[call];
          Concern(c, p.router, p.record) in s.children && p.child == s.children[Concern(c, p.router, p.record)])
  }

  lemma StepKeepsCache(c: Config, s: State, step: Step)
    requires CacheInv(c, s) && Enabled(s, step)
    ensures CacheInv(c, Next(c, s, step))
  {
  }

  lemma {:induction false} RunKeepsCache(c: Config, states: seq<State>, steps: seq<Step>, k: nat)
    requires Run(c, states, steps) && k < |states|
    ensures CacheInv(c, states[k])
  {
    if k > 0 {
      RunKeepsCache(c, states, steps, k - 1);
      StepKeepsCache(c, states[k - 1], steps[k - 1]);
    }
  }

  /** Over every run and across all clones, a concern's path is computed at most
      once, and once cached its handler, or the nil that disables its file, never
      changes, even if the callbacks would later answer differently. */
  lemma {:induction false} CacheIsWriteOnce(c: Config, states: seq<State>, steps: seq<Step>, j: nat, k: nat,
                                            concern: string)
    requires Run(c, states, steps) && j <= k < |states|
    ensures NoRepeats(states[k].computed) && states[j].computed <= states[k].computed
    ensures concern in states[j].children ==>
      concern in states[k].children && states[k].children[concern] == states[j].children[concern]
    decreases k
  {
    RunKeepsCache(c, states, steps, k);
    if j < k {
      CacheIsWriteOnce(c, states, steps, j, k - 1, concern);
      assert states[k] == Next(c, states[k - 1], steps[k - 1]);
    }
  }

  // ---- demultiplexing ----

  /** The path and level callbacks as functions of the concern; "" disables a file. */
  datatype Callbacks = Callbacks(path: string -> string, level: string -> int)

  function Made(cb: Callbacks, concern: string): Option<Child> {
    if cb.path(concern) == "" then None else Some(Child(cb.path(concern), cb.level(concern)))
  }

  ghost predicate Honest(c: Config, cb: Callbacks, steps: seq<Step>) {
    forall k | 0 <= k < |steps| && steps[k].LookUp? ::
      steps[k].made == Made(cb, Concern(c, steps[k].router, steps[k].record))
  }

  predicate BelongsAt(c: Config, cb: Callbacks, router: Router, record: Record, path: string) {
    var concern := Concern(c, router, record);
    path != "" && cb.path(concern) == path && record.level >= cb.level(concern)
  }

  function ToFile(c: Config, cb: Callbacks, step: Step, path: string): seq<Delivery> {
    if step.ToChild? && BelongsAt(c, cb, step.router, step.record, path)
    then [Delivery(ReplayOps(step.router), step.record)] else []
  }

  function ToBoth(c: Config, step: Step): seq<Delivery> {
    if step.ToCombined? && c.combinedOn(step.record.level)
    then [Delivery(ReplayOps(step.router), step.record)] else []
  }

  /** The deliveries that belong in the file at `path`, in order. */
  function Routed(c: Config, cb: Callbacks, steps: seq<Step>, path: string): seq<Delivery> {
    if steps == [] then [] else
      Routed(c, cb, steps[..|steps| - 1], path) + ToFile(c, cb, steps[|steps| - 1], path)
  }

  /** The records one concern selects and its level admits, in order. */
  function Selected(c: Config, cb: Callbacks, steps: seq<Step>, concern: string): seq<Delivery> {
    if steps == [] then [] else
      var last := steps[|steps| - 1];
      Selected(c, cb, steps[..|steps| - 1], concern) +
      if last.ToChild? && Concern(c, last.router, last.record) == concern && last.record.level >= cb.level(concern)
      then [Delivery(ReplayOps(last.router), last.record)] else []
  }

  function ForCombined(c: Config, steps: seq<Step>): seq<Delivery> {
    if steps == [] then [] else
      ForCombined(c, steps[..|steps| - 1]) + ToBoth(c, steps[|steps| - 1])
  }

  ghost predicate HonestCache(cb: Callbacks, s: State) {
    forall concern | concern in s.children :: s.children[concern] == Made(cb, concern)
  }

  lemma {:induction false} CacheStaysHonest(c: Config, cb: Callbacks, states: seq<State>, steps: seq<Step>, k: nat)
    requires Run(c, states, steps) && Honest(c, cb, steps) && k < |states|
    ensures HonestCache(cb, states[k])
  {
    if k > 0 {
      CacheStaysHonest(c, cb, states, steps, k - 1);
      assert states[k] == Next(c, states[k - 1], steps[k - 1]);
    }
  }

  /** What one step adds to the file at `path` and to the combined sink. */
  lemma StepDelivers(c: Config, cb: Callbacks, s: State, step: Step, path: string)
    requires Enabled(s, step) && CacheInv(c, s) && HonestCache(cb, s)
    ensures FileAt(Next(c, s, step), path) == FileAt(s, path) + ToFile(c, cb, step, path)
    ensures Next(c, s, step).combined == s.combined + ToBoth(c, step)
  {
    if step.ToChild? {
      assert s.calls[step.call].child == Made(cb, Concern(c, step.router, step.record));
    }
  }

  lemma RoutedMore(c: Config, cb: Callbacks, steps: seq<Step>, step: Step, path: string)
    ensures Routed(c, cb, steps + [step], path) == Routed(c, cb, steps, path) + ToFile(c, cb, step, path)
    ensures ForCombined(c, steps + [step]) == ForCombined(c, steps) + ToBoth(c, step)
  {
    assert (steps + [step])[..|steps|] == steps;
  }

  lemma RunStepDelivers(c: Config, cb: Callbacks, states: seq<State>, steps: seq<Step>, k: nat, path: string)
    requires Run(c, states, steps) && Honest(c, cb, steps) && k < |steps|
    ensures FileAt(states[k + 1], path) == FileAt(states[k], path) + ToFile(c, cb, steps[k], path)
    ensures states[k + 1].combined == states[k].combined + ToBoth(c, steps[k])
  {
    RunKeepsCache(c, states, steps, k);
    CacheStaysHonest(c, cb, states, steps, k);
    StepDelivers(c, cb, states[k], steps[k], path);
  }

  /** What each step of a run delivers: the first step of a call its record to the
      combined sink if enabled, a lookup nothing, and the last step the record to its
      concern's file, if the concern has one and the level reaches its threshold. */
  lemma RunDelivers(c: Config, cb: Callbacks, states: seq<State>, steps: seq<Step>, k: nat, path: string)
    requires Run(c, states, steps) && Honest(c, cb, steps) && k < |steps|
    ensures var step := steps[k];
      var d := Delivery(ReplayOps(step.router), step.record);
      var concern := Concern(c, step.router, step.record);
      && FileAt(states[k + 1], path) == FileAt(states[k], path) +
         (if step.ToChild? && path != "" && path == cb.path(concern) && step.record.level >= cb.level(concern)
          then [d] else [])
      && states[k + 1].combined == states[k].combined +
         (if step.ToCombined? && c.combinedOn(step.record.level) then [d] else [])
  {
    RunStepDelivers(c, cb, states, steps, k, path);
  }

  /** Every file holds exactly the deliveries routed to its path, in order, and the
      combined sink exactly the records enabled for it. */
  lemma {:induction false} Demultiplexing(c: Config, cb: Callbacks, states: seq<State>, steps: seq<Step>, k: nat,
                                          path: string)
    requires Run(c, states, steps) && Honest(c, cb, steps) && k < |states|
    ensures FileAt(states[k], path) == Routed(c, cb, steps[..k], path)
    ensures states[k].combined == ForCombined(c, steps[..k])
  {
    if k > 0 {
      Demultiplexing(c, cb, states, steps, k - 1, path);
      RunStepDelivers(c, cb, states, steps, k - 1, path);
      RoutedMore(c, cb, steps[..k - 1], steps[k - 1], path);
      assert steps[..k] == steps[..k - 1] + [steps[k - 1]];
    }
  }

  lemma {:induction false} InjectiveRouting(c: Config, cb: Callbacks, steps: seq<Step>, concern: string)
    requires cb.path(concern) != ""
    requires forall other :: cb.path(other) == cb.path(concern) ==> other == concern
    ensures Routed(c, cb, steps, cb.path(concern)) == Selected(c, cb, steps, concern)
  {
    if steps != [] {
      InjectiveRouting(c, cb, steps[..|steps| - 1], concern);
    }
  }

  /** With an injective path function each concern's file is exactly the
      subsequence of records that select it and clear its threshold. */
  lemma ConcernFile(c: Config, cb: Callbacks, states: seq<State>, steps: seq<Step>, k: nat, concern: string)
    requires Run(c, states, steps) && Honest(c, cb, steps) && k < |states|
    requires cb.path(concern) != ""
    requires forall other :: cb.path(other) == cb.path(concern) ==> other == concern
    ensures FileAt(states[k], cb.path(concern)) == Selected(c, cb, steps[..k], concern)
  {
    Demultiplexing(c, cb, states, steps, k, cb.path(concern));
    InjectiveRouting(c, cb, steps[..k], concern);
  }

  // ---- what each call contributes ----

  /** The deliveries of one call to the combined sink and to the file at `path`. */
  function CombinedOf(c: Config, steps: seq<Step>, call: nat): seq<Delivery> {
    if steps == [] then [] else
      CombinedOf(c, steps[..|steps| - 1], call) +
      if steps[|steps| - 1].call == call then ToBoth(c, steps[|steps| - 1]) else []
  }

  function FiledOf(c: Config, cb: Callbacks, steps: seq<Step>, call: nat, path: string): seq<Delivery> {
    if steps == [] then [] else
      FiledOf(c, cb, steps[..|steps| - 1], call, path) +
      if steps[|steps| - 1].call == call then ToFile(c, cb, steps[|steps| - 1], path) else []
  }

  function Once(due: bool, d: Delivery): seq<Delivery> {
    if due then [d] else []
  }

  /** What a call should have delivered by now: to the combined sink as soon as it has
      begun, to its concern's file once it is done. */
  function CombinedDue(c: Config, s: State, call: nat): seq<Delivery> {
    if call !in s.calls then [] else
      var x := s.calls[call];
      Once(c.combinedOn(x.record.level), Delivery(ReplayOps(x.router), x.record))
  }

  function FiledDue(c: Config, cb: Callbacks, s: State, call: nat, path: string): seq<Delivery> {
    if call !in s.calls || !s.calls[call].Done? then [] else
      var x := s.calls[call];
      Once(BelongsAt(c, cb, x.router, x.record, path), Delivery(ReplayOps(x.router), x.record))
  }

  lemma StepMakesDue(c: Config, cb: Callbacks, s: State, step: Step, call: nat, path: string)
    requires Enabled(s, step)
    ensures CombinedDue(c, Next(c, s, step), call) ==
            CombinedDue(c, s, call) + if step.call == call then ToBoth(c, step) else []
    ensures FiledDue(c, cb, Next(c, s, step), call, path) ==
            FiledDue(c, cb, s, call, path) + if step.call == call then ToFile(c, cb, step, path) else []
  {
  }

  lemma OfMore(c: Config, cb: Callbacks, steps: seq<Step>, step: Step, call: nat, path: string)
    ensures CombinedOf(c, steps + [step], call) ==
            CombinedOf(c, steps, call) + if step.call == call then ToBoth(c, step) else []
    ensures FiledOf(c, cb, steps + [step], call, path) ==
            FiledOf(c, cb, steps, call, path) + if step.call == call then ToFile(c, cb, step, path) else []
  {
    assert (steps + [step])[..|steps|] == steps;
  }

  /** In every run, each Handle call delivers its one record exactly once to the
      combined sink, if that is enabled for it, and when it is done exactly once to
      its concern's file, if there is one and the level clears it; to no other file. */
  lemma {:induction false} EachCallDeliversOnce(c: Config, cb: Callbacks, states: seq<State>, steps: seq<Step>,
                                                k: nat, call: nat, path: string)
    requires Run(c, states, steps) && k < |states|
    ensures CombinedOf(c, steps[..k], call) == CombinedDue(c, states[k], call)
    ensures FiledOf(c, cb, steps[..k], call, path) == FiledDue(c, cb, states[k], call, path)
  {
    if k > 0 {
      EachCallDeliversOnce(c, cb, states, steps, k - 1, call, path);
      StepMakesDue(c, cb, states[k - 1], steps[k - 1], call, path);
      OfMore(c, cb, steps[..k - 1], steps[k - 1], call, path);
      assert steps[..k] == steps[..k - 1] + [steps[k - 1]];
    }
  }

  // ---- the code of one Handle call ----

  /** What the clones share: the mutex-guarded cache and the sinks behind it. */
  class Shared {
    var children: map<string, Option<Child>>
    ghost var computed: seq<string>
    var combined: seq<Delivery>
    var files: map<string, seq<Delivery>>

    ghost function View(calls: map<nat, Call>): State
      reads this
    {
      State(children, computed, combined, files, calls)
    }

    /** childFor: the cached handler, or the callbacks' answer, remembered. */
    method ChildFor(cb: Callbacks, concern: string) returns (child: Option<Child>)
      modifies this`children, this`computed
      ensures concern in children && child == children[concern]
      ensures children ==
        if concern in old(children) then old(children) else old(children)[concern := Made(cb, concern)]
      ensures computed == if concern in old(children) then old(computed) else old(computed) + [concern]
    {
      if concern in children {
        return children[concern];
      }
      computed := computed + [concern];
      var rel := cb.path(concern);
      if rel == "" {
        children := children[concern := None];
        return None;
      }
      child := Some(Child(rel, cb.level(concern)));
      children := children[concern := child];
    }

    /** Handle performs the combined delivery, the lookup and the concern delivery, in
        that order, with the router's recorded state applied to both sinks. */
    method Handle(c: Config, cb: Callbacks, router: Router, r: Record, ghost calls: map<nat, Call>, ghost call: nat)
      requires call !in calls
      modifies this
      ensures var s0 := old(View(calls));
        var s1 := Next(c, s0, ToCombined(call, router, r));
        var s2 := Next(c, s1, LookUp(call, router, r, Made(cb, Concern(c, router, r))));
        View(calls[call := Done(router, r)]) == Next(c, s2, ToChild(call, router, r))
    {
      if c.combinedOn(r.level) {
        combined := combined + [Delivery(ReplayOps(router), r)];
      }
      var concern := ConcernOf(c, router, r);
      var child := ChildFor(cb, concern);
      if child.Some? && r.level >= child.value.threshold {
        var path := child.value.path;
        files := files[path := (if path in files then files[path] else []) + [Delivery(ReplayOps(router), r)]];
      }
      assert calls[call := Mirrored(router, r)][call := Found(router, r, child)][call := Done(router, r)] ==
             calls[call := Done(router, r)];
    }
  }
}
