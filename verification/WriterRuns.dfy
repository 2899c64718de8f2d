/** What holds over whole runs of the locked writers: exclusion, conservation of
    the log, coherence of the cached descriptors, the size bound, and progress. */
module WriterRuns {
  import opened Sequences
  import opened Options
  import opened Storage
  import opened CriticalSection
  import opened LockProtocol

  ghost predicate Run(c: Config, states: seq<State>, steps: seq<Step>) {
    && |states| == |steps| + 1
    && Init(states[0])
    && forall k | 0 <= k < |steps| ::
         StepEnabled(c, states[k], steps[k]) && states[k + 1] == Next(c, states[k], steps[k])
  }

  lemma {:induction false} RunKeepsInv(c: Config, states: seq<State>, steps: seq<Step>, k: nat)
    requires Run(c, states, steps) && k < |states|
    ensures Inv(c, states[k])
  {
    if k == 0 {
      InitInv(c, states[0]);
    } else {
      RunKeepsInv(c, states, steps, k - 1);
      StepKeepsInv(c, states[k - 1], steps[k - 1]);
    }
  }

  // ---- building runs ----

  /** Taking `steps` one after the other leads from `s` to `s'`. */
  ghost predicate Performs(c: Config, s: State, steps: seq<Step>, s': State)
    decreases steps
  {
    if steps == [] then s' == s
    else StepEnabled(c, s, steps[0]) && Performs(c, Next(c, s, steps[0]), steps[1..], s')
  }

  lemma {:induction false} PerformsOn(c: Config, s: State, steps: seq<Step>, m: State, more: seq<Step>, s': State)
    requires Performs(c, s, steps, m) && Performs(c, m, more, s')
    ensures Performs(c, s, steps + more, s')
    decreases steps
  {
    if steps == [] {
      assert steps + more == more;
    } else {
      PerformsOn(c, Next(c, s, steps[0]), steps[1..], m, more, s');
      assert (steps + more)[1..] == steps[1..] + more;
    }
  }

  lemma PerformsOne(c: Config, s: State, steps: seq<Step>, m: State, step: Step)
    requires Performs(c, s, steps, m) && StepEnabled(c, m, step)
    ensures Performs(c, s, steps + [step], Next(c, m, step))
  {
    assert Performs(c, Next(c, m, step), [step][1..], Next(c, m, step));
    PerformsOn(c, s, steps, m, [step], Next(c, m, step));
  }

  lemma {:induction false} PerformedRun(c: Config, s: State, steps: seq<Step>, s': State) returns (states: seq<State>)
    requires Performs(c, s, steps, s')
    ensures |states| == |steps| + 1 && states[0] == s && states[|steps|] == s'
    ensures Init(s) ==> Run(c, states, steps)
    ensures forall k | 0 <= k < |steps| ::
      StepEnabled(c, states[k], steps[k]) && states[k + 1] == Next(c, states[k], steps[k])
    decreases steps
  {
    states := [s];
    if steps != [] {
      var rest := PerformedRun(c, Next(c, s, steps[0]), steps[1..], s');
      states := states + rest;
    }
  }

  // ---- mutual exclusion ----

  /** No two goroutines of any instances are ever both between lock.Lock and
      lock.Unlock, and none is there while a mutator holds the lock. */
  lemma MutualExclusion(c: Config, states: seq<State>, steps: seq<Step>, k: nat, t: Tid, u: Tid)
    requires Run(c, states, steps) && k < |states|
    requires t in states[k].pcs && InCriticalSection(states[k].pcs[t])
    ensures states[k].lock == Some(Writer(t.inst))
    ensures t.inst < |states[k].insts| && states[k].insts[t.inst].mu == Some(t)
    ensures u in states[k].pcs && InCriticalSection(states[k].pcs[u]) ==> u == t
  {
    RunKeepsInv(c, states, steps, k);
    assert ThreadOk(c, states[k], t);
    if u in states[k].pcs && InCriticalSection(states[k].pcs[u]) {
      AtMostOneInside(c, states[k], t, u);
    }
  }

  // ---- conservation ----

  /** The record prefixes of a history, joined in order. */
  function PutDown(events: seq<Event>): Bytes {
    if events == [] then [] else
      var e := events[|events| - 1];
      PutDown(events[..|events| - 1]) + if e.Wrote? && e.n <= |e.p| then e.p[..e.n] else []
  }

  /** The Writes that took the file lock during a run, in that order. */
  ghost function Acquired(c: Config, states: seq<State>, steps: seq<Step>): seq<(Tid, Bytes)>
    requires Run(c, states, steps)
    decreases |steps|
  {
    if steps == [] then [] else
      var k := |steps| - 1;
      Acquired(c, states[..k + 1], steps[..k]) +
      if steps[k].TakeLock? then [(steps[k].t, states[k].pcs[steps[k].t].p)] else []
  }

  function Records(events: seq<Event>): seq<(Tid, Bytes)> {
    if events == [] then [] else
      Records(events[..|events| - 1]) +
      match events[|events| - 1]
      case Wrote(t, p, _) => [(t, p)]
      case Mutated(_) => []
  }

  lemma RecordsRetell(events: seq<Event>, n: nat)
    ensures Records(Retell(events, n)) == Records(events)
  {
    if events != [] && events[|events| - 1].Wrote? {
      assert Retell(events, n)[..|events| - 1] == events[..|events| - 1];
    }
  }

  lemma RecordsStep(c: Config, s: State, step: Step)
    requires StepEnabled(c, s, step)
    ensures Records(Next(c, s, step).events) ==
            Records(s.events) + if step.TakeLock? then [(step.t, s.pcs[step.t].p)] else []
  {
    var s' := Next(c, s, step);
    match step
    case Inside(t, a) => RecordsRetell(s.events, BytesDown(s'.pcs[t]));
    case TakeLock(_) => assert s'.events[..|s.events|] == s.events;
    case Mutate(_, _) => assert s'.events[..|s.events|] == s.events;
    case _ =>
  }

  /** The history has exactly one entry for every Write that got the lock, in lock order. */
  lemma {:induction false} HistoryIsLockOrder(c: Config, states: seq<State>, steps: seq<Step>)
    requires Run(c, states, steps)
    ensures Records(states[|steps|].events) == Acquired(c, states, steps)
    decreases |steps|
  {
    var k := |steps| - 1;
    if steps == [] {
      assert states[0].events[..0] == [];
    } else {
      HistoryIsLockOrder(c, states[..k + 1], steps[..k]);
      RecordsStep(c, states[k], steps[k]);
    }
  }

  lemma {:induction false} ReplayOfWrites(events: seq<Event>)
    requires events != [] && events[0].Mutated?
    requires forall j | 0 < j < |events| :: events[j].Wrote? && events[j].n <= |events[j].p|
    ensures Replay(events) == events[0].log + PutDown(events)
  {
    var k := |events| - 1;
    if k == 0 {
      assert events[..0] == [];
    } else {
      ReplayOfWrites(events[..k]);
      Regroup(events[0].log, PutDown(events[..k]), events[k].p[..events[k].n]);
    }
  }

  /** A history that starts from a known log and then only records writes. */
  ghost predicate Quiet(events: seq<Event>, base: Bytes) {
    && events != [] && events[0] == Mutated(base)
    && forall j | 0 < j < |events| :: events[j].Wrote? && events[j].n <= |events[j].p|
  }

  lemma InsideStaysQuiet(c: Config, s: State, t: Tid, a: Action, base: Bytes)
    requires Inv(c, s) && StepEnabled(c, s, Inside(t, a)) && Quiet(s.events, base)
    ensures Quiet(Next(c, s, Inside(t, a)).events, base)
  {
    assert ThreadOk(c, s, t);
    ActionKeepsInv(c, LocalOf(s, t), a);
  }

  lemma StepStaysQuiet(c: Config, s: State, step: Step, base: Bytes)
    requires Inv(c, s) && StepEnabled(c, s, step) && Quiet(s.events, base) && !step.Mutate?
    ensures Quiet(Next(c, s, step).events, base)
  {
    if step.Inside? {
      InsideStaysQuiet(c, s, step.t, step.a, base);
    }
  }

  lemma {:induction false} QuietHistory(c: Config, states: seq<State>, steps: seq<Step>, k: nat)
    requires Run(c, states, steps) && k < |states|
    requires forall j | 0 <= j < |steps| :: !steps[j].Mutate?
    ensures Quiet(states[k].events, states[0].disk.LogBytes())
  {
    if k > 0 {
      QuietHistory(c, states, steps, k - 1);
      RunKeepsInv(c, states, steps, k - 1);
      StepStaysQuiet(c, states[k - 1], steps[k - 1], states[0].disk.LogBytes());
    }
  }

  /** With lock-holding mutators: the archives followed by the active file are
      what the history replays to; every Write since the last change by a mutator
      contributed exactly its prefix, in lock order, whatever failed meanwhile. */
  lemma Conservation(c: Config, states: seq<State>, steps: seq<Step>, k: nat)
    requires Run(c, states, steps) && k < |states|
    ensures states[k].disk.LogBytes() == Replay(states[k].events)
  {
    RunKeepsInv(c, states, steps, k);
  }

  /** Without mutators nothing is lost, overwritten, duplicated or left as a hole. */
  lemma ConservationOfWrites(c: Config, states: seq<State>, steps: seq<Step>, k: nat)
    requires Run(c, states, steps) && k < |states|
    requires forall j | 0 <= j < |steps| :: !steps[j].Mutate?
    ensures states[k].disk.LogBytes() == states[0].disk.LogBytes() + PutDown(states[k].events)
  {
    Conservation(c, states, steps, k);
    QuietHistory(c, states, steps, k);
    ReplayOfWrites(states[k].events);
  }

  /** The byte count a Write returns is the one the history keeps, and success
      means the whole record. */
  lemma ReturnedCount(c: Config, states: seq<State>, steps: seq<Step>, k: nat, t: Tid)
    requires Run(c, states, steps) && k < |states|
    requires t in states[k].pcs && states[k].pcs[t].Unlocking?
    ensures var s := states[k];
      && s.events != [] && s.events[|s.events| - 1] == Wrote(t, s.pcs[t].p, s.pcs[t].n)
      && s.pcs[t].n <= |s.pcs[t].p|
      && (s.pcs[t].ok ==> s.pcs[t].n == |s.pcs[t].p|)
  {
    RunKeepsInv(c, states, steps, k);
    assert ThreadOk(c, states[k], t);
  }

  ghost predicate SomeoneInside(s: State) {
    exists t | t in s.pcs :: InCriticalSection(s.pcs[t])
  }

  /** The part of the history that no longer changes. */
  ghost function Settled(s: State): seq<Event> {
    if SomeoneInside(s) && s.events != [] then s.events[..|s.events| - 1] else s.events
  }

  lemma StepSettles(c: Config, s: State, step: Step)
    requires Inv(c, s) && StepEnabled(c, s, step)
    ensures Settled(s) <= Settled(Next(c, s, step))
  {
    if step.Inside? {
      InsideSettles(c, s, step.t, step.a);
    } else if step.TakeLock? || step.Mutate? {
      LockingSettles(c, s, step);
    } else {
      OthersSettle(c, s, step);
    }
  }

  /** A step that neither takes nor drops the lock leaves whoever is inside there. */
  lemma StaysInside(c: Config, s: State, step: Step, t: Tid)
    requires StepEnabled(c, s, step) && !step.Inside? && !step.DropLock?
    requires t in s.pcs && InCriticalSection(s.pcs[t])
    ensures SomeoneInside(Next(c, s, step))
  {
    assert t in Next(c, s, step).pcs && InCriticalSection(Next(c, s, step).pcs[t]);
  }

  lemma OthersSettle(c: Config, s: State, step: Step)
    requires StepEnabled(c, s, step) && !step.Inside? && !step.TakeLock? && !step.Mutate?
    ensures Settled(s) <= Settled(Next(c, s, step))
  {
    assert Next(c, s, step).events == s.events;
    if SomeoneInside(s) && !step.DropLock? {
      var t :| t in s.pcs && InCriticalSection(s.pcs[t]);
      StaysInside(c, s, step, t);
    }
  }

  lemma InsideSettles(c: Config, s: State, t: Tid, a: Action)
    requires Inv(c, s) && StepEnabled(c, s, Inside(t, a))
    ensures Settled(s) <= Settled(Next(c, s, Inside(t, a)))
  {
    var s' := Next(c, s, Inside(t, a));
    assert ThreadOk(c, s, t) && InCriticalSection(s.pcs[t]);
    ActionKeepsInv(c, LocalOf(s, t), a);
    assert InCriticalSection(s'.pcs[t]);
  }

  lemma LockingSettles(c: Config, s: State, step: Step)
    requires Inv(c, s) && StepEnabled(c, s, step) && (step.TakeLock? || step.Mutate?)
    ensures Settled(s) <= Settled(Next(c, s, step))
  {
    var s' := Next(c, s, step);
    if step.TakeLock? {
      assert InCriticalSection(s'.pcs[step.t]);
      assert s'.events[..|s'.events| - 1] == s.events;
    } else {
      NobodyInside(c, s);
    }
  }

  ghost predicate Settles(s: State, s': State) {
    Settled(s) <= Settled(s')
  }

  lemma {:induction false} SettledStays(states: seq<State>, j: nat, k: nat)
    requires j <= k < |states|
    requires forall m | j <= m < k :: Settles(states[m], states[m + 1])
    ensures Settles(states[j], states[k])
    decreases k
  {
    if j < k {
      SettledStays(states, j, k - 1);
      assert Settles(states[k - 1], states[k - 1 + 1]);
    }
  }

  /** Once a Write has released the lock its bytes are never rewritten. */
  lemma HistoryIsFinal(c: Config, states: seq<State>, steps: seq<Step>, j: nat, k: nat)
    requires Run(c, states, steps) && j <= k < |states|
    ensures Settled(states[j]) <= Settled(states[k])
  {
    forall m | j <= m < k ensures Settles(states[m], states[m + 1]) {
      RunKeepsInv(c, states, steps, m);
      StepSettles(c, states[m], steps[m]);
    }
    SettledStays(states, j, k);
  }

  // ---- coherence and the size bound ----

  /** The instance's snapshot is stale: its mutex owner is inside logger.Write. */
  predicate StaleInstance(s: State, inst: Instance) {
    inst.mu.Some? && inst.mu.value in s.pcs && Stale(inst.fd, inst.last, s.pcs[inst.mu.value])
  }

  /** The logger has no descriptor, or lastFile is not set, or the descriptor is on
      that same file with the recorded size as its offset and cached size. */
  ghost predicate Coherent(s: State, inst: Instance) {
    inst.last.Some? && inst.fd.Some? ==>
      && inst.fd.value == Descriptor(inst.last.value.ino, inst.last.value.size, inst.last.value.size)
      && inst.fd.value.ino in s.disk.nodes
  }

  /** In every reachable state an instance's caches are coherent, except exactly
      between the first byte of a running logger.Write, or its move to another file,
      and the clearing of lastFile. */
  lemma DescriptorCoherence(c: Config, states: seq<State>, steps: seq<Step>, k: nat, i: nat)
    requires Run(c, states, steps) && k < |states| && i < |states[k].insts|
    ensures Coherent(states[k], states[k].insts[i]) <==> !StaleInstance(states[k], states[k].insts[i])
  {
    RunKeepsInv(c, states, steps, k);
    CoherentUnlessStale(c, states[k], i);
  }

  lemma CoherentUnlessStale(c: Config, s: State, i: nat)
    requires Inv(c, s) && i < |s.insts|
    ensures Coherent(s, s.insts[i]) <==> !StaleInstance(s, s.insts[i])
  {
    var inst := s.insts[i];
    assert InstanceOk(s, i);
    assert Coherent(s, inst) <==> SnapshotAgrees(inst.fd, inst.last);
    if inst.mu.Some? && Writing(s.pcs[inst.mu.value]) {
      var t := inst.mu.value;
      assert ThreadOk(c, s, t) && InCriticalSection(s.pcs[t]);
      DisagreesExactlyWhenStale(c, LocalOf(s, t));
    }
  }

  /** After every successful refresh, and after every chunk, the descriptor in use
      stands at the true end of the file now at the path. */
  lemma NextWriteLandsAtEnd(c: Config, states: seq<State>, steps: seq<Step>, k: nat, t: Tid)
    requires Run(c, states, steps) && k < |states| && t in states[k].pcs
    requires states[k].pcs[t].Prepare? || states[k].pcs[t].Landing?
    ensures t.inst < |states[k].insts|
    ensures var fd := states[k].insts[t.inst].fd;
      && (states[k].pcs[t].Landing? ==> fd.Some?)
      && (fd.Some? ==>
            && states[k].disk.active == Some(fd.value.ino)
            && fd.value.off == fd.value.size == |states[k].disk.ActiveBytes()|)
  {
    RunKeepsInv(c, states, steps, k);
    assert ThreadOk(c, states[k], t);
  }

  /** A successful Write of a record no longer than the limit leaves the active
      file within the limit, whatever other writers and mutators did before. */
  lemma SizeBound(c: Config, states: seq<State>, steps: seq<Step>, k: nat, t: Tid)
    requires Run(c, states, steps) && k < |states| && t in states[k].pcs
    requires states[k].pcs[t].Unlocking? && states[k].pcs[t].ok && |states[k].pcs[t].p| <= c.max
    ensures |states[k].disk.ActiveBytes()| <= c.max
  {
    RunKeepsInv(c, states, steps, k);
    assert ThreadOk(c, states[k], t);
  }

  // ---- progress ----

  function Actor(step: Step): Option<Tid> {
    match step
    case MutatorLocks(_) => None
    case Mutate(_, _) => None
    case MutatorUnlocks(_) => None
    case Reclaim(_) => None
    case _ => Some(step.t)
  }

  /** Steps in which the operating system reports an error. */
  predicate Fails(step: Step) {
    match step
    case LockFails(_) => true
    case DropLock(_, ok) => !ok
    case CloseLogger(_, ok, _) => !ok
    case Inside(_, StatBefore(ok)) => !ok
    case Inside(_, Reopen(ok, _)) => !ok
    case Inside(_, OpenNewFails(_)) => true
    case Inside(_, PrepareFails) => true
    case Inside(_, WriteReturns(ok)) => !ok
    case Inside(_, StatAfter(ok)) => !ok
    case _ => false
  }

  /** Inside the critical section the next action never has to fail. */
  lemma InsideCanGoOn(c: Config, l: Local) returns (a: Action)
    requires LocalInv(c, l) && !l.pc.Unlocking?
    ensures Enabled(c, l, a) && forall t :: !Fails(Inside(t, a))
  {
    match l.pc
    case StatPath(_) => a := StatBefore(true);
    case Decide(_, seen) => a := if c.trusting && Matches(l.last, seen) then Trust else Reopen(true, true);
    case Prepare(p) =>
      var ino := FreshIno(l.disk.nodes.Keys);
      if NewFileAllowed(c, l, p) {
        a := OpenNew(ino, 0);
      } else {
        a := if l.fd.Some? then KeepOpen else OpenExisting;
      }
    case Landing(p, n) => a := if n < |p| then Land(|p| - n, 0) else WriteReturns(true);
    case Forget(_, _, _) => a := ForgetLast;
    case Remember(_, _) => a := StatAfter(true);
  }

  predicate Pending(s: State, t: Tid) {
    t in s.pcs && !s.pcs[t].Idle?
  }

  /** A step of a pending call of instance `i` that need not fail. */
  ghost predicate GoesOn(c: Config, s: State, i: nat, step: Step) {
    && StepEnabled(c, s, step) && !Fails(step)
    && Actor(step).Some? && Pending(s, Actor(step).value) && Actor(step).value.inst == i
  }

  /** The goroutine that has the mutex waits for a file lock held elsewhere. */
  predicate Blocked(s: State, i: nat) {
    && i < |s.insts| && s.insts[i].mu.Some? && s.insts[i].mu.value in s.pcs
    && s.pcs[s.insts[i].mu.value].WantLock?
    && !LockAvailable(s, i)
  }

  lemma InstanceGoesOn(c: Config, s: State, t: Tid) returns (step: Step)
    requires Inv(c, s) && Pending(s, t) && !Blocked(s, t.inst)
    ensures GoesOn(c, s, t.inst, step)
  {
    assert ThreadOk(c, s, t) && InstanceOk(s, t.inst);
    var u := if s.insts[t.inst].mu.Some? then s.insts[t.inst].mu.value else t;
    assert ThreadOk(c, s, u);
    if InCriticalSection(s.pcs[u]) {
      if s.pcs[u].Unlocking? {
        step := DropLock(u, true);
      } else {
        var a := InsideCanGoOn(c, LocalOf(s, u));
        step := Inside(u, a);
      }
    } else {
      match s.pcs[u]
      case WantLock(_) => step := TakeLock(u);
      case Closing => step := CloseLogger(u, true, true);
      case WantMu(_) => step := TakeMu(u);
      case CloseWantMu => step := TakeMu(u);
      case _ => step := DropMu(u);
    }
  }

  lemma BlockedWaits(c: Config, s: State, i: nat, step: Step)
    requires Inv(c, s) && Blocked(s, i)
    ensures !GoesOn(c, s, i, step)
  {
    if Actor(step).Some? && Pending(s, Actor(step).value) && Actor(step).value.inst == i {
      assert ThreadOk(c, s, Actor(step).value) && InstanceOk(s, i);
    }
  }

  /** An instance with a pending call can go on exactly unless it is blocked: the
      mutex, taken first, never keeps it waiting on itself. */
  lemma WaitsExactlyWhenBlocked(c: Config, s: State, t: Tid)
    requires Inv(c, s) && Pending(s, t)
    ensures (exists step :: GoesOn(c, s, t.inst, step)) <==> !Blocked(s, t.inst)
  {
    if Blocked(s, t.inst) {
      forall step ensures !GoesOn(c, s, t.inst, step) {
        BlockedWaits(c, s, t.inst, step);
      }
    } else {
      var step := InstanceGoesOn(c, s, t);
    }
  }

  /** While a call is pending and the file lock is not held from outside, some
      instance with a pending call goes on: the fixed order, mutex first and file
      lock second, cannot deadlock. */
  lemma NoDeadlock(c: Config, s: State, t: Tid) returns (i: nat, step: Step)
    requires Inv(c, s) && Pending(s, t)
    requires s.lock.Some? ==> SomeoneInside(s)
    ensures GoesOn(c, s, i, step)
  {
    var u := t;
    if SomeoneInside(s) {
      u :| u in s.pcs && InCriticalSection(s.pcs[u]);
      assert ThreadOk(c, s, u);
    }
    i := u.inst;
    step := InstanceGoesOn(c, s, u);
  }

  /** The instance that has the file lock although none of its goroutines is inside. */
  ghost function Leak(s: State): Option<nat> {
    if s.lock.Some? && s.lock.value.Writer? && !SomeoneInside(s) then Some(s.lock.value.inst) else None
  }

  /** Who leaked the lock, read off a run: its last attempt to unlock failed, and it
      has not locked again since. */
  function LeakedBy(steps: seq<Step>): Option<nat> {
    if steps == [] then None else
      match steps[|steps| - 1]
      case TakeLock(_) => None
      case DropLock(t, ok) => if ok then None else Some(t.inst)
      case _ => LeakedBy(steps[..|steps| - 1])
  }

  lemma StepLeaks(c: Config, s: State, step: Step)
    requires Inv(c, s) && StepEnabled(c, s, step)
    ensures Leak(Next(c, s, step)) ==
      match step
      case TakeLock(_) => None
      case DropLock(t, ok) => if ok then None else Some(t.inst)
      case _ => Leak(s)
  {
    var s' := Next(c, s, step);
    if step.TakeLock? || step.Inside? {
      assert InCriticalSection(s'.pcs[step.t]) && (step.Inside? ==> InCriticalSection(s.pcs[step.t]));
    } else if step.DropLock? {
      UnlockEmpties(c, s, step.t, step.ok);
    } else {
      OthersLeak(c, s, step);
    }
  }

  lemma UnlockEmpties(c: Config, s: State, t: Tid, ok: bool)
    requires Inv(c, s) && StepEnabled(c, s, DropLock(t, ok))
    ensures s.lock == Some(Writer(t.inst)) && !SomeoneInside(Next(c, s, DropLock(t, ok)))
  {
    var s' := Next(c, s, DropLock(t, ok));
    assert ThreadOk(c, s, t);
    forall u | u in s'.pcs ensures !InCriticalSection(s'.pcs[u]) {
      if u != t && InCriticalSection(s.pcs[u]) { AtMostOneInside(c, s, t, u); }
    }
  }

  /** Taking the lock is the only way in. */
  lemma NobodyEnters(c: Config, s: State, step: Step, t: Tid)
    requires StepEnabled(c, s, step) && !step.TakeLock? && !step.Inside?
    requires t in Next(c, s, step).pcs && InCriticalSection(Next(c, s, step).pcs[t])
    ensures t in s.pcs && InCriticalSection(s.pcs[t])
  {
  }

  lemma OthersLeaveWhoIsInside(c: Config, s: State, step: Step)
    requires StepEnabled(c, s, step) && !step.TakeLock? && !step.DropLock? && !step.Inside?
    ensures SomeoneInside(Next(c, s, step)) <==> SomeoneInside(s)
  {
    if t :| t in s.pcs && InCriticalSection(s.pcs[t]) {
      StaysInside(c, s, step, t);
    }
    if t :| t in Next(c, s, step).pcs && InCriticalSection(Next(c, s, step).pcs[t]) {
      NobodyEnters(c, s, step, t);
    }
  }

  lemma OthersLeak(c: Config, s: State, step: Step)
    requires StepEnabled(c, s, step) && !step.TakeLock? && !step.DropLock? && !step.Inside?
    ensures Leak(Next(c, s, step)) == Leak(s)
  {
    OthersLeaveWhoIsInside(c, s, step);
  }

  /** The file lock is held with nobody inside exactly after a failed unlock, by that
      instance and until it locks again. */
  lemma {:induction false} LeakedExactlyByFailedUnlock(c: Config, states: seq<State>, steps: seq<Step>, k: nat)
    requires Run(c, states, steps) && k < |states|
    ensures Leak(states[k]) == LeakedBy(steps[..k])
  {
    if k > 0 {
      LeakedExactlyByFailedUnlock(c, states, steps, k - 1);
      RunKeepsInv(c, states, steps, k - 1);
      StepLeaks(c, states[k - 1], steps[k - 1]);
      assert steps[..k][..k - 1] == steps[..k - 1];
    }
  }

  /** Some pending call can go on exactly if some instance with a pending call is
      not blocked. */
  lemma SomeCallGoesOn(c: Config, s: State)
    requires Inv(c, s)
    ensures (exists i, step :: GoesOn(c, s, i, step)) <==> exists t :: Pending(s, t) && !Blocked(s, t.inst)
  {
    if t :| Pending(s, t) && !Blocked(s, t.inst) {
      var step := InstanceGoesOn(c, s, t);
    }
    forall i, step | GoesOn(c, s, i, step) ensures exists t :: Pending(s, t) && !Blocked(s, t.inst) {
      if Blocked(s, i) { BlockedWaits(c, s, i, step); }
    }
  }

  /** In every reachable state with a pending call: if a mutator has the file lock it
      can release it; if an unlock has failed, calls of the instance that leaked the
      lock go on, and the others go on exactly if they are not blocked; otherwise
      some pending call goes on. */
  lemma Progress(c: Config, states: seq<State>, steps: seq<Step>, k: nat, t: Tid)
    requires Run(c, states, steps) && k < |states| && Pending(states[k], t)
    ensures var s := states[k];
      && ((exists i, step :: GoesOn(c, s, i, step)) <==> exists u :: Pending(s, u) && !Blocked(s, u.inst))
      && (s.lock.Some? && s.lock.value.Mutator? ==> StepEnabled(c, s, MutatorUnlocks(s.lock.value.id)))
      && (LeakedBy(steps[..k]) == Some(t.inst) ==> exists step :: GoesOn(c, s, t.inst, step))
      && ((s.lock.Some? ==> s.lock.value.Writer?) && LeakedBy(steps[..k]).None? ==>
            exists i, step :: GoesOn(c, s, i, step))
  {
    var s := states[k];
    RunKeepsInv(c, states, steps, k);
    LeakedExactlyByFailedUnlock(c, states, steps, k);
    SomeCallGoesOn(c, s);
    if LeakedBy(steps[..k]) == Some(t.inst) {
      var step := InstanceGoesOn(c, s, t);
    }
    if (s.lock.Some? ==> s.lock.value.Writer?) && LeakedBy(steps[..k]).None? {
      var i, step := NoDeadlock(c, s, t);
    }
  }

  /** An upper bound on the own steps a call still has to take. */
  function Rank(pc: Pc): nat {
    match pc
    case Idle => 0
    case WantMu(p) => |p| + 10
    case WantLock(p) => |p| + 9
    case StatPath(p) => |p| + 8
    case Decide(p, _) => |p| + 7
    case Prepare(p) => |p| + 6
    case Landing(p, n) => 5 + if n <= |p| then |p| - n else 0
    case Forget(_, _, _) => 4
    case Remember(_, _) => 3
    case Unlocking(_, _, _) => 2
    case Returning(_, _) => 1
    case CloseWantMu => 3
    case Closing => 2
    case CloseReturning(_) => 1
  }

  function OwnSteps(steps: seq<Step>, t: Tid): nat {
    if steps == [] then 0
    else OwnSteps(steps[..|steps| - 1], t) + if Actor(steps[|steps| - 1]) == Some(t) then 1 else 0
  }

  /** The goroutine makes a new call. */
  predicate Starts(step: Step, t: Tid) {
    step == CallClose(t) || (step.CallWrite? && step.t == t)
  }

  lemma ActionDescends(c: Config, l: Local, a: Action)
    requires LocalInv(c, l) && Enabled(c, l, a)
    ensures Rank(Apply(c, l, a).pc) < Rank(l.pc)
  {
  }

  /** A step lowers the rank of the goroutine that takes it and raises no other. */
  ghost predicate Descends(s: State, step: Step, s': State, t: Tid) {
    t in s.pcs ==>
      && t in s'.pcs
      && Rank(s'.pcs[t]) + (if Actor(step) == Some(t) then 1 else 0) <= Rank(s.pcs[t])
  }

  lemma StepDescends(c: Config, s: State, step: Step, t: Tid)
    requires Inv(c, s) && StepEnabled(c, s, step) && !Starts(step, t)
    ensures Descends(s, step, Next(c, s, step), t)
  {
    if step.Inside? {
      assert ThreadOk(c, s, step.t);
      ActionDescends(c, LocalOf(s, step.t), step.a);
    }
  }

  lemma {:induction false} DescentsAddUp(states: seq<State>, steps: seq<Step>, t: Tid)
    requires |states| == |steps| + 1 && t in states[0].pcs
    requires forall m | 0 <= m < |steps| :: Descends(states[m], steps[m], states[m + 1], t)
    ensures t in states[|steps|].pcs
    ensures OwnSteps(steps, t) + Rank(states[|steps|].pcs[t]) <= Rank(states[0].pcs[t])
    decreases |steps|
  {
    if steps != [] {
      DescentsAddUp(states[..|steps|], steps[..|steps| - 1], t);
      assert Descends(states[|steps| - 1], steps[|steps| - 1], states[|steps|], t);
    }
  }

  /** Every Write of p returns within |p| + 10 of its own steps and every Close
      within 3, on every path including the early error returns: the steps already
      taken since any point of the call plus the rank never exceed the rank there. */
  lemma CallsAreBounded(c: Config, states: seq<State>, steps: seq<Step>, j: nat, k: nat, t: Tid)
    requires Run(c, states, steps) && j <= k < |states| && t in states[j].pcs
    requires forall m | j <= m < k :: !Starts(steps[m], t)
    ensures t in states[k].pcs
    ensures OwnSteps(steps[j..k], t) + Rank(states[k].pcs[t]) <= Rank(states[j].pcs[t])
  {
    forall m | j <= m < k ensures Descends(states[m], steps[m], states[m + 1], t) {
      RunKeepsInv(c, states, steps, m);
      StepDescends(c, states[m], steps[m], t);
    }
    DescentsAddUp(states[j..k + 1], steps[j..k], t);
  }
}
