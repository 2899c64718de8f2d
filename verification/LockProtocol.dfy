/** Any number of writer instances, each shared by any number of goroutines, and
    any number of lock-holding mutators, interleaved step by step over one log
    path. `w.mu` guards an instance; the sidecar file lock guards the path. */
module LockProtocol {
  import opened Options
  import opened Storage
  import opened CriticalSection

  datatype Tid = Tid(inst: nat, thread: nat)

  datatype Holder = Writer(inst: nat) | Mutator(id: nat)

  /** One lockedWriteCloser: its mutex and what refresh and the logger cache. */
  datatype Instance = Instance(mu: Option<Tid>, fd: Option<Descriptor>, last: Option<Info>)

  /** The history, in file-lock order: which prefix p[..n] each Write put down,
      and what the log read after each change by a mutator. */
  datatype Event = Wrote(tid: Tid, p: Bytes, n: nat) | Mutated(log: Bytes)

  datatype State = State(
    disk: Disk,
    insts: seq<Instance>,
    pcs: map<Tid, Pc>,
    lock: Option<Holder>,
    events: seq<Event>)

  datatype Step =
    | CallWrite(t: Tid, p: Bytes)
    | CallClose(t: Tid)
    | TakeMu(t: Tid)
    | TakeLock(t: Tid)
    | LockFails(t: Tid)
    | Inside(t: Tid, a: Action)
    | DropLock(t: Tid, ok: bool)
    | DropMu(t: Tid)
    | CloseLogger(t: Tid, ok: bool, dropped: bool)
    | MutatorLocks(id: nat)
    | Mutate(id: nat, disk: Disk)
    | MutatorUnlocks(id: nat)
    | Reclaim(ino: Ino)

  /** The log that a history stands for. */
  function Replay(events: seq<Event>): Bytes {
    if events == [] then [] else
      match events[|events| - 1]
      case Wrote(_, p, n) => Replay(events[..|events| - 1]) + p[..if n <= |p| then n else |p|]
      case Mutated(log) => log
  }

  predicate HoldsMu(pc: Pc) {
    InCriticalSection(pc) || pc.WantLock? || pc.Returning? || pc.Closing? || pc.CloseReturning?
  }

  function LocalOf(s: State, t: Tid): Local
    requires t in s.pcs && t.inst < |s.insts|
  {
    Local(s.disk, s.insts[t.inst].fd, s.insts[t.inst].last, s.pcs[t])
  }

  /** An inode nothing refers to: not linked, and no descriptor open on it. */
  ghost predicate Unreferenced(s: State, ino: Ino) {
    && s.disk.active != Some(ino)
    && ino !in s.disk.archives
    && forall i | 0 <= i < |s.insts| :: s.insts[i].fd.Some? ==> s.insts[i].fd.value.ino != ino
  }

  /** A mutator may rename, trim, replace or remove anything and set any times;
      it cannot recycle an inode that a descriptor still pins. */
  ghost predicate KeepsPinned(s: State, disk: Disk) {
    disk.Valid() && forall i | 0 <= i < |s.insts| :: Pinned(disk, s.insts[i].fd)
  }

  /** Locking a Flock object that this instance already holds succeeds at once. */
  predicate LockAvailable(s: State, inst: nat) {
    s.lock == None || s.lock == Some(Writer(inst))
  }

  predicate Owns(s: State, t: Tid) {
    t in s.pcs && t.inst < |s.insts|
  }

  ghost predicate StepEnabled(c: Config, s: State, step: Step) {
    match step
    case CallWrite(t, _) => Owns(s, t) && s.pcs[t].Idle?
    case CallClose(t) => Owns(s, t) && s.pcs[t].Idle?
    case TakeMu(t) => Owns(s, t) && (s.pcs[t].WantMu? || s.pcs[t].CloseWantMu?) && s.insts[t.inst].mu.None?
    case TakeLock(t) => Owns(s, t) && s.pcs[t].WantLock? && LockAvailable(s, t.inst)
    case LockFails(t) => Owns(s, t) && s.pcs[t].WantLock?
    case Inside(t, a) => Owns(s, t) && Enabled(c, LocalOf(s, t), a)
    case DropLock(t, _) => Owns(s, t) && s.pcs[t].Unlocking?
    case DropMu(t) => Owns(s, t) && (s.pcs[t].Returning? || s.pcs[t].CloseReturning?)
    case CloseLogger(t, ok, dropped) => Owns(s, t) && s.pcs[t].Closing? && (ok ==> dropped)
    case MutatorLocks(_) => s.lock.None?
    case Mutate(id, disk) => s.lock == Some(Mutator(id)) && KeepsPinned(s, disk)
    case MutatorUnlocks(id) => s.lock == Some(Mutator(id))
    case Reclaim(ino) => Unreferenced(s, ino)
  }

  function Move(s: State, t: Tid, pc: Pc): State {
    s.(pcs := s.pcs[t := pc])
  }

  function SetMu(s: State, i: nat, mu: Option<Tid>): State
    requires i < |s.insts|
  {
    s.(insts := s.insts[i := s.insts[i].(mu := mu)])
  }

  /** Bring the latest entry of the history up to date with the bytes now down. */
  function Retell(events: seq<Event>, n: nat): seq<Event> {
    if events != [] && events[|events| - 1].Wrote?
    then events[..|events| - 1] + [events[|events| - 1].(n := n)]
    else events
  }

  function Next(c: Config, s: State, step: Step): State
    requires StepEnabled(c, s, step)
  {
    match step
    case CallWrite(t, p) => Move(s, t, WantMu(p))
    case CallClose(t) => Move(s, t, CloseWantMu)
    case TakeMu(t) =>
      Move(SetMu(s, t.inst, Some(t)), t, if s.pcs[t].WantMu? then WantLock(s.pcs[t].p) else Closing)
    case TakeLock(t) =>
      Move(s, t, StatPath(s.pcs[t].p)).(
        lock := Some(Writer(t.inst)),
        events := s.events + [Wrote(t, s.pcs[t].p, 0)])
    case LockFails(t) => Move(s, t, Returning(0, false))
    case Inside(t, a) =>
      var l := Apply(c, LocalOf(s, t), a);
      Move(s, t, l.pc).(
        disk := l.disk,
        insts := s.insts[t.inst := s.insts[t.inst].(fd := l.fd, last := l.last)],
        events := Retell(s.events, BytesDown(l.pc)))
    case DropLock(t, ok) =>
      Move(s, t, Returning(s.pcs[t].n, s.pcs[t].ok)).(lock := if ok then None else s.lock)
    case DropMu(t) => Move(SetMu(s, t.inst, None), t, Idle)
    case CloseLogger(t, ok, dropped) =>
      Move(s, t, CloseReturning(ok)).(
        insts := s.insts[t.inst := s.insts[t.inst].(fd := if dropped then None else s.insts[t.inst].fd)])
    case MutatorLocks(id) => s.(lock := Some(Mutator(id)))
    case Mutate(_, disk) => s.(disk := disk, events := s.events + [Mutated(disk.LogBytes())])
    case MutatorUnlocks(_) => s.(lock := None)
    case Reclaim(ino) => s.(disk := s.disk.Reclaim(ino))
  }

  /** A new writer: its logger may be open already, its snapshot is not taken yet. */
  ghost predicate Wrapped(disk: Disk, inst: Instance) {
    inst.mu.None? && inst.last.None? && Pinned(disk, inst.fd)
  }

  ghost predicate Init(s: State) {
    && s.disk.Valid()
    && (forall i | 0 <= i < |s.insts| :: Wrapped(s.disk, s.insts[i]))
    && (forall t | t in s.pcs :: t.inst < |s.insts| && s.pcs[t].Idle?)
    && s.lock.None?
    && s.events == [Mutated(s.disk.LogBytes())]
  }

  // ---- the inductive invariant ----

  /** Either the instance's cache is coherent, or the goroutine that owns its
      mutex is inside the window where lastFile has not been cleared yet. */
  ghost predicate InstanceOk(s: State, i: nat)
    requires i < |s.insts|
  {
    var inst := s.insts[i];
    && Pinned(s.disk, inst.fd)
    && (inst.mu.Some? ==> inst.mu.value in s.pcs && inst.mu.value.inst == i && HoldsMu(s.pcs[inst.mu.value]))
    && (SnapshotAgrees(inst.fd, inst.last) || (inst.mu.Some? && Writing(s.pcs[inst.mu.value])))
  }

  ghost predicate InsideOk(c: Config, s: State, t: Tid)
    requires Owns(s, t)
  {
    && s.lock == Some(Writer(t.inst))
    && LocalInv(c, LocalOf(s, t))
    && s.events != []
    && s.events[|s.events| - 1] == Wrote(t, s.pcs[t].p, BytesDown(s.pcs[t]))
  }

  ghost predicate ThreadOk(c: Config, s: State, t: Tid)
    requires t in s.pcs
  {
    && t.inst < |s.insts|
    && (HoldsMu(s.pcs[t]) ==> s.insts[t.inst].mu == Some(t))
    && (InCriticalSection(s.pcs[t]) ==> InsideOk(c, s, t))
  }

  ghost predicate Inv(c: Config, s: State) {
    && s.disk.Valid()
    && (forall i | 0 <= i < |s.insts| :: InstanceOk(s, i))
    && (forall t | t in s.pcs :: ThreadOk(c, s, t))
    && s.disk.LogBytes() == Replay(s.events)
  }

  lemma InitInv(c: Config, s: State)
    requires Init(s)
    ensures Inv(c, s)
  {
  }

  /** Only one goroutine of all instances is inside: within an instance by the
      mutex, across instances by the file lock. */
  lemma AtMostOneInside(c: Config, s: State, t: Tid, u: Tid)
    requires Inv(c, s) && t in s.pcs && u in s.pcs
    requires InCriticalSection(s.pcs[t]) && InCriticalSection(s.pcs[u])
    ensures t == u
  {
    assert ThreadOk(c, s, t) && ThreadOk(c, s, u);
  }

  lemma ReplayRetell(events: seq<Event>, n: nat)
    requires events != [] && events[|events| - 1].Wrote?
    requires events[|events| - 1].n <= n <= |events[|events| - 1].p|
    ensures var e := events[|events| - 1];
      Replay(Retell(events, n)) == Replay(events) + e.p[e.n..n]
  {
    var e := events[|events| - 1];
    assert Retell(events, n)[..|events| - 1] == events[..|events| - 1];
    assert e.p[..n] == e.p[..e.n] + e.p[e.n..n];
  }

  lemma InsideTells(c: Config, s: State, t: Tid, a: Action)
    requires Inv(c, s) && StepEnabled(c, s, Inside(t, a))
    ensures var s' := Next(c, s, Inside(t, a));
      && LocalOf(s', t) == Apply(c, LocalOf(s, t), a)
      && s'.events == Retell(s.events, BytesDown(s'.pcs[t]))
      && LocalInv(c, LocalOf(s, t))
      && s.events != [] && s.events[|s.events| - 1] == Wrote(t, s.pcs[t].p, BytesDown(s.pcs[t]))
  {
    assert ThreadOk(c, s, t);
  }

  lemma InsideKeepsLog(c: Config, s: State, t: Tid, a: Action)
    requires Inv(c, s) && StepEnabled(c, s, Inside(t, a))
    ensures var s' := Next(c, s, Inside(t, a));
      && s'.disk.Valid()
      && InsideOk(c, s', t)
      && s'.disk.LogBytes() == Replay(s'.events)
      && s.disk.nodes.Keys <= s'.disk.nodes.Keys
  {
    var s' := Next(c, s, Inside(t, a));
    InsideTells(c, s, t, a);
    ActionKeepsInv(c, LocalOf(s, t), a);
    ReplayRetell(s.events, BytesDown(s'.pcs[t]));
    assert s.lock == Some(Writer(t.inst)) by { assert ThreadOk(c, s, t); }
  }

  /** A goroutine outside the critical section is unaffected by the others. */
  lemma BystanderOk(c: Config, s: State, s': State, u: Tid)
    requires u in s.pcs && ThreadOk(c, s, u) && !InCriticalSection(s.pcs[u])
    requires u in s'.pcs && s'.pcs[u] == s.pcs[u] && |s'.insts| == |s.insts|
    requires s'.insts[u.inst].mu == s.insts[u.inst].mu || !HoldsMu(s.pcs[u])
    ensures ThreadOk(c, s', u)
  {
  }

  lemma InsideKeepsInstance(c: Config, s: State, t: Tid, a: Action, i: nat)
    requires Inv(c, s) && StepEnabled(c, s, Inside(t, a)) && i < |s.insts|
    ensures InstanceOk(Next(c, s, Inside(t, a)), i)
  {
    InsideKeepsLog(c, s, t, a);
    assert ThreadOk(c, s, t) && InstanceOk(s, i);
  }

  lemma InsideKeepsInv(c: Config, s: State, t: Tid, a: Action)
    requires Inv(c, s) && StepEnabled(c, s, Inside(t, a))
    ensures Inv(c, Next(c, s, Inside(t, a)))
  {
    InsideKeepsLog(c, s, t, a);
    var s' := Next(c, s, Inside(t, a));
    assert ThreadOk(c, s, t);
    forall i | 0 <= i < |s'.insts| ensures InstanceOk(s', i) {
      InsideKeepsInstance(c, s, t, a, i);
    }
    forall u | u in s'.pcs ensures ThreadOk(c, s', u) {
      if u != t {
        assert !InCriticalSection(s.pcs[u]) by {
          if InCriticalSection(s.pcs[u]) { AtMostOneInside(c, s, t, u); }
        }
        BystanderOk(c, s, s', u);
      }
    }
  }

  /** What the environment may do to a state: the disk changes only in ways that
      keep pinned inodes, and while a writer is inside not at all. */
  ghost predicate EnvironmentMoves(s: State, s': State) {
    && s'.insts == s.insts && s'.pcs == s.pcs
    && s'.disk.Valid()
    && (forall i | 0 <= i < |s.insts| :: Pinned(s.disk, s.insts[i].fd) ==> Pinned(s'.disk, s.insts[i].fd))
    && s'.disk.LogBytes() == Replay(s'.events)
  }

  lemma EnvironmentKeepsInv(c: Config, s: State, s': State)
    requires Inv(c, s) && EnvironmentMoves(s, s')
    requires forall t | t in s.pcs && InCriticalSection(s.pcs[t]) :: InsideOk(c, s', t)
    ensures Inv(c, s')
  {
    forall i | 0 <= i < |s'.insts| ensures InstanceOk(s', i) {
      assert InstanceOk(s, i);
    }
    forall u | u in s'.pcs ensures ThreadOk(c, s', u) {
      assert ThreadOk(c, s, u);
    }
  }

  lemma ReclaimKeepsInv(c: Config, s: State, ino: Ino)
    requires Inv(c, s) && Unreferenced(s, ino)
    ensures Inv(c, Next(c, s, Reclaim(ino)))
  {
    ReclaimKeepsLog(s.disk, ino);
    var s' := Next(c, s, Reclaim(ino));
    forall t | t in s.pcs && InCriticalSection(s.pcs[t]) ensures InsideOk(c, s', t) {
      assert ThreadOk(c, s, t);
    }
    EnvironmentKeepsInv(c, s, s');
  }

  lemma NobodyInside(c: Config, s: State)
    requires Inv(c, s) && (s.lock.Some? ==> s.lock.value.Mutator?)
    ensures forall t | t in s.pcs :: !InCriticalSection(s.pcs[t])
  {
    forall t | t in s.pcs ensures !InCriticalSection(s.pcs[t]) {
      assert ThreadOk(c, s, t);
    }
  }

  lemma MutatorKeepsInv(c: Config, s: State, step: Step)
    requires Inv(c, s) && StepEnabled(c, s, step)
    requires step.MutatorLocks? || step.Mutate? || step.MutatorUnlocks?
    ensures Inv(c, Next(c, s, step))
  {
    NobodyInside(c, s);
    EnvironmentKeepsInv(c, s, Next(c, s, step));
  }

  /** The steps of a call that stay outside the critical section. */
  predicate Outside(step: Step) {
    step.CallWrite? || step.CallClose? || step.TakeMu? || step.LockFails? || step.DropMu? || step.CloseLogger?
  }

  lemma OutsideKeepsInstance(c: Config, s: State, step: Step, i: nat)
    requires Inv(c, s) && StepEnabled(c, s, step) && Outside(step) && i < |s.insts|
    ensures InstanceOk(Next(c, s, step), i)
  {
    assert ThreadOk(c, s, step.t) && InstanceOk(s, i);
  }

  lemma OutsideKeepsInv(c: Config, s: State, step: Step)
    requires Inv(c, s) && StepEnabled(c, s, step) && Outside(step)
    ensures Inv(c, Next(c, s, step))
  {
    var s' := Next(c, s, step);
    assert ThreadOk(c, s, step.t) && InstanceOk(s, step.t.inst);
    forall i | 0 <= i < |s'.insts| ensures InstanceOk(s', i) {
      OutsideKeepsInstance(c, s, step, i);
    }
    forall u | u in s'.pcs ensures ThreadOk(c, s', u) {
      assert ThreadOk(c, s, u);
      if InCriticalSection(s'.pcs[u]) {
        assert LocalOf(s', u) == LocalOf(s, u);
      } else if u != step.t {
        BystanderOk(c, s, s', u);
      }
    }
  }

  lemma NobodyElseInside(c: Config, s: State, t: Tid, u: Tid)
    requires Inv(c, s) && StepEnabled(c, s, TakeLock(t)) && u in s.pcs
    ensures !InCriticalSection(s.pcs[u]) && ThreadOk(c, s, u)
  {
    assert ThreadOk(c, s, t) && ThreadOk(c, s, u);
  }

  lemma TakeLockKeepsInstance(c: Config, s: State, t: Tid, i: nat)
    requires Inv(c, s) && StepEnabled(c, s, TakeLock(t)) && i < |s.insts|
    ensures InstanceOk(Next(c, s, TakeLock(t)), i)
  {
    assert InstanceOk(s, i) && ThreadOk(c, s, t);
  }

  lemma TakerIsInside(c: Config, s: State, t: Tid)
    requires Inv(c, s) && StepEnabled(c, s, TakeLock(t))
    ensures var s' := Next(c, s, TakeLock(t));
      ThreadOk(c, s', t) && s'.disk.LogBytes() == Replay(s'.events)
  {
    var s' := Next(c, s, TakeLock(t));
    assert ThreadOk(c, s, t) && InstanceOk(s, t.inst);
    assert s'.events[..|s.events|] == s.events;
  }

  lemma TakeLockKeepsInv(c: Config, s: State, t: Tid)
    requires Inv(c, s) && StepEnabled(c, s, TakeLock(t))
    ensures Inv(c, Next(c, s, TakeLock(t)))
  {
    var s' := Next(c, s, TakeLock(t));
    TakerIsInside(c, s, t);
    forall i | 0 <= i < |s'.insts| ensures InstanceOk(s', i) {
      TakeLockKeepsInstance(c, s, t, i);
    }
    forall u | u in s'.pcs ensures ThreadOk(c, s', u) {
      if u != t {
        NobodyElseInside(c, s, t, u);
        BystanderOk(c, s, s', u);
      }
    }
  }

  lemma DropLockKeepsInv(c: Config, s: State, t: Tid, ok: bool)
    requires Inv(c, s) && StepEnabled(c, s, DropLock(t, ok))
    ensures Inv(c, Next(c, s, DropLock(t, ok)))
  {
    var s' := Next(c, s, DropLock(t, ok));
    assert ThreadOk(c, s, t);
    forall i | 0 <= i < |s'.insts| ensures InstanceOk(s', i) {
      assert InstanceOk(s, i);
    }
    forall u | u in s'.pcs ensures ThreadOk(c, s', u) {
      assert ThreadOk(c, s, u);
      if u != t && InCriticalSection(s.pcs[u]) { AtMostOneInside(c, s, t, u); }
    }
  }

  /** Every step of every writer and of the environment keeps the invariant. */
  lemma StepKeepsInv(c: Config, s: State, step: Step)
    requires Inv(c, s) && StepEnabled(c, s, step)
    ensures Inv(c, Next(c, s, step))
  {
    match step
    case Inside(t, a) => InsideKeepsInv(c, s, t, a);
    case TakeLock(t) => TakeLockKeepsInv(c, s, t);
    case DropLock(t, ok) => DropLockKeepsInv(c, s, t, ok);
    case Reclaim(ino) => ReclaimKeepsInv(c, s, ino);
    case MutatorLocks(_) => MutatorKeepsInv(c, s, step);
    case Mutate(_, _) => MutatorKeepsInv(c, s, step);
    case MutatorUnlocks(_) => MutatorKeepsInv(c, s, step);
    case _ => OutsideKeepsInv(c, s, step);
  }
}
