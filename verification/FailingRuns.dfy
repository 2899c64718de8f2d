/** Two runs in which something fails that holds almost always: a snapshot that is
    out of date, and a file lock that nobody gives back. */
module FailingRuns {
  import opened Options
  import opened Storage
  import opened CriticalSection
  import opened LockProtocol
  import opened WriterRuns
  import opened LockedWriter

  const EMPTY := Disk(None, map[], [])

  // ---- a failed unlock ----

  const T := Tid(0, 0)
  const U := Tid(1, 0)

  /** Two instances with one goroutine each, before any file exists. */
  function Two(muT: bool, pcT: Pc, muU: bool, pcU: Pc, lock: Option<Holder>, events: seq<Event>): State {
    State(EMPTY,
          [Instance(if muT then Some(T) else None, None, None), Instance(if muU then Some(U) else None, None, None)],
          map[T := pcT, U := pcU], lock, [Mutated([])] + events)
  }

  function FailedUnlock(p: Bytes, q: Bytes): seq<Step> {
    [CallWrite(T, p), TakeMu(T), TakeLock(T), Inside(T, StatBefore(false)), DropLock(T, false), DropMu(T),
     CallWrite(U, q), TakeMu(U)]
  }

  lemma StartsWell(s: State)
    requires s.disk == EMPTY && s.lock.None? && s.events == [Mutated([])]
    requires forall i | 0 <= i < |s.insts| :: s.insts[i] == Instance(None, None, None)
    requires forall t | t in s.pcs :: t.inst < |s.insts| && s.pcs[t].Idle?
    ensures Init(s)
  {
    assert EMPTY.LogBytes() == [];
  }

  lemma FirstInstanceLocks(c: Config, p: Bytes)
    ensures Performs(c, Two(false, Idle, false, Idle, None, []), [CallWrite(T, p), TakeMu(T), TakeLock(T)],
                     Two(true, StatPath(p), false, Idle, Some(Writer(0)), [Wrote(T, p, 0)]))
  {
    var s0 := Two(false, Idle, false, Idle, None, []);
    var s1 := Two(false, WantMu(p), false, Idle, None, []);
    var s2 := Two(true, WantLock(p), false, Idle, None, []);
    var s3 := Two(true, StatPath(p), false, Idle, Some(Writer(0)), [Wrote(T, p, 0)]);
    assert Next(c, s0, CallWrite(T, p)) == s1;
    assert Next(c, s1, TakeMu(T)) == s2;
    assert Next(c, s2, TakeLock(T)) == s3;
    PerformsOne(c, s0, [], s0, CallWrite(T, p));
    PerformsOne(c, s0, [CallWrite(T, p)], s1, TakeMu(T));
    PerformsOne(c, s0, [CallWrite(T, p), TakeMu(T)], s2, TakeLock(T));
  }

  lemma FirstInstanceLeaks(c: Config, p: Bytes)
    ensures Performs(c, Two(true, StatPath(p), false, Idle, Some(Writer(0)), [Wrote(T, p, 0)]),
                     [Inside(T, StatBefore(false)), DropLock(T, false), DropMu(T)],
                     Two(false, Idle, false, Idle, Some(Writer(0)), [Wrote(T, p, 0)]))
  {
    var a := Inside(T, StatBefore(false));
    var s0 := Two(true, StatPath(p), false, Idle, Some(Writer(0)), [Wrote(T, p, 0)]);
    var s1 := Two(true, Unlocking(p, 0, false), false, Idle, Some(Writer(0)), [Wrote(T, p, 0)]);
    var s2 := Two(true, Returning(0, false), false, Idle, Some(Writer(0)), [Wrote(T, p, 0)]);
    var s3 := Two(false, Idle, false, Idle, Some(Writer(0)), [Wrote(T, p, 0)]);
    assert Next(c, s0, a) == s1;
    assert Next(c, s1, DropLock(T, false)) == s2;
    assert Next(c, s2, DropMu(T)) == s3;
    PerformsOne(c, s0, [], s0, a);
    PerformsOne(c, s0, [a], s1, DropLock(T, false));
    PerformsOne(c, s0, [a, DropLock(T, false)], s2, DropMu(T));
  }

  lemma SecondInstanceWaits(c: Config, p: Bytes, q: Bytes)
    ensures Performs(c, Two(false, Idle, false, Idle, Some(Writer(0)), [Wrote(T, p, 0)]), [CallWrite(U, q), TakeMu(U)],
                     Two(false, Idle, true, WantLock(q), Some(Writer(0)), [Wrote(T, p, 0)]))
  {
    var s0 := Two(false, Idle, false, Idle, Some(Writer(0)), [Wrote(T, p, 0)]);
    var s1 := Two(false, Idle, false, WantMu(q), Some(Writer(0)), [Wrote(T, p, 0)]);
    var s2 := Two(false, Idle, true, WantLock(q), Some(Writer(0)), [Wrote(T, p, 0)]);
    assert Next(c, s0, CallWrite(U, q)) == s1;
    assert Next(c, s1, TakeMu(U)) == s2;
    PerformsOne(c, s0, [], s0, CallWrite(U, q));
    PerformsOne(c, s0, [CallWrite(U, q)], s1, TakeMu(U));
  }

  /** One Write that fails and then fails to unlock: the other instance's call waits,
      nobody is inside, and no pending call has a step that need not fail. */
  lemma FailedUnlockStopsOthers(c: Config, p: Bytes, q: Bytes) returns (states: seq<State>)
    ensures Run(c, states, FailedUnlock(p, q))
    ensures var s := states[|states| - 1];
      && Pending(s, U) && !SomeoneInside(s) && LeakedBy(FailedUnlock(p, q)) == Some(0)
      && forall i, step :: !GoesOn(c, s, i, step)
  {
    var s0 := Two(false, Idle, false, Idle, None, []);
    var s3 := Two(true, StatPath(p), false, Idle, Some(Writer(0)), [Wrote(T, p, 0)]);
    var s6 := Two(false, Idle, false, Idle, Some(Writer(0)), [Wrote(T, p, 0)]);
    var s8 := Two(false, Idle, true, WantLock(q), Some(Writer(0)), [Wrote(T, p, 0)]);
    var lock := [CallWrite(T, p), TakeMu(T), TakeLock(T)];
    var leak := [Inside(T, StatBefore(false)), DropLock(T, false), DropMu(T)];
    FirstInstanceLocks(c, p);
    FirstInstanceLeaks(c, p);
    SecondInstanceWaits(c, p, q);
    PerformsOn(c, s0, lock, s3, leak, s6);
    PerformsOn(c, s0, lock + leak, s6, [CallWrite(U, q), TakeMu(U)], s8);
    assert lock + leak + [CallWrite(U, q), TakeMu(U)] == FailedUnlock(p, q);
    states := PerformedRun(c, s0, FailedUnlock(p, q), s8);
    StartsWell(s0);
    Stuck(c, states, FailedUnlock(p, q), q);
    Leaked(p, q);
  }

  lemma Leaked(p: Bytes, q: Bytes)
    ensures LeakedBy(FailedUnlock(p, q)) == Some(0)
  {
    var steps := FailedUnlock(p, q);
    assert LeakedBy(steps[..5]) == Some(0);
    assert steps[..6][..5] == steps[..5] && LeakedBy(steps[..6]) == Some(0);
    assert steps[..7][..6] == steps[..6] && LeakedBy(steps[..7]) == Some(0);
    assert steps[..8] == steps && steps[..8][..7] == steps[..7];
  }

  lemma Stuck(c: Config, states: seq<State>, steps: seq<Step>, q: Bytes)
    requires Run(c, states, steps)
    requires exists e :: states[|steps|] == Two(false, Idle, true, WantLock(q), Some(Writer(0)), e)
    ensures var s := states[|steps|];
      Pending(s, U) && !SomeoneInside(s) && forall i, step :: !GoesOn(c, s, i, step)
  {
    var s := states[|steps|];
    RunKeepsInv(c, states, steps, |steps|);
    SomeCallGoesOn(c, s);
    assert forall t :: Pending(s, t) ==> t == U;
    assert Blocked(s, 1);
  }

  // ---- a stale snapshot ----

  const P: Bytes := [7]

  function Files(content: Bytes): Disk {
    Disk(Some(0), map[0 := Node(content, 0)], [])
  }

  function FirstWrite(): seq<Action> {
    [StatBefore(true), Reopen(true, true), OpenNew(0, 0), Land(1, 0)] +
    [WriteReturns(true), ForgetLast, StatAfter(true)]
  }

  function SecondWrite(): seq<Action> {
    [StatBefore(true), Trust, KeepOpen, Land(1, 0)]
  }

  lemma FirstWriteLands(c: Config)
    requires c.max >= 1
    ensures Leads(c, Local(EMPTY, None, None, StatPath(P)), FirstWrite()[..4],
                  Local(Files(P), Some(Descriptor(0, 1, 1)), None, Landing(P, 1)))
  {
    var a0, a1, a2, a3 := StatBefore(true), Reopen(true, true), OpenNew(0, 0), Land(1, 0);
    var l0 := Local(EMPTY, None, None, StatPath(P));
    var l1 := Local(EMPTY, None, None, Decide(P, None));
    var l2 := Local(EMPTY, None, None, Prepare(P));
    var l3 := Local(Files([]), Some(Descriptor(0, 0, 0)), None, Landing(P, 0));
    assert WriteAt([], 0, P[0..1]) == P;
    assert Apply(c, l3, a3) == Local(Files(P), Some(Descriptor(0, 1, 1)), None, Landing(P, 1));
    LeadsOne(c, l0, [], l0, a0);
    LeadsOne(c, l0, [a0], l1, a1);
    LeadsOne(c, l0, [a0, a1], l2, a2);
    LeadsOne(c, l0, [a0, a1, a2], l3, a3);
    assert FirstWrite()[..4] == [a0, a1, a2] + [a3];
  }

  lemma FirstWriteLeads(c: Config)
    requires c.max >= 1
    ensures Leads(c, Local(EMPTY, None, None, StatPath(P)), FirstWrite(),
                  Local(Files(P), Some(Descriptor(0, 1, 1)), Some(Info(0, 1, 0)), Unlocking(P, 1, true)))
  {
    var l4 := Local(Files(P), Some(Descriptor(0, 1, 1)), None, Landing(P, 1));
    var l5, l6 := l4.(pc := Forget(P, 1, true)), l4.(pc := Remember(P, 1));
    FirstWriteLands(c);
    LeadsOne(c, l4, [], l4, WriteReturns(true));
    LeadsOne(c, l4, [WriteReturns(true)], l5, ForgetLast);
    LeadsOne(c, l4, [WriteReturns(true), ForgetLast], l6, StatAfter(true));
    LeadsOn(c, Local(EMPTY, None, None, StatPath(P)), FirstWrite()[..4], l4,
            [WriteReturns(true), ForgetLast] + [StatAfter(true)], Apply(c, l6, StatAfter(true)));
    assert FirstWrite()[..4] + ([WriteReturns(true), ForgetLast] + [StatAfter(true)]) == FirstWrite();
  }

  lemma SecondWriteLeads(c: Config)
    requires c.trusting && c.max >= 2
    ensures Leads(c, Local(Files(P), Some(Descriptor(0, 1, 1)), Some(Info(0, 1, 0)), StatPath(P)), SecondWrite(),
                  Local(Files([7, 7]), Some(Descriptor(0, 2, 2)), Some(Info(0, 1, 0)), Landing(P, 1)))
  {
    var acts, last := SecondWrite(), Some(Info(0, 1, 0));
    var l0 := Local(Files(P), Some(Descriptor(0, 1, 1)), last, StatPath(P));
    var l3 := l0.(pc := Landing(P, 0));
    assert WriteAt(P, 1, P[0..1]) == [7, 7];
    assert Apply(c, l3, acts[3]) == Local(Files([7, 7]), Some(Descriptor(0, 2, 2)), last, Landing(P, 1));
    LeadsOne(c, l0, [], l0, acts[0]);
    LeadsOne(c, l0, [acts[0]], l0.(pc := Decide(P, last)), acts[1]);
    LeadsOne(c, l0, [acts[0], acts[1]], l0.(pc := Prepare(P)), acts[2]);
    LeadsOne(c, l0, [acts[0], acts[1], acts[2]], l3, acts[3]);
    assert [acts[0], acts[1], acts[2]] + [acts[3]] == acts;
  }

  /** A goroutine goes from idle into the critical section of a Write. */
  lemma Enters(c: Config, s: State, t: Tid, p: Bytes) returns (s': State)
    requires Owns(s, t) && s.pcs[t].Idle? && s.insts[t.inst].mu.None? && LockAvailable(s, t.inst)
    ensures Performs(c, s, [CallWrite(t, p), TakeMu(t), TakeLock(t)], s')
    ensures Owns(s', t) && LocalOf(s', t) == LocalOf(s, t).(pc := StatPath(p))
  {
    var s1 := Next(c, s, CallWrite(t, p));
    var s2 := Next(c, s1, TakeMu(t));
    s' := Next(c, s2, TakeLock(t));
    PerformsOne(c, s, [], s, CallWrite(t, p));
    PerformsOne(c, s, [CallWrite(t, p)], s1, TakeMu(t));
    PerformsOne(c, s, [CallWrite(t, p), TakeMu(t)], s2, TakeLock(t));
  }

  /** And back out again. */
  lemma Leaves(c: Config, s: State, t: Tid) returns (s': State)
    requires Owns(s, t) && s.pcs[t].Unlocking?
    ensures Performs(c, s, [DropLock(t, true), DropMu(t)], s')
    ensures Owns(s', t) && LocalOf(s', t) == LocalOf(s, t).(pc := Idle)
    ensures s'.insts[t.inst].mu.None? && s'.lock.None?
  {
    var s1 := Next(c, s, DropLock(t, true));
    s' := Next(c, s1, DropMu(t));
    PerformsOne(c, s, [], s, DropLock(t, true));
    PerformsOne(c, s, [DropLock(t, true)], s1, DropMu(t));
  }

  const START := State(EMPTY, [Instance(None, None, None)], map[T := Idle], None, [Mutated([])])

  lemma OneWrite(c: Config) returns (steps: seq<Step>, s: State)
    requires c.max >= 1
    ensures Performs(c, START, steps, s) && Owns(s, T) && s.insts[T.inst].mu.None? && s.lock.None?
    ensures LocalOf(s, T) == Local(Files(P), Some(Descriptor(0, 1, 1)), Some(Info(0, 1, 0)), Idle)
  {
    var enter, first, leave :=
      [CallWrite(T, P), TakeMu(T), TakeLock(T)], InsideSteps(T, FirstWrite()), [DropLock(T, true), DropMu(T)];
    var s1 := Enters(c, START, T, P);
    FirstWriteLeads(c);
    var s2 := PathIsSteps(c, s1, T, FirstWrite(),
                          Local(Files(P), Some(Descriptor(0, 1, 1)), Some(Info(0, 1, 0)), Unlocking(P, 1, true)));
    s := Leaves(c, s2, T);
    PerformsOn(c, START, enter, s1, first, s2);
    PerformsOn(c, START, enter + first, s2, leave, s);
    steps := enter + first + leave;
  }

  lemma AndAHalf(c: Config) returns (steps: seq<Step>, s: State)
    requires c.trusting && c.max >= 2
    ensures Performs(c, START, steps, s) && Owns(s, T)
    ensures LocalOf(s, T) == Local(Files([7, 7]), Some(Descriptor(0, 2, 2)), Some(Info(0, 1, 0)), Landing(P, 1))
  {
    var enter, second := [CallWrite(T, P), TakeMu(T), TakeLock(T)], InsideSteps(T, SecondWrite());
    var one, s3 := OneWrite(c);
    var s4 := Enters(c, s3, T, P);
    SecondWriteLeads(c);
    s := PathIsSteps(c, s4, T, SecondWrite(),
                     Local(Files([7, 7]), Some(Descriptor(0, 2, 2)), Some(Info(0, 1, 0)), Landing(P, 1)));
    PerformsOn(c, START, one, s3, enter, s4);
    PerformsOn(c, START, one + enter, s4, second, s);
    steps := one + enter + second;
  }

  /** Two Writes of one goroutine, the second stopped after its only chunk: lastFile
      still has the size of before, the descriptor has moved on. */
  lemma SnapshotGoesStale(c: Config) returns (states: seq<State>, steps: seq<Step>)
    requires c.trusting && c.max >= 2
    ensures Run(c, states, steps)
    ensures var s := states[|steps|];
      |s.insts| == 1 && StaleInstance(s, s.insts[0]) && !Coherent(s, s.insts[0])
  {
    var s;
    steps, s := AndAHalf(c);
    states := PerformedRun(c, START, steps, s);
    StartsWell(START);
    RunKeepsInv(c, states, steps, |steps|);
    assert ThreadOk(c, s, T);
    InstanceCount(c, states, steps, |steps|);
    CoherentUnlessStale(c, s, 0);
  }

  lemma {:induction false} InstanceCount(c: Config, states: seq<State>, steps: seq<Step>, k: nat)
    requires Run(c, states, steps) && k < |states|
    ensures |states[k].insts| == |states[0].insts|
  {
    if k > 0 {
      InstanceCount(c, states, steps, k - 1);
      assert states[k] == Next(c, states[k - 1], steps[k - 1]);
    }
  }
}
