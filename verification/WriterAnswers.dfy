/** What every call of a writer answers, over whole runs: the count of bytes that are
    in the log, and success exactly if nothing failed on the way. */
module WriterAnswers {
  import opened Options
  import opened Storage
  import opened CriticalSection
  import opened LockProtocol
  import opened WriterRuns

  /** Among steps[from..to], one of the goroutine's own failed. The result of the
      unlock does not count: the program ignores it. */
  ghost predicate Troubled(steps: seq<Step>, from: nat, to: nat, t: Tid)
    requires to <= |steps|
  {
    exists m :: from <= m < to && Actor(steps[m]) == Some(t) && Fails(steps[m]) && !steps[m].DropLock?
  }

  lemma TroubledMore(steps: seq<Step>, from: nat, to: nat, t: Tid)
    requires from <= to < |steps|
    ensures Troubled(steps, from, to + 1, t) <==>
      Troubled(steps, from, to, t) || (Actor(steps[to]) == Some(t) && Fails(steps[to]) && !steps[to].DropLock?)
  {
    if Actor(steps[to]) == Some(t) && Fails(steps[to]) && !steps[to].DropLock? {
      assert from <= to < to + 1;
    }
  }

  /** The positions of a Write that has not failed so far. */
  predicate GoingWell(pc: Pc) {
    match pc
    case Forget(_, _, ok) => ok
    case Unlocking(_, _, ok) => ok
    case Returning(_, ok) => ok
    case _ => true
  }

  lemma ActionGoesWell(c: Config, l: Local, a: Action, t: Tid)
    requires LocalInv(c, l) && Enabled(c, l, a)
    ensures GoingWell(Apply(c, l, a).pc) <==> GoingWell(l.pc) && !Fails(Inside(t, a))
  {
  }

  /** Steps of others leave a goroutine where it is. */
  lemma OthersLeaveAlone(c: Config, s: State, step: Step, t: Tid)
    requires StepEnabled(c, s, step) && t in s.pcs && Actor(step) != Some(t)
    ensures t in Next(c, s, step).pcs && Next(c, s, step).pcs[t] == s.pcs[t]
  {
  }

  /** And while it is inside, they leave the log and the history alone. */
  lemma OthersLeaveLog(c: Config, s: State, step: Step, t: Tid)
    requires Inv(c, s) && StepEnabled(c, s, step) && Actor(step) != Some(t)
    requires t in s.pcs && InCriticalSection(s.pcs[t])
    ensures Next(c, s, step).events == s.events
  {
    assert ThreadOk(c, s, t);
    match step
    case Inside(u, a) => AtMostOneInside(c, s, t, u);
    case TakeLock(u) => NobodyElseInside(c, s, u, t);
    case _ =>
  }

  // ---- one call of Write ----

  /** The history when the lock was taken, and then this Write's own entry. */
  ghost predicate Told(before: State, s: State, t: Tid, p: Bytes, n: nat) {
    n <= |p| && s.events == before.events + [Wrote(t, p, n)]
  }

  /** Before the lock: nothing failed, and the file lock was not tried yet. */
  ghost predicate Waiting(steps: seq<Step>, h: nat, k: nat, t: Tid, p: Bytes, pc: Pc)
    requires h < k <= |steps|
  {
    && (pc == WantMu(p) || pc == WantLock(p))
    && !Troubled(steps, h + 1, k, t)
    && forall m | h < m < k :: steps[m] != TakeLock(t) && steps[m] != LockFails(t)
  }

  /** Between the locks since step `i`. */
  ghost predicate Within(states: seq<State>, steps: seq<Step>, h: nat, k: nat, t: Tid, p: Bytes, pc: Pc, i: nat)
    requires h < k <= |steps| < |states|
  {
    && InCriticalSection(pc) && pc.p == p
    && (GoingWell(pc) <==> !Troubled(steps, h + 1, k, t))
    && h < i < k && steps[i] == TakeLock(t) && Told(states[i], states[k], t, p, BytesDown(pc))
    && forall m | h < m < k :: steps[m] != LockFails(t)
  }

  /** The file lock was refused, and the answer is that nothing was written. */
  ghost predicate Refused(steps: seq<Step>, h: nat, k: nat, t: Tid, n: nat)
    requires h < k <= |steps|
  {
    && n == 0
    && (exists m :: h < m < k && steps[m] == LockFails(t))
    && forall m | h < m < k :: steps[m] != TakeLock(t)
  }

  /** The snapshot is of the file now at the path. */
  predicate Remembered(s: State, t: Tid) {
    t.inst < |s.insts| && s.insts[t.inst].last.Some? && s.insts[t.inst].last == s.disk.Stat()
  }

  /** The lock was held from step `i` to step `d`, and over that time the history grew
      by one entry, for the first n bytes of p, and the log by those bytes. */
  ghost predicate Answered(states: seq<State>, steps: seq<Step>, h: nat, k: nat, t: Tid, p: Bytes, n: nat, ok: bool,
                           i: nat, d: nat)
    requires h < k <= |steps| < |states|
  {
    && h < i < d < k && steps[i] == TakeLock(t) && steps[d].DropLock? && steps[d].t == t
    && n <= |p| && t.inst < |states[d].insts| && (ok ==> n == |p| && Remembered(states[d], t))
    && states[d].events == states[i].events + [Wrote(t, p, n)]
    && states[d].disk.LogBytes() == states[i].disk.LogBytes() + p[..n]
    && forall m | h < m < k :: steps[m] != LockFails(t)
  }

  ghost predicate Leaving(states: seq<State>, steps: seq<Step>, h: nat, k: nat, t: Tid, p: Bytes, pc: Pc,
                          i: nat, d: nat)
    requires h < k <= |steps| < |states|
  {
    && pc.Returning?
    && (pc.ok <==> !Troubled(steps, h + 1, k, t))
    && (Refused(steps, h, k, t, pc.n) || Answered(states, steps, h, k, t, p, pc.n, pc.ok, i, d))
  }

  /** How far a Write of `p` is: before the lock, inside since step `i`, or about to
      return, having left at step `d`. Indices out of use are arbitrary. */
  ghost predicate Between(states: seq<State>, steps: seq<Step>, h: nat, k: nat, t: Tid, p: Bytes, i: nat, d: nat)
    requires h < k <= |steps| < |states|
  {
    && t in states[k].pcs
    && var pc := states[k].pcs[t];
       || Waiting(steps, h, k, t, p, pc)
       || Within(states, steps, h, k, t, p, pc, i)
       || Leaving(states, steps, h, k, t, p, pc, i, d)
  }

  lemma ReplayOne(events: seq<Event>, t: Tid, p: Bytes, n: nat)
    requires n <= |p|
    ensures Replay(events + [Wrote(t, p, n)]) == Replay(events) + p[..n]
  {
    assert (events + [Wrote(t, p, n)])[..|events|] == events;
  }

  lemma TellMore(events: seq<Event>, t: Tid, p: Bytes, n: nat, n': nat)
    ensures Retell(events + [Wrote(t, p, n)], n') == events + [Wrote(t, p, n')]
  {
  }

  lemma LogGrew(c: Config, states: seq<State>, steps: seq<Step>, i: nat, k: nat, t: Tid, p: Bytes, n: nat)
    requires Run(c, states, steps) && i < k < |states| && Told(states[i], states[k], t, p, n)
    ensures states[k].disk.LogBytes() == states[i].disk.LogBytes() + p[..n]
  {
    Conservation(c, states, steps, i);
    Conservation(c, states, steps, k);
    ReplayOne(states[i].events, t, p, n);
  }

  /** The call's own steps before it has the lock. */
  lemma StepWhileWaiting(c: Config, s: State, step: Step, steps: seq<Step>, h: nat, k: nat, t: Tid, p: Bytes)
    requires h < k < |steps| && steps[k] == step && StepEnabled(c, s, step) && Actor(step) == Some(t)
    requires t in s.pcs && Waiting(steps, h, k, t, p, s.pcs[t])
    ensures t in Next(c, s, step).pcs
    ensures var pc := Next(c, s, step).pcs[t];
      || Waiting(steps, h, k + 1, t, p, pc)
      || (step == TakeLock(t) && pc == StatPath(p) && Told(s, Next(c, s, step), t, p, 0)
          && !Troubled(steps, h + 1, k + 1, t) && forall m | h < m < k + 1 :: steps[m] != LockFails(t))
      || (pc == Returning(0, false) && Troubled(steps, h + 1, k + 1, t) && Refused(steps, h, k + 1, t, 0))
  {
    TroubledMore(steps, h + 1, k, t);
    if step == LockFails(t) {
      assert h < k < k + 1 && steps[k] == LockFails(t);
    }
  }

  lemma InsideStep(c: Config, s: State, t: Tid, a: Action)
    requires Inv(c, s) && StepEnabled(c, s, Inside(t, a))
    ensures var s' := Next(c, s, Inside(t, a)); var pc, pc' := s.pcs[t], s'.pcs[t];
      && InCriticalSection(pc) && InCriticalSection(pc') && pc'.p == pc.p && BytesDown(pc') <= |pc.p|
      && s'.events == Retell(s.events, BytesDown(pc'))
      && (GoingWell(pc') <==> GoingWell(pc) && !Fails(Inside(t, a)))
  {
    InsideTells(c, s, t, a);
    ActionKeepsInv(c, LocalOf(s, t), a);
    ActionGoesWell(c, LocalOf(s, t), a, t);
  }

  lemma StepWithin(c: Config, states: seq<State>, steps: seq<Step>, h: nat, k: nat, t: Tid, p: Bytes, i: nat, a: Action)
    requires Run(c, states, steps) && h < k < |steps| && steps[k] == Inside(t, a) && Inv(c, states[k])
    requires t in states[k].pcs && Within(states, steps, h, k, t, p, states[k].pcs[t], i)
    requires StepEnabled(c, states[k], steps[k]) && states[k + 1] == Next(c, states[k], steps[k])
    ensures t in states[k + 1].pcs && Within(states, steps, h, k + 1, t, p, states[k + 1].pcs[t], i)
  {
    var s := states[k];
    InsideStep(c, s, t, a);
    TroubledMore(steps, h + 1, k, t);
    TellMore(states[i].events, t, p, BytesDown(s.pcs[t]), BytesDown(states[k + 1].pcs[t]));
  }

  lemma UnlockingTells(c: Config, s: State, t: Tid)
    requires Inv(c, s) && t in s.pcs && s.pcs[t].Unlocking?
    ensures s.pcs[t].n <= |s.pcs[t].p| && (s.pcs[t].ok ==> s.pcs[t].n == |s.pcs[t].p| && Remembered(s, t))
  {
    assert ThreadOk(c, s, t);
  }

  lemma StepOut(c: Config, states: seq<State>, steps: seq<Step>, h: nat, k: nat, t: Tid, p: Bytes, i: nat)
    requires h < k < |steps| < |states| && steps[k].DropLock? && steps[k].t == t
    requires t in states[k].pcs && Within(states, steps, h, k, t, p, states[k].pcs[t], i)
    requires var pc := states[k].pcs[t]; pc.Unlocking? ==>
      && (pc.ok ==> pc.n == |p| && Remembered(states[k], t))
      && states[k].disk.LogBytes() == states[i].disk.LogBytes() + p[..pc.n]
    requires StepEnabled(c, states[k], steps[k]) && states[k + 1] == Next(c, states[k], steps[k])
    ensures t in states[k + 1].pcs && Leaving(states, steps, h, k + 1, t, p, states[k + 1].pcs[t], i, k)
  {
    TroubledMore(steps, h + 1, k, t);
  }

  lemma OwnStep(c: Config, states: seq<State>, steps: seq<Step>, h: nat, k: nat, t: Tid, p: Bytes, i: nat, d: nat)
    returns (i': nat, d': nat)
    requires Run(c, states, steps) && h < k < |steps| && Between(states, steps, h, k, t, p, i, d)
    requires Actor(steps[k]) == Some(t) && steps[k] != DropMu(t)
    ensures Between(states, steps, h, k + 1, t, p, i', d')
  {
    var s, step := states[k], steps[k];
    i', d' := i, d;
    RunKeepsInv(c, states, steps, k);
    assert StepEnabled(c, s, step) && states[k + 1] == Next(c, s, step);
    if Waiting(steps, h, k, t, p, s.pcs[t]) {
      StepWhileWaiting(c, s, step, steps, h, k, t, p);
      i' := k;
    } else if step.Inside? {
      StepWithin(c, states, steps, h, k, t, p, i, step.a);
    } else {
      assert step.DropLock? && !s.pcs[t].Returning?;
      UnlockingTells(c, s, t);
      LogGrew(c, states, steps, i, k, t, p, s.pcs[t].n);
      StepOut(c, states, steps, h, k, t, p, i);
      d' := k;
    }
  }

  lemma OthersStep(c: Config, states: seq<State>, steps: seq<Step>, h: nat, k: nat, t: Tid, p: Bytes, i: nat, d: nat)
    requires Run(c, states, steps) && h < k < |steps| && Between(states, steps, h, k, t, p, i, d)
    requires Actor(steps[k]) != Some(t)
    ensures Between(states, steps, h, k + 1, t, p, i, d)
  {
    var s, step := states[k], steps[k];
    RunKeepsInv(c, states, steps, k);
    TroubledMore(steps, h + 1, k, t);
    OthersLeaveAlone(c, s, step, t);
    assert steps[k] != TakeLock(t) && steps[k] != LockFails(t);
    if InCriticalSection(s.pcs[t]) {
      OthersLeaveLog(c, s, step, t);
      assert Within(states, steps, h, k + 1, t, p, s.pcs[t], i);
    } else if s.pcs[t].Returning? {
      StillLeaving(states, steps, h, k, t, p, s.pcs[t], i, d);
    } else {
      assert Waiting(steps, h, k + 1, t, p, s.pcs[t]);
    }
  }

  lemma StillLeaving(states: seq<State>, steps: seq<Step>, h: nat, k: nat, t: Tid, p: Bytes, pc: Pc, i: nat, d: nat)
    requires h < k < |steps| < |states| && Leaving(states, steps, h, k, t, p, pc, i, d) && Actor(steps[k]) != Some(t)
    ensures Leaving(states, steps, h, k + 1, t, p, pc, i, d)
  {
    TroubledMore(steps, h + 1, k, t);
    assert steps[k] != TakeLock(t) && steps[k] != LockFails(t);
    if Refused(steps, h, k, t, pc.n) {
      var m :| h < m < k && steps[m] == LockFails(t);
      assert h < m < k + 1;
    }
  }

  lemma AnyStep(c: Config, states: seq<State>, steps: seq<Step>, h: nat, k: nat, t: Tid, p: Bytes, i: nat, d: nat)
    returns (i': nat, d': nat)
    requires Run(c, states, steps) && h < k < |steps| && Between(states, steps, h, k, t, p, i, d)
    requires steps[k] != DropMu(t)
    ensures Between(states, steps, h, k + 1, t, p, i', d')
  {
    i', d' := i, d;
    if Actor(steps[k]) == Some(t) {
      i', d' := OwnStep(c, states, steps, h, k, t, p, i, d);
    } else {
      OthersStep(c, states, steps, h, k, t, p, i, d);
    }
  }

  lemma Begins(c: Config, states: seq<State>, steps: seq<Step>, h: nat, t: Tid, p: Bytes)
    requires Run(c, states, steps) && h < |steps| && steps[h] == CallWrite(t, p)
    ensures t in states[h + 1].pcs && Waiting(steps, h, h + 1, t, p, states[h + 1].pcs[t])
  {
    assert states[h + 1] == Next(c, states[h], steps[h]);
  }

  lemma {:induction false} WriteSoFar(c: Config, states: seq<State>, steps: seq<Step>, h: nat, k: nat, t: Tid, p: Bytes)
    returns (i: nat, d: nat)
    requires Run(c, states, steps) && h < k < |states| && steps[h] == CallWrite(t, p)
    requires forall m | h < m < k :: steps[m] != DropMu(t)
    ensures Between(states, steps, h, k, t, p, i, d)
  {
    if k == h + 1 {
      i, d := 0, 0;
      Begins(c, states, steps, h, t, p);
    } else {
      var j := k - 1;
      i, d := WriteSoFar(c, states, steps, h, j, t, p);
      i, d := AnyStep(c, states, steps, h, j, t, p, i, d);
    }
  }

  /** The answer of every Write of every run. Success is answered exactly if none of
      the call's own steps failed, the unlock aside, and then for all of p. If the lock
      was refused the count is zero and the lock was never taken; otherwise the lock
      was held from step `i` to step `d`, and meanwhile the log grew by the first n bytes
      of p, with n the count answered, and the history by the entry that says so. */
  lemma WriteAnswers(c: Config, states: seq<State>, steps: seq<Step>, h: nat, k: nat, t: Tid, p: Bytes)
    returns (i: nat, d: nat)
    requires Run(c, states, steps) && h < k < |states| && steps[h] == CallWrite(t, p)
    requires forall m | h < m < k :: steps[m] != DropMu(t)
    requires t in states[k].pcs && states[k].pcs[t].Returning?
    ensures var n, ok := states[k].pcs[t].n, states[k].pcs[t].ok;
      && (ok <==> forall m | h < m < k && Actor(steps[m]) == Some(t) && !steps[m].DropLock? :: !Fails(steps[m]))
      && (ok ==> n == |p|)
      && if exists m :: h < m < k && steps[m] == LockFails(t)
         then n == 0 && forall m | h < m < k :: steps[m] != TakeLock(t)
         else
           && h < i < d < k && steps[i] == TakeLock(t) && steps[d].DropLock? && steps[d].t == t
           && n <= |p|
           && t.inst < |states[d].insts|
           && (ok ==> var last := states[d].insts[t.inst].last; last.Some? && last == states[d].disk.Stat())
           && states[d].disk.LogBytes() == states[i].disk.LogBytes() + p[..n]
           && states[d].events == states[i].events + [Wrote(t, p, n)]
  {
    i, d := WriteSoFar(c, states, steps, h, k, t, p);
    var n, ok := states[k].pcs[t].n, states[k].pcs[t].ok;
    if Refused(steps, h, k, t, n) {
      var m :| h < m < k && steps[m] == LockFails(t);
      assert Troubled(steps, h + 1, k, t);
    }
  }

  // ---- one call of Close ----

  /** The logger was closed at step `d`, with the outcome answered. */
  ghost predicate Closed(states: seq<State>, steps: seq<Step>, h: nat, k: nat, t: Tid, ok: bool, d: nat)
    requires h < k <= |steps| < |states|
  {
    && h < d < k && steps[d].CloseLogger? && steps[d].t == t && steps[d].ok == ok
    && t.inst < |states[d].insts| == |states[d + 1].insts|
    && states[d + 1].insts[t.inst].fd == (if steps[d].dropped then None else states[d].insts[t.inst].fd)
    && states[d + 1].disk == states[d].disk && states[d + 1].events == states[d].events
  }

  ghost predicate ClosingAt(states: seq<State>, steps: seq<Step>, h: nat, k: nat, t: Tid, d: nat)
    requires h < k <= |steps| < |states|
  {
    && t in states[k].pcs
    && var pc := states[k].pcs[t];
       || ((pc.CloseWantMu? || pc.Closing?) && !Troubled(steps, h + 1, k, t))
       || (pc.CloseReturning? && (pc.ok <==> !Troubled(steps, h + 1, k, t)) && Closed(states, steps, h, k, t, pc.ok, d))
  }

  lemma CloseStep(c: Config, states: seq<State>, steps: seq<Step>, h: nat, k: nat, t: Tid, d: nat) returns (d': nat)
    requires Run(c, states, steps) && h < k < |steps| && ClosingAt(states, steps, h, k, t, d) && steps[k] != DropMu(t)
    ensures ClosingAt(states, steps, h, k + 1, t, d')
  {
    var s, step := states[k], steps[k];
    assert StepEnabled(c, s, step) && states[k + 1] == Next(c, s, step);
    TroubledMore(steps, h + 1, k, t);
    d' := d;
    if Actor(step) == Some(t) {
      assert step.TakeMu? || step.CloseLogger?;
      if step.CloseLogger? {
        d' := k;
      }
    } else {
      OthersLeaveAlone(c, s, step, t);
    }
  }

  lemma {:induction false} CloseSoFar(c: Config, states: seq<State>, steps: seq<Step>, h: nat, k: nat, t: Tid)
    returns (d: nat)
    requires Run(c, states, steps) && h < k < |states| && steps[h] == CallClose(t)
    requires forall m | h < m < k :: steps[m] != DropMu(t)
    ensures ClosingAt(states, steps, h, k, t, d)
  {
    if k == h + 1 {
      d := 0;
      assert states[k] == Next(c, states[h], steps[h]);
    } else {
      d := CloseSoFar(c, states, steps, h, k - 1, t);
      d := CloseStep(c, states, steps, h, k - 1, t, d);
    }
  }

  /** The answer of every Close of every run is the outcome of closing the logger, which
      touched no file, and success means that the descriptor is gone. */
  lemma CloseAnswers(c: Config, states: seq<State>, steps: seq<Step>, h: nat, k: nat, t: Tid) returns (d: nat)
    requires Run(c, states, steps) && h < k < |states| && steps[h] == CallClose(t)
    requires forall m | h < m < k :: steps[m] != DropMu(t)
    requires t in states[k].pcs && states[k].pcs[t].CloseReturning?
    ensures h < d < k && steps[d].CloseLogger? && steps[d].t == t && steps[d].ok == states[k].pcs[t].ok
    ensures t.inst < |states[d + 1].insts|
    ensures states[k].pcs[t].ok ==> states[d + 1].insts[t.inst].fd.None?
    ensures states[d + 1].disk == states[d].disk && states[d + 1].events == states[d].events
  {
    d := CloseSoFar(c, states, steps, h, k, t);
    assert StepEnabled(c, states[d], steps[d]);
  }

  // ---- how long a call takes ----

  lemma OwnStepsMore(steps: seq<Step>, lo: nat, n: nat, t: Tid)
    requires lo <= n < |steps|
    ensures OwnSteps(steps[lo..n + 1], t) == OwnSteps(steps[lo..n], t) + if Actor(steps[n]) == Some(t) then 1 else 0
  {
    assert steps[lo..n + 1][..n - lo] == steps[lo..n];
  }

  lemma CountMore(steps: seq<Step>, lo: nat, n: nat, t: Tid)
    requires lo <= n < |steps|
    ensures |set m | lo <= m < n + 1 && Actor(steps[m]) == Some(t)| ==
            |set m | lo <= m < n && Actor(steps[m]) == Some(t)| + if Actor(steps[n]) == Some(t) then 1 else 0
  {
    var before := set m | lo <= m < n && Actor(steps[m]) == Some(t);
    var all := set m | lo <= m < n + 1 && Actor(steps[m]) == Some(t);
    assert n !in before && all == before + if Actor(steps[n]) == Some(t) then {n} else {};
  }

  lemma {:induction false} OwnStepsCounted(steps: seq<Step>, lo: nat, hi: nat, t: Tid)
    requires lo <= hi <= |steps|
    ensures OwnSteps(steps[lo..hi], t) == |set m | lo <= m < hi && Actor(steps[m]) == Some(t)|
    decreases hi
  {
    if lo == hi {
      assert steps[lo..hi] == [];
    } else {
      OwnStepsCounted(steps, lo, hi - 1, t);
      OwnStepsMore(steps, lo, hi - 1, t);
      CountMore(steps, lo, hi - 1, t);
    }
  }

  /** A Write of p takes at most |p| + 10 further steps of its own, and a Close three. */
  lemma CallsEnd(c: Config, states: seq<State>, steps: seq<Step>, h: nat, k: nat, t: Tid)
    requires Run(c, states, steps) && h < k < |states|
    requires steps[h] == CallClose(t) || (steps[h].CallWrite? && steps[h].t == t)
    requires forall m | h < m < k :: steps[m] != CallClose(t) && !(steps[m].CallWrite? && steps[m].t == t)
    ensures |set m | h + 1 <= m < k && Actor(steps[m]) == Some(t)| <=
            if steps[h].CallWrite? then |steps[h].p| + 10 else 3
  {
    CallRank(c, states, steps, h, t);
    CallsAreBounded(c, states, steps, h + 1, k, t);
    OwnStepsCounted(steps, h + 1, k, t);
  }

  lemma CallRank(c: Config, states: seq<State>, steps: seq<Step>, h: nat, t: Tid)
    requires Run(c, states, steps) && h < |steps|
    requires steps[h] == CallClose(t) || (steps[h].CallWrite? && steps[h].t == t)
    ensures t in states[h + 1].pcs
    ensures Rank(states[h + 1].pcs[t]) <= if steps[h].CallWrite? then |steps[h].p| + 10 else 3
  {
    assert StepEnabled(c, states[h], steps[h]) && states[h + 1] == Next(c, states[h], steps[h]);
  }

  // ---- every answer belongs to a call ----

  /** Whether a position belongs to a Close. */
  predicate InClose(pc: Pc) {
    pc.CloseWantMu? || pc.Closing? || pc.CloseReturning?
  }

  lemma InsideStaysInCall(c: Config, s: State, t: Tid, a: Action)
    requires Inv(c, s) && StepEnabled(c, s, Inside(t, a))
    ensures var pc := Next(c, s, Inside(t, a)).pcs[t]; !pc.Idle? && !InClose(pc) && !InClose(s.pcs[t])
  {
    InsideStep(c, s, t, a);
  }

  lemma OwnStepStaysInCall(c: Config, s: State, step: Step, t: Tid)
    requires StepEnabled(c, s, step) && Actor(step) == Some(t) && Pending(s, t) && step != DropMu(t) && !step.Inside?
    ensures Pending(Next(c, s, step), t) && !Starts(step, t)
    ensures InClose(Next(c, s, step).pcs[t]) <==> InClose(s.pcs[t])
  {
  }

  /** Where a goroutine that is in a call came from. */
  lemma CameFrom(c: Config, s: State, step: Step, t: Tid)
    requires Inv(c, s) && StepEnabled(c, s, step) && Pending(Next(c, s, step), t)
    ensures t in s.pcs && step != DropMu(t)
    ensures s.pcs[t].Idle? ==> Starts(step, t) && (InClose(Next(c, s, step).pcs[t]) <==> step == CallClose(t))
    ensures Pending(s, t) ==> (InClose(Next(c, s, step).pcs[t]) <==> InClose(s.pcs[t]))
  {
    NobodyJoins(c, s, step, t);
    if Actor(step) != Some(t) {
      OthersLeaveAlone(c, s, step, t);
    } else if step.Inside? {
      InsideStaysInCall(c, s, t, step.a);
    } else if Pending(s, t) && step != DropMu(t) {
      OwnStepStaysInCall(c, s, step, t);
    }
  }

  lemma NobodyJoins(c: Config, s: State, step: Step, t: Tid)
    requires StepEnabled(c, s, step) && t in Next(c, s, step).pcs
    ensures t in s.pcs
  {
  }

  lemma RunCameFrom(c: Config, states: seq<State>, steps: seq<Step>, k: nat, t: Tid)
    requires Run(c, states, steps) && k < |states| && Pending(states[k], t)
    ensures k > 0 && t in states[k - 1].pcs && steps[k - 1] != DropMu(t)
    ensures states[k - 1].pcs[t].Idle? ==>
      Starts(steps[k - 1], t) && (InClose(states[k].pcs[t]) <==> steps[k - 1] == CallClose(t))
    ensures Pending(states[k - 1], t) ==> (InClose(states[k].pcs[t]) <==> InClose(states[k - 1].pcs[t]))
  {
    if k > 0 {
      RunKeepsInv(c, states, steps, k - 1);
      CameFrom(c, states[k - 1], steps[k - 1], t);
    }
  }

  /** Whoever is in a call has begun it with CallWrite or CallClose, and not returned
      since; so the two laws above cover every answer of every reachable state. */
  lemma {:induction false} EveryCallBegan(c: Config, states: seq<State>, steps: seq<Step>, k: nat, t: Tid)
    returns (h: nat)
    requires Run(c, states, steps) && k < |states| && Pending(states[k], t)
    ensures h < k && (steps[h] == CallClose(t) || (steps[h].CallWrite? && steps[h].t == t))
    ensures steps[h] == CallClose(t) <==> InClose(states[k].pcs[t])
    ensures forall m | h < m < k :: steps[m] != DropMu(t)
  {
    RunCameFrom(c, states, steps, k, t);
    h := k - 1;
    if !states[h].pcs[t].Idle? {
      h := EveryCallBegan(c, states, steps, k - 1, t);
    }
  }
}
