/** The writer as coded trusts its cached descriptor when identity, size and time
    still match. It refines the simple writer that reopens the path on every
    call: step for step the disk, the locks, every goroutine and the history are
    the same; only what the instances cache differs. */
module ReopenRefinement {
  import opened Options
  import opened Storage
  import opened CriticalSection
  import opened LockProtocol
  import opened WriterRuns

  function Reopening(c: Config): Config {
    c.(trusting := false)
  }

  /** What the simple writer does where the real one relies on its descriptor. */
  function MirrorAction(a: Action): Action {
    match a
    case Trust => Reopen(true, true)
    case KeepOpen => OpenExisting
    case _ => a
  }

  function Mirror(step: Step): Step {
    if step.Inside? then step.(a := MirrorAction(step.a)) else step
  }

  /** `l` is the critical section of the real writer, `m` of the simple one. */
  predicate LocalRelated(l: Local, m: Local) {
    && m.disk == l.disk && m.pc == l.pc
    && (m.fd.None? || m.fd == l.fd)
    && (m.last.None? || m.last == l.last)
    && (l.pc.Landing? ==> m.fd == l.fd)
    && (l.pc.Prepare? ==> m.fd.None?)
  }

  lemma ActionRefines(c: Config, l: Local, m: Local, a: Action)
    requires LocalInv(c, l) && LocalRelated(l, m) && Enabled(c, l, a)
    ensures Enabled(Reopening(c), m, MirrorAction(a))
    ensures LocalRelated(Apply(c, l, a), Apply(Reopening(c), m, MirrorAction(a)))
  {
  }

  ghost predicate CacheRelated(s: State, a: State, i: nat)
    requires i < |s.insts| && i < |a.insts|
  {
    && a.insts[i].mu == s.insts[i].mu
    && (a.insts[i].fd.None? || a.insts[i].fd == s.insts[i].fd)
    && (a.insts[i].last.None? || a.insts[i].last == s.insts[i].last)
  }

  ghost predicate InsideRelated(s: State, a: State, t: Tid)
    requires Owns(s, t) && Owns(a, t)
  {
    InCriticalSection(s.pcs[t]) ==> LocalRelated(LocalOf(s, t), LocalOf(a, t))
  }

  /** `s` is a state of the real writer, `a` of the simple one. */
  ghost predicate Related(s: State, a: State) {
    && a.disk == s.disk && a.pcs == s.pcs && a.lock == s.lock && a.events == s.events
    && |a.insts| == |s.insts|
    && (forall i | 0 <= i < |s.insts| :: CacheRelated(s, a, i))
    && (forall t | t in s.pcs && Owns(s, t) :: InsideRelated(s, a, t))
  }

  lemma InsideEnabled(c: Config, s: State, a: State, t: Tid, act: Action)
    requires Inv(c, s) && Related(s, a) && StepEnabled(c, s, Inside(t, act))
    ensures StepEnabled(Reopening(c), a, Mirror(Inside(t, act)))
    ensures LocalRelated(LocalOf(Next(c, s, Inside(t, act)), t),
                         LocalOf(Next(Reopening(c), a, Mirror(Inside(t, act))), t))
  {
    assert ThreadOk(c, s, t) && InsideRelated(s, a, t);
    ActionRefines(c, LocalOf(s, t), LocalOf(a, t), act);
    assert LocalOf(Next(c, s, Inside(t, act)), t) == Apply(c, LocalOf(s, t), act);
  }

  lemma InsideRefines(c: Config, s: State, a: State, t: Tid, act: Action)
    requires Inv(c, s) && Related(s, a) && StepEnabled(c, s, Inside(t, act))
    ensures StepEnabled(Reopening(c), a, Mirror(Inside(t, act)))
    ensures Related(Next(c, s, Inside(t, act)), Next(Reopening(c), a, Mirror(Inside(t, act))))
  {
    InsideEnabled(c, s, a, t, act);
    InsideTells(c, s, t, act);
    var s', a' := Next(c, s, Inside(t, act)), Next(Reopening(c), a, Mirror(Inside(t, act)));
    forall i | 0 <= i < |s'.insts| ensures CacheRelated(s', a', i) {
      assert CacheRelated(s, a, i);
    }
    forall u | u in s'.pcs && Owns(s', u) ensures InsideRelated(s', a', u) {
      if u != t && InCriticalSection(s.pcs[u]) { AtMostOneInside(c, s, t, u); }
    }
  }

  lemma OtherEnabled(c: Config, s: State, a: State, step: Step)
    requires Inv(c, s) && Related(s, a) && StepEnabled(c, s, step) && !step.Inside?
    ensures StepEnabled(Reopening(c), a, step)
  {
    if Actor(step).Some? {
      assert ThreadOk(c, s, step.t) && CacheRelated(s, a, step.t.inst);
    } else if step.Mutate? {
      forall i | 0 <= i < |a.insts| ensures Pinned(step.disk, a.insts[i].fd) {
        assert CacheRelated(s, a, i);
      }
    } else if step.Reclaim? {
      forall i | 0 <= i < |a.insts| && a.insts[i].fd.Some? ensures a.insts[i].fd.value.ino != step.ino {
        assert CacheRelated(s, a, i);
      }
    }
  }

  lemma OtherRefines(c: Config, s: State, a: State, step: Step)
    requires Inv(c, s) && Related(s, a) && StepEnabled(c, s, step) && !step.Inside?
    ensures StepEnabled(Reopening(c), a, step)
    ensures Related(Next(c, s, step), Next(Reopening(c), a, step))
  {
    OtherEnabled(c, s, a, step);
    var s', a' := Next(c, s, step), Next(Reopening(c), a, step);
    forall i | 0 <= i < |s'.insts| ensures CacheRelated(s', a', i) {
      assert CacheRelated(s, a, i);
    }
    forall u | u in s'.pcs && Owns(s', u) ensures InsideRelated(s', a', u) {
      assert ThreadOk(c, s, u) && CacheRelated(s, a, u.inst) && InsideRelated(s, a, u);
    }
  }

  /** One step of the real writer is one step of the simple writer. */
  lemma StepRefines(c: Config, s: State, a: State, step: Step)
    requires Inv(c, s) && Related(s, a) && StepEnabled(c, s, step)
    ensures StepEnabled(Reopening(c), a, Mirror(step))
    ensures Related(Next(c, s, step), Next(Reopening(c), a, Mirror(step)))
  {
    if step.Inside? {
      InsideRefines(c, s, a, step.t, step.a);
    } else {
      OtherRefines(c, s, a, step);
    }
  }

  lemma ExtendRun(c: Config, states: seq<State>, steps: seq<Step>, step: Step)
    requires Run(c, states, steps) && StepEnabled(c, states[|steps|], step)
    ensures Run(c, states + [Next(c, states[|steps|], step)], steps + [step])
  {
  }

  /** `simple` and `moves` follow the first `n` steps of the real writer. */
  ghost predicate Follows(states: seq<State>, steps: seq<Step>, simple: seq<State>, moves: seq<Step>, n: nat)
    requires n <= |steps| && |states| == |steps| + 1
  {
    && |simple| == n + 1 && |moves| == n
    && (forall k | 0 <= k < n :: moves[k] == Mirror(steps[k]))
    && (forall k | 0 <= k <= n :: Related(states[k], simple[k]))
  }

  lemma ExtendFollows(states: seq<State>, steps: seq<Step>, simple: seq<State>, moves: seq<Step>, n: nat, a: State)
    requires 0 < n <= |steps| && |states| == |steps| + 1
    requires Follows(states, steps, simple, moves, n - 1) && Related(states[n], a)
    ensures Follows(states, steps, simple + [a], moves + [Mirror(steps[n - 1])], n)
  {
  }

  lemma {:induction false} FollowUpTo(c: Config, states: seq<State>, steps: seq<Step>, n: nat)
    returns (simple: seq<State>, moves: seq<Step>)
    requires Run(c, states, steps) && n <= |steps|
    ensures Run(Reopening(c), simple, moves)
    ensures Follows(states, steps, simple, moves, n)
  {
    if n == 0 {
      simple, moves := [states[0]], [];
    } else {
      simple, moves := FollowUpTo(c, states, steps, n - 1);
      RunKeepsInv(c, states, steps, n - 1);
      StepRefines(c, states[n - 1], simple[n - 1], steps[n - 1]);
      ExtendRun(Reopening(c), simple, moves, Mirror(steps[n - 1]));
      var a := Next(Reopening(c), simple[n - 1], Mirror(steps[n - 1]));
      ExtendFollows(states, steps, simple, moves, n, a);
      simple, moves := simple + [a], moves + [Mirror(steps[n - 1])];
    }
  }

  /** Every run of the real writer, with lock-holding mutators at any point, is a
      run of the writer that reopens the path on every call: at every moment the
      same files with the same bytes, and the same results returned. */
  lemma FastRefinesReopen(c: Config, states: seq<State>, steps: seq<Step>)
    returns (simple: seq<State>, moves: seq<Step>)
    requires Run(c, states, steps)
    ensures Run(c.(trusting := false), simple, moves) && |moves| == |steps|
    ensures forall k | 0 <= k < |moves| && moves[k].Inside? :: !moves[k].a.Trust? && !moves[k].a.KeepOpen?
    ensures forall k | 0 <= k < |simple| ::
      && simple[k].disk == states[k].disk && simple[k].pcs == states[k].pcs
      && simple[k].lock == states[k].lock && simple[k].events == states[k].events
  {
    simple, moves := FollowUpTo(c, states, steps, |steps|);
    assert forall k | 0 <= k < |moves| :: moves[k] == Mirror(steps[k]);
    assert forall k | 0 <= k < |simple| :: Related(states[k], simple[k]);
  }

  /** Where a record that is not the first in its file starts a new one: always
      above the limit, never below, and at exact equality only on a reopen. That
      equality is the one point where the two writers may differ. */
  lemma RotationPoint(c: Config, l: Local, ino: Ino, mtime: int)
    requires LocalInv(c, l) && l.pc.Prepare? && l.disk.active.Some? && ino !in l.disk.nodes
    ensures var total := |l.disk.ActiveBytes()| + |l.pc.p|;
      && (Enabled(c, l, OpenNew(ino, mtime)) <==> total > c.max || (total == c.max && l.fd.None?))
      && (Enabled(c, l, KeepOpen) || Enabled(c, l, OpenExisting) <==> total <= c.max)
  {
  }

  /** Both writers, whatever their limits and wherever they rotated, hold the same
      total log bytes after the same history. */
  lemma SameHistorySameLog(c: Config, states: seq<State>, steps: seq<Step>,
                           d: Config, others: seq<State>, moves: seq<Step>, j: nat, k: nat)
    requires Run(c, states, steps) && Run(d, others, moves) && j < |states| && k < |others|
    requires states[j].events == others[k].events
    ensures states[j].disk.LogBytes() == others[k].disk.LogBytes()
  {
    Conservation(c, states, steps, j);
    Conservation(d, others, moves, k);
  }
}
