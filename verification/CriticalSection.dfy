/** One Write call while it holds both locks: the descriptor-validity check
    (refresh), the rotating logger's own Write, and the snapshot taken afterwards
    (remember). Every observable step is an action, and every I/O outcome the
    environment chooses is a parameter of its action. */
module CriticalSection {
  import opened Options
  import opened Storage

  /** `max` is the rotation limit in bytes. `trusting` is true for the writer as
      coded, which skips the reopen when the snapshot matches; false gives the
      simple writer that reopens the path on every call. */
  datatype Config = Config(max: nat, trusting: bool)

  /** The logger's open descriptor: its inode, file offset and cached size. */
  datatype Descriptor = Descriptor(ino: Ino, off: nat, size: nat)

  /** Where a goroutine stands inside Write or Close. */
  datatype Pc =
    | Idle
    | WantMu(p: Bytes)                        // before w.mu.Lock
    | WantLock(p: Bytes)                      // before w.lock.Lock
    | StatPath(p: Bytes)                      // refresh: before os.Stat
    | Decide(p: Bytes, seen: Option<Info>)    // refresh: compare, perhaps close the logger
    | Prepare(p: Bytes)                       // logger.Write: open or rotate
    | Landing(p: Bytes, n: nat)               // logger.Write: n bytes are down
    | Forget(p: Bytes, n: nat, ok: bool)      // logger.Write returned; clear lastFile
    | Remember(p: Bytes, n: nat)              // before the second os.Stat
    | Unlocking(p: Bytes, n: nat, ok: bool)   // deferred lock.Unlock
    | Returning(n: nat, ok: bool)             // deferred mu.Unlock of Write
    | CloseWantMu                             // Close: before w.mu.Lock
    | Closing                                 // Close: before wc.Close
    | CloseReturning(ok: bool)                // deferred mu.Unlock of Close

  predicate InCriticalSection(pc: Pc) {
    pc.StatPath? || pc.Decide? || pc.Prepare? || pc.Landing? || pc.Forget? || pc.Remember? || pc.Unlocking?
  }

  /** How many bytes of the record the call has put down so far. */
  function BytesDown(pc: Pc): nat {
    if pc.Landing? || pc.Forget? || pc.Remember? || pc.Unlocking? then pc.n else 0
  }

  /** The disk, the instance's cached state, and the one goroutine inside. */
  datatype Local = Local(disk: Disk, fd: Option<Descriptor>, last: Option<Info>, pc: Pc)

  datatype Action =
    | StatBefore(ok: bool)
    | Trust
    | Reopen(ok: bool, dropped: bool)
    | KeepOpen
    | OpenExisting
    | OpenNew(ino: Ino, mtime: int)
    | OpenNewFails(renamed: bool)
    | PrepareFails
    | Land(k: nat, mtime: int)
    | WriteReturns(ok: bool)
    | ForgetLast
    | StatAfter(ok: bool)

  /** os.SameFile, equal Size and equal ModTime. */
  predicate Matches(last: Option<Info>, seen: Option<Info>) {
    last.Some? && seen.Some? && last == seen
  }

  /** When the logger must or may start a new file. On an open descriptor it
      compares its cached size with the limit; on a reopen it reads the size and
      may already rotate at equality. */
  predicate NewFileAllowed(c: Config, l: Local, p: Bytes) {
    if l.fd.Some? then l.fd.value.size + |p| > c.max
    else l.disk.active.None? || |l.disk.ActiveBytes()| + |p| >= c.max
  }

  predicate Enabled(c: Config, l: Local, a: Action) {
    match a
    case StatBefore(_) => l.pc.StatPath?
    case Trust => l.pc.Decide? && c.trusting && Matches(l.last, l.pc.seen)
    case Reopen(ok, dropped) =>
      l.pc.Decide? && !(c.trusting && Matches(l.last, l.pc.seen)) && (ok ==> dropped)
    case KeepOpen => l.pc.Prepare? && l.fd.Some? && l.fd.value.size + |l.pc.p| <= c.max
    case OpenExisting =>
      l.pc.Prepare? && l.fd.None? && l.disk.active.Some? && |l.disk.ActiveBytes()| + |l.pc.p| <= c.max
    case OpenNew(ino, _) => l.pc.Prepare? && ino !in l.disk.nodes && NewFileAllowed(c, l, l.pc.p)
    case OpenNewFails(_) => l.pc.Prepare? && NewFileAllowed(c, l, l.pc.p)
    case PrepareFails => l.pc.Prepare?
    case Land(k, _) => l.pc.Landing? && l.fd.Some? && 0 < k <= |l.pc.p| - l.pc.n
    case WriteReturns(ok) => l.pc.Landing? && (ok ==> l.pc.n == |l.pc.p|)
    case ForgetLast => l.pc.Forget?
    case StatAfter(ok) => l.pc.Remember? && (ok ==> l.disk.Stat().Some?)
  }

  function Apply(c: Config, l: Local, a: Action): Local
    requires Enabled(c, l, a)
  {
    match a
    case StatBefore(ok) =>
      l.(pc := if ok then Decide(l.pc.p, l.disk.Stat()) else Unlocking(l.pc.p, 0, false))
    case Trust => l.(pc := Prepare(l.pc.p))
    case Reopen(ok, dropped) =>
      l.(fd := if dropped then None else l.fd,
         last := if ok then None else l.last,
         pc := if ok then Prepare(l.pc.p) else Unlocking(l.pc.p, 0, false))
    case KeepOpen => l.(pc := Landing(l.pc.p, 0))
    case OpenExisting =>
      var size := |l.disk.ActiveBytes()|;
      l.(fd := Some(Descriptor(l.disk.active.value, size, size)), pc := Landing(l.pc.p, 0))
    case OpenNew(ino, mtime) =>
      l.(disk := l.disk.Rename().Create(ino, mtime), fd := Some(Descriptor(ino, 0, 0)), pc := Landing(l.pc.p, 0))
    case OpenNewFails(renamed) =>
      l.(disk := if renamed then l.disk.Rename() else l.disk, fd := None, pc := Forget(l.pc.p, 0, false))
    case PrepareFails => l.(pc := Forget(l.pc.p, 0, false))
    case Land(k, mtime) =>
      var f := l.fd.value;
      l.(disk := l.disk.Put(f.ino, f.off, l.pc.p[l.pc.n..l.pc.n + k], mtime),
         fd := Some(Descriptor(f.ino, f.off + k, f.size + k)),
         pc := Landing(l.pc.p, l.pc.n + k))
    case WriteReturns(ok) => l.(pc := Forget(l.pc.p, l.pc.n, ok))
    case ForgetLast =>
      l.(last := None,
         pc := if l.pc.ok then Remember(l.pc.p, l.pc.n) else Unlocking(l.pc.p, l.pc.n, false))
    case StatAfter(ok) =>
      l.(last := if ok then l.disk.Stat() else l.last, pc := Unlocking(l.pc.p, l.pc.n, ok))
  }

  /** Between the logger's first step of a Write and the clearing of lastFile the
      snapshot is out of date; at every other point it must be trustworthy. */
  predicate Writing(pc: Pc) {
    pc.Landing? || pc.Forget?
  }

  /** An open descriptor pins its inode, and its offset is its cached size. */
  ghost predicate Pinned(disk: Disk, fd: Option<Descriptor>) {
    fd.Some? ==> fd.value.ino in disk.nodes && fd.value.off == fd.value.size
  }

  /** Whenever a snapshot is kept, the logger has no descriptor or one on that
      same file at the recorded size. */
  ghost predicate SnapshotAgrees(fd: Option<Descriptor>, last: Option<Info>) {
    fd.Some? && last.Some? ==> fd.value.ino == last.value.ino && fd.value.size == last.value.size
  }

  /** The open descriptor stands at the true end of the file now at the path. */
  ghost predicate AtEnd(l: Local) {
    l.fd.Some? ==> l.disk.active == Some(l.fd.value.ino) && l.fd.value.off == |l.disk.ActiveBytes()|
  }

  /** What is left of `p` still fits below the limit. */
  ghost predicate Fits(c: Config, l: Local, p: Bytes, n: nat) {
    |p| <= c.max ==> |l.disk.ActiveBytes()| + |p| - n <= c.max
  }

  /** A snapshot of the file being written is behind by the bytes put down since. */
  ghost predicate Behind(l: Local, n: nat) {
    l.fd.Some? && l.last.Some? && l.fd.value.ino == l.last.value.ino ==> l.fd.value.size == l.last.value.size + n
  }

  /** The logger has written to the file since the snapshot, or has moved on to
      another one, and lastFile has not been cleared yet. */
  predicate Stale(fd: Option<Descriptor>, last: Option<Info>, pc: Pc) {
    Writing(pc) && fd.Some? && last.Some? && (pc.n > 0 || fd.value.ino != last.value.ino)
  }

  ghost predicate LocalInv(c: Config, l: Local) {
    && l.disk.Valid()
    && Pinned(l.disk, l.fd)
    && (Writing(l.pc) || SnapshotAgrees(l.fd, l.last))
    && InCriticalSection(l.pc)
    && BytesDown(l.pc) <= |l.pc.p|
    && match l.pc
       case Decide(_, seen) => seen == l.disk.Stat()
       case Prepare(_) => AtEnd(l) && (l.last.Some? ==> l.last == l.disk.Stat())
       case Landing(p, n) => l.fd.Some? && AtEnd(l) && Fits(c, l, p, n) && Behind(l, n)
       case Forget(p, n, ok) =>
         (ok ==> n == |p| && l.fd.Some? && AtEnd(l) && Fits(c, l, p, n)) && Behind(l, n)
       case Remember(p, n) => n == |p| && l.last.None? && l.fd.Some? && AtEnd(l) && Fits(c, l, p, n)
       case Unlocking(p, n, ok) => ok ==> n == |p| && Fits(c, l, p, n) && l.last.Some? && l.last == l.disk.Stat()
       case _ => true
  }

  /** The snapshot disagrees with the descriptor exactly while it is stale. */
  lemma DisagreesExactlyWhenStale(c: Config, l: Local)
    requires LocalInv(c, l)
    ensures SnapshotAgrees(l.fd, l.last) <==> !Stale(l.fd, l.last, l.pc)
  {
  }

  /** The descriptor is trusted exactly if the snapshot is of the same file with the same
      size and time as the one now at the path; else the logger is closed. */
  lemma TrustsExactly(c: Config, l: Local, ok: bool, dropped: bool)
    requires l.pc.Decide?
    ensures var same := l.last.Some? && l.pc.seen.Some? && l.last.value.ino == l.pc.seen.value.ino
        && l.last.value.size == l.pc.seen.value.size && l.last.value.mtime == l.pc.seen.value.mtime;
      && (Enabled(c, l, Trust) <==> c.trusting && same)
      && (Enabled(c, l, Reopen(ok, dropped)) <==> !(c.trusting && same) && (ok ==> dropped))
  {
  }

  /** From `l` to `l'` the log grew by exactly the record bytes put down between. */
  ghost predicate Appended(l: Local, l': Local)
    requires InCriticalSection(l.pc) && InCriticalSection(l'.pc)
  {
    && l'.pc.p == l.pc.p
    && BytesDown(l.pc) <= BytesDown(l'.pc) <= |l.pc.p|
    && l'.disk.LogBytes() == l.disk.LogBytes() + l.pc.p[BytesDown(l.pc)..BytesDown(l'.pc)]
  }

  lemma AppendedTransitive(l: Local, m: Local, l': Local)
    requires InCriticalSection(l.pc) && InCriticalSection(m.pc) && InCriticalSection(l'.pc)
    requires Appended(l, m) && Appended(m, l')
    ensures Appended(l, l')
  {
    var from, mid, to := BytesDown(l.pc), BytesDown(m.pc), BytesDown(l'.pc);
    assert l.pc.p[from..to] == l.pc.p[from..mid] + l.pc.p[mid..to];
  }

  /** The heart of the protocol: every action inside the critical section keeps
      the invariant, extends the log by exactly the record bytes it puts down,
      and never frees an inode another descriptor may pin. */
  lemma ActionKeepsInv(c: Config, l: Local, a: Action)
    requires LocalInv(c, l) && Enabled(c, l, a)
    ensures Kept(c, l, Apply(c, l, a))
  {
    match a
    case OpenNew(ino, mtime) => OpenNewKeepsInv(c, l, ino, mtime);
    case OpenNewFails(_) => RenameKeepsLog(l.disk);
    case Land(k, mtime) => LandKeepsInv(c, l, k, mtime);
    case _ =>
  }

  ghost predicate Kept(c: Config, l: Local, l': Local)
    requires LocalInv(c, l)
  {
    LocalInv(c, l') && Appended(l, l') && l.disk.nodes.Keys <= l'.disk.nodes.Keys
  }

  lemma OpenNewKeepsInv(c: Config, l: Local, ino: Ino, mtime: int)
    requires LocalInv(c, l) && Enabled(c, l, OpenNew(ino, mtime))
    ensures Kept(c, l, Apply(c, l, OpenNew(ino, mtime)))
  {
    RenameKeepsLog(l.disk);
    CreateKeepsLog(l.disk.Rename(), ino, mtime);
  }

  lemma LandKeepsInv(c: Config, l: Local, k: nat, mtime: int)
    requires LocalInv(c, l) && Enabled(c, l, Land(k, mtime))
    ensures Kept(c, l, Apply(c, l, Land(k, mtime)))
  {
    PutAtEndAppends(l.disk, l.fd.value.ino, l.pc.p[l.pc.n..l.pc.n + k], mtime);
  }
}
