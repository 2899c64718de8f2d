/** The sequential code of one call, as the program writes it: fields updated in
    place by refresh, the logger's Write, and remember. Each method leaves a ghost
    trail of the actions it performed, and the trail is a path of the critical
    section that the protocol interleaves. I/O outcomes are arbitrary. */
module LockedWriter {
  import opened Options
  import opened Storage
  import opened CriticalSection
  import P = LockProtocol
  import R = WriterRuns

  /** Performing `acts` one after the other leads from `l` to `l'`. */
  ghost predicate Leads(c: Config, l: Local, acts: seq<Action>, l': Local)
    decreases acts
  {
    if acts == [] then l' == l
    else Enabled(c, l, acts[0]) && Leads(c, Apply(c, l, acts[0]), acts[1..], l')
  }

  lemma {:induction false} LeadsOn(c: Config, l: Local, acts: seq<Action>, m: Local, more: seq<Action>, l': Local)
    requires Leads(c, l, acts, m) && Leads(c, m, more, l')
    ensures Leads(c, l, acts + more, l')
    decreases acts
  {
    if acts == [] {
      assert acts + more == more;
    } else {
      LeadsOn(c, Apply(c, l, acts[0]), acts[1..], m, more, l');
      assert (acts + more)[1..] == acts[1..] + more;
    }
  }

  lemma LeadsOne(c: Config, l: Local, acts: seq<Action>, m: Local, a: Action)
    requires Leads(c, l, acts, m) && Enabled(c, m, a)
    ensures Leads(c, l, acts + [a], Apply(c, m, a))
  {
    assert Leads(c, Apply(c, m, a), [a][1..], Apply(c, m, a));
    LeadsOn(c, l, acts, m, [a], Apply(c, m, a));
  }

  /** Whatever path the call takes, the log grows by exactly the bytes it put down. */
  lemma {:induction false} PathAppends(c: Config, l: Local, acts: seq<Action>, l': Local)
    requires LocalInv(c, l) && Leads(c, l, acts, l')
    ensures LocalInv(c, l') && Appended(l, l')
    decreases acts
  {
    if acts != [] {
      ActionKeepsInv(c, l, acts[0]);
      PathAppends(c, Apply(c, l, acts[0]), acts[1..], l');
      AppendedTransitive(l, Apply(c, l, acts[0]), l');
    }
  }

  // ---- the code's paths are steps of the protocol ----

  function InsideSteps(t: P.Tid, acts: seq<Action>): seq<P.Step> {
    seq(|acts|, i requires 0 <= i < |acts| => P.Inside(t, acts[i]))
  }

  /** Every path the code can take is a sequence of protocol steps of the goroutine
      that runs it, ending with the same caches, disk and position. */
  lemma {:induction false} PathIsSteps(c: Config, s: P.State, t: P.Tid, acts: seq<Action>, l': Local)
    returns (s': P.State)
    requires P.Owns(s, t) && Leads(c, P.LocalOf(s, t), acts, l')
    ensures R.Performs(c, s, InsideSteps(t, acts), s')
    ensures P.Owns(s', t) && P.LocalOf(s', t) == l'
    decreases acts
  {
    if acts == [] {
      s' := s;
    } else {
      var next := P.Next(c, s, P.Inside(t, acts[0]));
      assert P.LocalOf(next, t) == Apply(c, P.LocalOf(s, t), acts[0]);
      s' := PathIsSteps(c, next, t, acts[1..], l');
      assert InsideSteps(t, acts)[1..] == InsideSteps(t, acts[1..]);
    }
  }

  datatype StatError = NoError | NotExist | Other

  /** The operating system. Any operation may fail, and `errors` counts those that do;
      that a file does not exist is an answer, not an error. */
  class FileSystem {
    var disk: Disk
    ghost var errors: nat

    method Attempt() returns (ok: bool)
      modifies this`errors
      ensures errors == old(errors) + if ok then 0 else 1
    {
      ok := *;
      errors := errors + if ok then 0 else 1;
    }

    method Stat() returns (info: Option<Info>, err: StatError)
      modifies this`errors
      ensures err == NoError ==> info.Some? && info == disk.Stat()
      ensures err == NotExist ==> info.None? && info == disk.Stat()
      ensures err == Other ==> info.None?
      ensures errors == old(errors) + if err == Other then 1 else 0
    {
      var ok := Attempt();
      if !ok {
        return None, Other;
      }
      info := disk.Stat();
      err := if info.Some? then NoError else NotExist;
    }
  }

  /** The rotating logger, by the contract the writer relies on. */
  class Logger {
    const max: nat
    const fs: FileSystem
    var fd: Option<Descriptor>

    constructor (fs: FileSystem, max: nat)
      ensures this.fs == fs && this.max == max && fd.None?
    {
      this.fs, this.max, fd := fs, max, None;
    }

    ghost function At(last: Option<Info>, pc: Pc): Local
      reads this, fs
    {
      Local(fs.disk, fd, last, pc)
    }

    ghost function Conf(): Config {
      Config(max, true)
    }

    method Close() returns (ok: bool, ghost dropped: bool)
      modifies this`fd, fs`errors
      ensures ok ==> dropped
      ensures fd == if dropped then None else old(fd)
      ensures fs.errors == old(fs.errors) + if ok then 0 else 1
    {
      ok := fs.Attempt();
      var kept: bool := *;
      dropped := ok || !kept;
      if ok || !kept {
        fd := None;
      }
    }

    /** Rename whatever is at the path and start an empty file. */
    method StartFile(ghost last: Option<Info>, ghost p: Bytes) returns (ok: bool, ghost act: Action)
      requires NewFileAllowed(Conf(), At(last, Prepare(p)), p)
      modifies this`fd, fs
      ensures Enabled(Conf(), old(At(last, Prepare(p))), act)
      ensures At(last, if ok then Landing(p, 0) else Forget(p, 0, false)) ==
              Apply(Conf(), old(At(last, Prepare(p))), act)
      ensures fs.errors == old(fs.errors) + if ok then 0 else 1
    {
      fd := None;
      ok := fs.Attempt();
      var renamed: bool := *;
      if ok || renamed {
        fs.disk := fs.disk.Rename();
      }
      act := OpenNewFails(renamed);
      if ok {
        ghost var unused := FreshIno(fs.disk.nodes.Keys);
        assert unused !in fs.disk.nodes;
        var ino: Ino :| ino !in fs.disk.nodes;
        var mtime: int := *;
        fs.disk := fs.disk.Create(ino, mtime);
        fd := Some(Descriptor(ino, 0, 0));
        act := OpenNew(ino, mtime);
      }
    }

    /** Make sure a descriptor with room for p is open: keep it, reopen the path,
        or rotate. */
    method EnsureOpen(ghost last: Option<Info>, p: Bytes) returns (ok: bool, ghost act: Action)
      modifies this`fd, fs
      ensures Enabled(Conf(), old(At(last, Prepare(p))), act)
      ensures At(last, if ok then Landing(p, 0) else Forget(p, 0, false)) ==
              Apply(Conf(), old(At(last, Prepare(p))), act)
      ensures fs.errors == old(fs.errors) + if ok then 0 else 1
    {
      var accepted := fs.Attempt();
      if !accepted {
        return false, PrepareFails;
      }
      if fd.Some? && fd.value.size + |p| <= max {
        return true, KeepOpen;
      }
      var size := |fs.disk.ActiveBytes()|;
      var keepAtLimit: bool := *;
      if fd.None? && fs.disk.active.Some? && (size + |p| < max || (size + |p| == max && keepAtLimit)) {
        fd := Some(Descriptor(fs.disk.active.value, size, size));
        return true, OpenExisting;
      }
      ok, act := StartFile(last, p);
    }

    /** Put some of the rest of p where the descriptor stands, and advance it. */
    method PutChunk(ghost last: Option<Info>, p: Bytes, n: nat) returns (n': nat, ghost act: Action)
      requires n < |p| && fd.Some?
      modifies this`fd, fs
      ensures n < n' <= |p| && fd.Some?
      ensures Enabled(Conf(), old(At(last, Landing(p, n))), act)
      ensures At(last, Landing(p, n')) == Apply(Conf(), old(At(last, Landing(p, n))), act)
      ensures fs.errors == old(fs.errors)
    {
      assert 0 < 1 <= |p| - n;
      var k: nat :| 0 < k <= |p| - n;
      var mtime: int := *;
      fs.disk := fs.disk.Put(fd.value.ino, fd.value.off, p[n..n + k], mtime);
      fd := Some(Descriptor(fd.value.ino, fd.value.off + k, fd.value.size + k));
      n', act := n + k, Land(k, mtime);
    }

    /** Append p in any number of chunks; an error may strike between them. */
    method Write(ghost last: Option<Info>, p: Bytes) returns (n: nat, ok: bool, ghost acts: seq<Action>)
      modifies this`fd, fs
      ensures n <= |p|
      ensures Leads(Conf(), old(At(last, Prepare(p))), acts, At(last, Forget(p, n, ok)))
      ensures fs.errors == old(fs.errors) + if ok then 0 else 1
    {
      n := 0;
      ghost var start := At(last, Prepare(p));
      ghost var act;
      ok, act := EnsureOpen(last, p);
      LeadsOne(Conf(), start, [], start, act);
      acts := [act];
      if !ok {
        return;
      }
      while n < |p|
        invariant ok && n <= |p| && fd.Some? && fs.errors == old(fs.errors)
        invariant Leads(Conf(), start, acts, At(last, Landing(p, n)))
      {
        ghost var here := At(last, Landing(p, n));
        ok := fs.Attempt();
        if !ok {
          LeadsOne(Conf(), start, acts, here, WriteReturns(false));
          acts := acts + [WriteReturns(false)];
          return;
        }
        n, act := PutChunk(last, p, n);
        LeadsOne(Conf(), start, acts, here, act);
        acts := acts + [act];
      }
      LeadsOne(Conf(), start, acts, At(last, Landing(p, n)), WriteReturns(true));
      acts := acts + [WriteReturns(true)];
    }
  }

  class LockedRotation {
    const logger: Logger
    var lastFile: Option<Info>

    constructor (logger: Logger)
      ensures this.logger == logger && lastFile.None?
    {
      this.logger, lastFile := logger, None;
    }

    ghost function At(pc: Pc): Local
      reads this, logger, logger.fs
    {
      logger.At(lastFile, pc)
    }

    method Refresh(ghost p: Bytes) returns (ok: bool, ghost acts: seq<Action>)
      modifies this, logger`fd, logger.fs`errors
      ensures Leads(logger.Conf(), old(At(StatPath(p))), acts,
                    At(if ok then Prepare(p) else Unlocking(p, 0, false)))
      ensures logger.fs.errors == old(logger.fs.errors) + if ok then 0 else 1
      ensures ok ==>
        if old(lastFile.Some? && lastFile == logger.fs.disk.Stat())
        then logger.fd == old(logger.fd) && lastFile == old(lastFile)
        else logger.fd.None? && lastFile.None?
    {
      ghost var start := At(StatPath(p));
      var info, err := logger.fs.Stat();
      LeadsOne(logger.Conf(), start, [], start, StatBefore(err != Other));
      acts := [StatBefore(err != Other)];
      if err == Other {
        return false, acts;
      }
      if lastFile.Some? && info.Some? && lastFile.value.ino == info.value.ino
         && lastFile.value.size == info.value.size && lastFile.value.mtime == info.value.mtime {
        LeadsOne(logger.Conf(), start, acts, At(Decide(p, info)), Trust);
        return true, acts + [Trust];
      }
      ghost var here := At(Decide(p, info));
      ghost var dropped;
      ok, dropped := logger.Close();
      LeadsOne(logger.Conf(), start, acts, here, Reopen(ok, dropped));
      acts := acts + [Reopen(ok, dropped)];
      if !ok {
        return;
      }
      lastFile := None;
    }

    method TakeSnapshot(ghost p: Bytes, ghost n: nat) returns (ok: bool, ghost acts: seq<Action>)
      modifies this, logger.fs`errors
      ensures Leads(logger.Conf(), old(At(Remember(p, n))), acts, At(Unlocking(p, n, ok)))
      ensures ok <==> logger.fs.errors == old(logger.fs.errors) && logger.fs.disk.Stat().Some?
      ensures lastFile == if ok then logger.fs.disk.Stat() else old(lastFile)
    {
      ghost var start := At(Remember(p, n));
      var info, err := logger.fs.Stat();
      ok := err == NoError;
      LeadsOne(logger.Conf(), start, [], start, StatAfter(ok));
      acts := [StatAfter(ok)];
      if ok {
        lastFile := info;
      }
    }
  }

  class LockedWriteCloser {
    const rotation: LockedRotation

    /** A new writer trusts nothing yet, so it may wrap a logger in any coherent state. */
    constructor (wc: Logger)
      requires wc.fs.disk.Valid() && Pinned(wc.fs.disk, wc.fd)
      ensures Valid() && fresh(rotation) && rotation.logger == wc && rotation.lastFile.None?
    {
      rotation := new LockedRotation(wc);
    }

    /** What the protocol guarantees when a goroutine has both locks. */
    ghost predicate Valid()
      reads this, rotation, rotation.logger, rotation.logger.fs
    {
      && rotation.logger.fs.disk.Valid()
      && Pinned(rotation.logger.fs.disk, rotation.logger.fd)
      && SnapshotAgrees(rotation.logger.fd, rotation.lastFile)
    }

    /** The body of Write between taking and releasing the locks. It is a path of
        the protocol's critical section; and on every path, error or not, the log
        grows by exactly p[..n] and the caches stay coherent. It succeeds exactly if no
        operation failed, and then with the whole record, a file within the limit and
        a snapshot of the file now at the path. */
    method Write(p: Bytes) returns (n: nat, ok: bool, locked: bool, ghost acts: seq<Action>)
      requires Valid()
      modifies rotation, rotation.logger`fd, rotation.logger.fs
      ensures Valid()
      ensures ok <==> rotation.logger.fs.errors == old(rotation.logger.fs.errors)
      ensures !locked ==> n == 0 && !ok && unchanged(rotation, rotation.logger, rotation.logger.fs`disk)
      ensures ok ==> rotation.lastFile.Some? && rotation.lastFile == rotation.logger.fs.disk.Stat()
      ensures locked ==>
        Leads(rotation.logger.Conf(), old(rotation.At(StatPath(p))), acts, rotation.At(Unlocking(p, n, ok)))
      ensures n <= |p| && (ok ==> n == |p|)
      ensures rotation.logger.fs.disk.LogBytes() == old(rotation.logger.fs.disk.LogBytes()) + p[..n]
      ensures ok && |p| <= rotation.logger.max ==> |rotation.logger.fs.disk.ActiveBytes()| <= rotation.logger.max
    {
      n, acts := 0, [];
      locked := rotation.logger.fs.Attempt();
      if !locked {
        return 0, false, false, [];
      }
      ghost var start := rotation.At(StatPath(p));
      n, ok, acts := WriteLocked(p);
      PathAppends(rotation.logger.Conf(), start, acts, rotation.At(Unlocking(p, n, ok)));
    }

    method WriteLocked(p: Bytes) returns (n: nat, ok: bool, ghost acts: seq<Action>)
      modifies rotation, rotation.logger`fd, rotation.logger.fs
      requires Valid()
      ensures n <= |p|
      ensures Leads(rotation.logger.Conf(), old(rotation.At(StatPath(p))), acts, rotation.At(Unlocking(p, n, ok)))
      ensures ok <==> rotation.logger.fs.errors == old(rotation.logger.fs.errors)
    {
      ghost var c, start := rotation.logger.Conf(), rotation.At(StatPath(p));
      ghost var more: seq<Action>;
      ok, acts := rotation.Refresh(p);
      if !ok {
        return 0, false, acts;
      }
      ghost var here := rotation.At(Prepare(p));
      n, ok, more := rotation.logger.Write(rotation.lastFile, p);
      LeadsOn(c, start, acts, here, more, rotation.At(Forget(p, n, ok)));
      LeadsOne(c, start, acts + more, rotation.At(Forget(p, n, ok)), ForgetLast);
      acts := acts + more + [ForgetLast];
      rotation.lastFile := None;
      if !ok {
        return;
      }
      here := rotation.At(Remember(p, n));
      PathAppends(c, start, acts, here);
      ok, more := rotation.TakeSnapshot(p, n);
      LeadsOn(c, start, acts, here, more, rotation.At(Unlocking(p, n, ok)));
      acts := acts + more;
    }

    /** Close takes only the mutex and leaves lastFile set; the cache stays coherent
        because a dropped descriptor is never stale. */
    method Close() returns (ok: bool)
      requires Valid()
      modifies rotation.logger`fd, rotation.logger.fs`errors
      ensures Valid()
      ensures ok <==> rotation.logger.fs.errors == old(rotation.logger.fs.errors)
      ensures ok ==> rotation.logger.fd.None?
      ensures rotation.logger.fd.None? || rotation.logger.fd == old(rotation.logger.fd)
    {
      ghost var dropped;
      ok, dropped := rotation.logger.Close();
    }
  }
}
