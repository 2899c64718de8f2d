/** The part of a file system that the locked writer depends on: one log path,
    the archives that rotation renamed away from it, and the inodes behind them.
    A descriptor names an inode, not a path, so a stale one can still write into
    an archive or into a file that is no longer linked anywhere. */
module Storage {
  import opened Options

  newtype byte = b: int | 0 <= b < 0x100
  type Bytes = seq<byte>
  type Ino = nat

  datatype Node = Node(content: Bytes, mtime: int)

  /** What os.Stat reports: enough for SameFile, Size and ModTime. */
  datatype Info = Info(ino: Ino, size: nat, mtime: int)

  function Content(nodes: map<Ino, Node>, ino: Ino): Bytes {
    if ino in nodes then nodes[ino].content else []
  }

  /** The archived bytes, oldest archive first. */
  function ArchiveBytes(archives: seq<Ino>, nodes: map<Ino, Node>): Bytes {
    if archives == [] then []
    else ArchiveBytes(archives[..|archives| - 1], nodes) + Content(nodes, archives[|archives| - 1])
  }

  function Zeros(n: nat): Bytes {
    seq(n, _ => 0)
  }

  /** A write at an explicit offset: it overwrites what is there, and leaves a
      hole of zero bytes when the offset lies past the end. */
  function WriteAt(content: Bytes, off: nat, chunk: Bytes): Bytes {
    var base := if off <= |content| then content else content + Zeros(off - |content|);
    base[..off] + chunk + (if off + |chunk| <= |base| then base[off + |chunk|..] else [])
  }

  /** Cell by cell: the chunk where it was written, what was there before elsewhere, and
      zero bytes in a hole between the old end and the chunk. */
  lemma WrittenCells(content: Bytes, off: nat, chunk: Bytes, k: nat)
    ensures var after := WriteAt(content, off, chunk);
      && |after| == (if |content| > off + |chunk| then |content| else off + |chunk|)
      && (k < |after| ==>
            after[k] == if off <= k < off + |chunk| then chunk[k - off] else if k < |content| then content[k] else 0)
  {
  }

  datatype Disk = Disk(active: Option<Ino>, nodes: map<Ino, Node>, archives: seq<Ino>) {

    ghost predicate Valid() {
      && (active.Some? ==> active.value in nodes && active.value !in archives)
      && (forall k | 0 <= k < |archives| :: archives[k] in nodes)
      && (forall j, k | 0 <= j < k < |archives| :: archives[j] != archives[k])
    }

    function ActiveBytes(): Bytes {
      if active.Some? then Content(nodes, active.value) else []
    }

    /** All log bytes: the archives in rotation order, then the active file. */
    function LogBytes(): Bytes {
      ArchiveBytes(archives, nodes) + ActiveBytes()
    }

    function Stat(): Option<Info> {
      if active.Some? && active.value in nodes
      then Some(Info(active.value, |nodes[active.value].content|, nodes[active.value].mtime))
      else None
    }

    /** Write through a descriptor on `ino`. */
    function Put(ino: Ino, off: nat, chunk: Bytes, mtime: int): Disk {
      this.(nodes := nodes[ino := Node(WriteAt(Content(nodes, ino), off, chunk), mtime)])
    }

    /** Rename the active file to a fresh archive name. */
    function Rename(): Disk {
      if active.Some? then this.(active := None, archives := archives + [active.value]) else this
    }

    /** Create an empty file at the path. */
    function Create(ino: Ino, mtime: int): Disk {
      this.(active := Some(ino), nodes := nodes[ino := Node([], mtime)])
    }

    /** Drop an inode that nothing refers to any more; its number may be reused. */
    function Reclaim(ino: Ino): Disk {
      this.(nodes := nodes - {ino})
    }
  }

  /** A stat tells file, size and time of what is at the path, or that nothing is. */
  lemma StatSays(d: Disk)
    requires d.Valid()
    ensures d.Stat().None? <==> d.active.None?
    ensures d.active.Some? ==>
      && d.Stat().value.ino == d.active.value && d.Stat().value.size == |d.nodes[d.active.value].content|
      && d.Stat().value.mtime == d.nodes[d.active.value].mtime
  {
  }

  lemma {:induction false} ArchivesUnchanged(archives: seq<Ino>, before: map<Ino, Node>, after: map<Ino, Node>)
    requires forall a | a in archives :: Content(before, a) == Content(after, a)
    ensures ArchiveBytes(archives, before) == ArchiveBytes(archives, after)
  {
    if archives != [] {
      ArchivesUnchanged(archives[..|archives| - 1], before, after);
    }
  }

  /** A write exactly at the end of the active file extends the log and nothing else. */
  lemma PutAtEndAppends(d: Disk, ino: Ino, chunk: Bytes, mtime: int)
    requires d.Valid() && d.active == Some(ino)
    ensures var d' := d.Put(ino, |d.ActiveBytes()|, chunk, mtime);
      && d'.Valid()
      && d'.ActiveBytes() == d.ActiveBytes() + chunk
      && d'.LogBytes() == d.LogBytes() + chunk
  {
    var d' := d.Put(ino, |d.ActiveBytes()|, chunk, mtime);
    ArchivesUnchanged(d.archives, d.nodes, d'.nodes);
  }

  /** Renaming moves the active bytes behind the archives without changing the log. */
  lemma RenameKeepsLog(d: Disk)
    requires d.Valid()
    ensures d.Rename().Valid() && d.Rename().LogBytes() == d.LogBytes()
    ensures d.Rename().active.None? && d.Rename().nodes == d.nodes
  {
    if d.active.Some? {
      assert (d.archives + [d.active.value])[..|d.archives|] == d.archives;
    }
  }

  lemma CreateKeepsLog(d: Disk, ino: Ino, mtime: int)
    requires d.Valid() && d.active.None? && ino !in d.nodes
    ensures d.Create(ino, mtime).Valid() && d.Create(ino, mtime).LogBytes() == d.LogBytes()
  {
    ArchivesUnchanged(d.archives, d.nodes, d.Create(ino, mtime).nodes);
  }

  lemma ReclaimKeepsLog(d: Disk, ino: Ino)
    requires d.Valid() && d.active != Some(ino) && ino !in d.archives
    ensures d.Reclaim(ino).Valid() && d.Reclaim(ino).LogBytes() == d.LogBytes()
  {
    ArchivesUnchanged(d.archives, d.nodes, d.Reclaim(ino).nodes);
  }

  /** There is always an unused inode number. */
  lemma {:induction false} FreshIno(used: set<Ino>) returns (ino: Ino)
    ensures forall i | i in used :: i < ino
    decreases |used|
  {
    if used == {} {
      ino := 0;
    } else {
      var i :| i in used;
      var rest := FreshIno(used - {i});
      ino := if rest > i then rest else i + 1;
      forall j | j in used ensures j < ino {
        if j != i { assert j in used - {i}; }
      }
    }
  }
}
