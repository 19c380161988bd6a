/** A directory on a disk that may lose power at any moment, and the atomic write
    that every state file goes through.

    Two things are volatile: the bytes of a file that has not been synced, and the
    changes made to the directory since it was last synced. A power loss keeps any
    subset of those directory changes (each create and each rename as a whole), and
    leaves anything at all in an unsynced file. */
module Disk {
  import opened Text

  /** A state file, or the temporary one a process puts beside it: only the
      extension is replaced, so files with one stem share a temporary name. */
  datatype Name = File(stem: string, ext: string) | Temp(stem: string, pid: nat)

  datatype Inode<C> = Inode(data: C, synced: bool)

  /** `current` is the directory a running process sees; `possible` holds every
      directory that a power loss at this moment may leave. */
  datatype Volume<C> = Volume(inodes: map<nat, Inode<C>>, current: map<Name, nat>, possible: set<map<Name, nat>>)

  ghost predicate DirectoryOk<C>(v: Volume<C>, d: map<Name, nat>) {
    && (forall n | n in d :: d[n] in v.inodes)
    && (forall m, n | m in d && n in d && d[m] == d[n] :: m == n)
  }

  /** No name shares a file, and a temporary file in sight was never published. */
  ghost predicate WellFormed<C>(v: Volume<C>) {
    && v.current in v.possible
    && (forall d | d in v.possible :: DirectoryOk(v, d))
    && (forall n | n in v.current && n.Temp? :: Unpublished(v, n, v.current[n]))
  }

  ghost predicate Unpublished<C>(v: Volume<C>, temp: Name, inode: nat) {
    forall d, n | d in v.possible && n in d && n != temp :: d[n] != inode
  }

  /** What a running process reads. */
  function Content<C>(v: Volume<C>, n: Name): Option<C> {
    if n in v.current && v.current[n] in v.inodes then Some(v.inodes[v.current[n]].data) else None
  }

  ghost predicate ReadsIn<C>(v: Volume<C>, d: map<Name, nat>, n: Name, c: Option<C>) {
    if n !in d then c.None?
    else d[n] in v.inodes && c.Some? && (v.inodes[d[n]].synced ==> c.value == v.inodes[d[n]].data)
  }

  /** `c` is something that may be found under `n` after a power loss now. */
  ghost predicate MayRead<C>(v: Volume<C>, n: Name, c: Option<C>) {
    exists d | d in v.possible :: ReadsIn(v, d, n, c)
  }

  /** `n` holds `c` (or, for `None`, is absent) now and after any power loss. */
  ghost predicate Durably<C(!new)>(v: Volume<C>, n: Name, content: Option<C>) {
    && Content(v, n) == content
    && (forall c | MayRead(v, n, c) :: c == content)
  }

  // ---------- Power loss ----------

  ghost predicate PowerLoss<C>(v: Volume<C>, after: Volume<C>) {
    && after.current in v.possible && after.possible == {after.current}
    && after.inodes.Keys == v.inodes.Keys
    && (forall i | i in v.inodes :: after.inodes[i].synced && (v.inodes[i].synced ==> after.inodes[i].data == v.inodes[i].data))
  }

  /** `MayRead` is exactly what some power loss leaves. */
  lemma MayReadIsPowerLoss<C(!new)>(v: Volume<C>, n: Name, c: Option<C>)
    requires WellFormed(v)
    ensures MayRead(v, n, c) <==> exists after :: PowerLoss(v, after) && Content(after, n) == c
  {
    if MayRead(v, n, c) {
      var d :| d in v.possible && ReadsIn(v, d, n, c);
      assert DirectoryOk(v, d);
      var inodes := map i | i in v.inodes ::
        Inode(if n in d && i == d[n] then c.value else v.inodes[i].data, true);
      var after := Volume(inodes, d, {d});
      assert PowerLoss(v, after) && Content(after, n) == c;
    }
    forall after | PowerLoss(v, after) && Content(after, n) == c
      ensures MayRead(v, n, c)
    {
      assert DirectoryOk(v, after.current);
      assert ReadsIn(v, after.current, n, c);
    }
  }

  /** A power loss leaves a usable directory on which nothing new may be read. */
  lemma PowerLossRecovers<C(!new)>(v: Volume<C>, after: Volume<C>)
    requires WellFormed(v) && PowerLoss(v, after)
    ensures WellFormed(after)
    ensures forall n: Name, c | MayRead(after, n, c) :: MayRead(v, n, c)
    ensures forall n, content | Durably(v, n, content) :: Durably(after, n, content)
  {
    assert DirectoryOk(v, after.current);
    forall n: Name, c | MayRead(after, n, c)
      ensures MayRead(v, n, c)
    {
      assert ReadsIn(v, after.current, n, c);
    }
    forall n, content | Durably(v, n, content)
      ensures Durably(after, n, content)
    {
      assert ReadsIn(after, after.current, n, Content(after, n));
      assert MayRead(after, n, Content(after, n));
    }
  }

  // ---------- Old or new, never a mix ----------

  /** To running processes `target` is as before or holds `content`; other files are as before. */
  ghost predicate ReadersSee<C>(before: Volume<C>, v: Volume<C>, target: Name, content: C) {
    && (Content(v, target) == Content(before, target) || Content(v, target) == Some(content))
    && (forall n: Name | n.File? && n != target :: Content(v, n) == Content(before, n))
  }

  /** A power loss may leave what `before` allowed, and under `target` also `content`;
      and that is all that running processes may see as well. */
  ghost predicate OldOrNew<C(!new)>(before: Volume<C>, v: Volume<C>, target: Name, content: C) {
    && (forall c | MayRead(v, target, c) :: MayRead(before, target, c) || c == Some(content))
    && (forall n: Name, c | n.File? && n != target && MayRead(v, n, c) :: MayRead(before, n, c))
    && ReadersSee(before, v, target, content)
  }

  /** What a running process reads is always one of the things a power loss may leave. */
  lemma ContentMayBeRead<C>(v: Volume<C>, n: Name)
    requires WellFormed(v)
    ensures MayRead(v, n, Content(v, n))
  {
    assert DirectoryOk(v, v.current);
    assert ReadsIn(v, v.current, n, Content(v, n));
  }

  /** A step after which nothing new can be read, now or after a power loss. */
  ghost predicate Quiet<C(!new)>(v: Volume<C>, w: Volume<C>) {
    && (forall n: Name, c | n.File? && MayRead(w, n, c) :: MayRead(v, n, c))
    && (forall n: Name | n.File? :: Content(w, n) == Content(v, n))
  }

  lemma QuietSteps<C(!new)>(before: Volume<C>, v: Volume<C>, w: Volume<C>, target: Name, content: C)
    requires target.File? && OldOrNew(before, v, target, content) && Quiet(v, w)
    ensures OldOrNew(before, w, target, content)
  {
  }

  lemma QuietTrace<C(!new)>(before: Volume<C>, v: Volume<C>, trace: seq<Volume<C>>, from: nat, target: Name, content: C)
    requires target.File? && OldOrNew(before, v, target, content)
    requires forall k | from <= k < |trace| :: Quiet(v, trace[k])
    ensures forall k | from <= k < |trace| :: OldOrNew(before, trace[k], target, content)
  {
    forall k | from <= k < |trace|
      ensures OldOrNew(before, trace[k], target, content)
    {
      QuietSteps(before, v, trace[k], target, content);
    }
  }

  lemma Unmoved<C(!new)>(v: Volume<C>, target: Name, content: C)
    ensures OldOrNew(v, v, target, content) && Quiet(v, v)
  {
  }

  lemma QuietThenNew<C(!new)>(before: Volume<C>, v: Volume<C>, w: Volume<C>, target: Name, content: C)
    requires target.File? && OldOrNew(before, v, target, content) && OldOrNew(v, w, target, content)
    ensures OldOrNew(before, w, target, content)
  {
  }

  /** Main result, read at any point of the trace of `Drive.AtomicWrite`: a power loss
      then leaves exactly the old content or exactly the new one. */
  lemma PowerLossLeavesOldOrNew<C(!new)>(before: Volume<C>, v: Volume<C>, after: Volume<C>, target: Name, previous: Option<C>, content: C)
    requires WellFormed(v) && target.File? && Durably(before, target, previous)
    requires OldOrNew(before, v, target, content) && PowerLoss(v, after)
    ensures Content(after, target) == previous || Content(after, target) == Some(content)
  {
    assert DirectoryOk(v, after.current);
    assert ReadsIn(v, after.current, target, Content(after, target));
    assert MayRead(v, target, Content(after, target));
  }

  /** What was written durably stays through a write of another file. */
  lemma DurableThroughOtherWrite<C(!new)>(before: Volume<C>, v: Volume<C>, other: Name, content: C, n: Name, kept: Option<C>)
    requires other.File? && n.File? && n != other && Durably(before, n, kept)
    requires OldOrNew(before, v, other, content)
    ensures Durably(v, n, kept)
  {
  }

  // ---------- The effect of each system call ----------

  /** Opening a temporary name for writing: a leftover file is emptied in place. */
  function Create<C>(v: Volume<C>, temp: Name, i: nat, empty: C): Volume<C> {
    if temp in v.current then v.(inodes := v.inodes[v.current[temp] := Inode(empty, false)])
    else Volume(v.inodes[i := Inode(empty, false)], v.current[temp := i],
                v.possible + set d | d in v.possible :: d[temp := i])
  }

  function Write<C>(v: Volume<C>, i: nat, data: C): Volume<C> {
    v.(inodes := v.inodes[i := Inode(data, false)])
  }

  function Sync<C>(v: Volume<C>, i: nat): Volume<C>
    requires i in v.inodes
  {
    v.(inodes := v.inodes[i := v.inodes[i].(synced := true)])
  }

  function Renamed(d: map<Name, nat>, temp: Name, target: Name, i: nat): map<Name, nat> {
    (d - {temp})[target := i]
  }

  function Rename<C>(v: Volume<C>, temp: Name, target: Name): Volume<C>
    requires temp in v.current
  {
    var i := v.current[temp];
    v.(current := Renamed(v.current, temp, target, i),
       possible := v.possible + set d | d in v.possible :: Renamed(d, temp, target, i))
  }

  function SyncDirectory<C>(v: Volume<C>): Volume<C> {
    v.(possible := {v.current})
  }

  // ---------- What each system call keeps ----------

  lemma CreateKeeps<C(!new)>(v: Volume<C>, temp: Name, i: nat, empty: C)
    requires WellFormed(v) && temp.Temp? && i !in v.inodes
    ensures var w := Create(v, temp, i, empty);
      WellFormed(w) && temp in w.current && w.inodes.Keys <= v.inodes.Keys + {i}
      && Quiet(v, w)
  {
    hide Quiet, MayRead, DirectoryOk, Unpublished;
    CreateQuiet(v, temp, i, empty);
    CreateDirectories(v, temp, i, empty);
    CreateUnpublished(v, temp, i, empty);
    DirectoryKept(v, v.current, temp, i, empty);
  }

  lemma DirectoryKept<C>(v: Volume<C>, d: map<Name, nat>, temp: Name, i: nat, empty: C)
    requires DirectoryOk(v, d) && i !in v.inodes
    ensures DirectoryOk(Create(v, temp, i, empty), d)
    ensures temp !in v.current ==> DirectoryOk(Create(v, temp, i, empty), d[temp := i])
    ensures temp in d ==> d[temp] in v.inodes
  {
  }

  lemma CreateDirectories<C>(v: Volume<C>, temp: Name, i: nat, empty: C)
    requires WellFormed(v) && temp.Temp? && i !in v.inodes
    ensures var w := Create(v, temp, i, empty);
      forall d | d in w.possible :: DirectoryOk(w, d)
  {
    hide DirectoryOk, Unpublished;
    var w := Create(v, temp, i, empty);
    forall d | d in w.possible
      ensures DirectoryOk(w, d)
    {
      var e :| e in v.possible && (d == e || (temp !in v.current && d == e[temp := i]));
      DirectoryKept(v, e, temp, i, empty);
    }
  }

  lemma CreateUnpublished<C>(v: Volume<C>, temp: Name, i: nat, empty: C)
    requires WellFormed(v) && temp.Temp? && i !in v.inodes
    ensures var w := Create(v, temp, i, empty);
      forall n | n in w.current && n.Temp? :: Unpublished(w, n, w.current[n])
  {
    assert DirectoryOk(v, v.current);
    assert forall d | d in v.possible :: DirectoryOk(v, d);
  }

  lemma CreateQuiet<C(!new)>(v: Volume<C>, temp: Name, i: nat, empty: C)
    requires WellFormed(v) && temp.Temp? && i !in v.inodes
    ensures Quiet(v, Create(v, temp, i, empty))
  {
    var w := Create(v, temp, i, empty);
    forall n: Name, c | n.File? && MayRead(w, n, c)
      ensures MayRead(v, n, c)
    {
      var d :| d in w.possible && ReadsIn(w, d, n, c);
      var e :| e in v.possible && (d == e || d == e[temp := i]);
      assert DirectoryOk(v, e);
      assert ReadsIn(v, e, n, c);
    }
  }

  /** Writing to and syncing a file that was never published changes no published file. */
  lemma UnpublishedKeeps<C(!new)>(v: Volume<C>, temp: Name, inode: Inode<C>)
    requires WellFormed(v) && temp.Temp? && temp in v.current
    ensures var w := v.(inodes := v.inodes[v.current[temp] := inode]);
      WellFormed(w)
      && Quiet(v, w)
  {
    var w := v.(inodes := v.inodes[v.current[temp] := inode]);
    forall d | d in w.possible
      ensures DirectoryOk(w, d)
    {
      assert DirectoryOk(v, d);
    }
    forall n: Name, c | n.File? && MayRead(w, n, c)
      ensures MayRead(v, n, c)
    {
      var d :| d in w.possible && ReadsIn(w, d, n, c);
      assert ReadsIn(v, d, n, c);
    }
  }

  lemma RenameWellFormed<C>(v: Volume<C>, temp: Name, target: Name)
    requires WellFormed(v) && temp.Temp? && target.File? && temp in v.current
    ensures WellFormed(Rename(v, temp, target))
  {
    var i := v.current[temp];
    var w := Rename(v, temp, target);
    assert DirectoryOk(v, v.current);
    forall d | d in w.possible
      ensures DirectoryOk(w, d)
    {
      if d !in v.possible {
        var e :| e in v.possible && d == Renamed(e, temp, target, i);
        assert DirectoryOk(v, e);
      } else {
        assert DirectoryOk(v, d);
      }
    }
    forall t: Name | t in w.current && t.Temp?
      ensures Unpublished(w, t, w.current[t])
    {
      assert Unpublished(v, t, v.current[t]) && v.current[t] != i;
    }
  }

  lemma RenameKeeps<C(!new)>(v: Volume<C>, temp: Name, target: Name)
    requires WellFormed(v) && temp.Temp? && target.File? && temp in v.current
    requires v.current[temp] in v.inodes && v.inodes[v.current[temp]].synced
    ensures var w := Rename(v, temp, target); var content := v.inodes[v.current[temp]].data;
      WellFormed(w) && OldOrNew(v, w, target, content) && Content(w, target) == Some(content)
  {
    RenameWellFormed(v, temp, target);
    var i := v.current[temp];
    var w := Rename(v, temp, target);
    var content := v.inodes[i].data;
    forall n: Name, c | MayRead(w, n, c) && n.File?
      ensures MayRead(v, n, c) || (n == target && c == Some(content))
    {
      var d :| d in w.possible && ReadsIn(w, d, n, c);
      var e :| e in v.possible && (d == e || d == Renamed(e, temp, target, i));
      if d == e || n != target {
        assert ReadsIn(v, e, n, c);
      }
    }
  }

  lemma SyncDirectoryKeeps<C(!new)>(v: Volume<C>, target: Name)
    requires WellFormed(v) && target in v.current && v.inodes[v.current[target]].synced
    ensures var w := SyncDirectory(v);
      WellFormed(w) && Durably(w, target, Some(v.inodes[v.current[target]].data)) && Quiet(v, w)
  {
    var w := SyncDirectory(v);
    assert DirectoryOk(v, v.current);
    forall n: Name, c | MayRead(w, n, c)
      ensures MayRead(v, n, c)
    {
      assert ReadsIn(v, v.current, n, c);
    }
  }

  // ---------- The atomic write ----------

  class Drive<C(!new, 0)> {
    var disk: Volume<C>
    var nextInode: nat

    /** Every state the disk has been in, the present one last. */
    ghost var trace: seq<Volume<C>>

    ghost predicate Valid()
      reads this
    {
      WellFormed(disk) && trace != [] && trace[|trace| - 1] == disk
      && forall i | i in disk.inodes :: i < nextInode
    }

    /** An empty directory, durable as such. */
    constructor ()
      ensures Valid() && trace == [disk] && fresh(this)
      ensures forall n: Name :: Durably(disk, n, None)
    {
      disk, nextInode := Volume(map[], map[], {map[]}), 0;
      trace := [Volume(map[], map[], {map[]})];
    }

    /** One system call that took effect. */
    method Step(next: Volume<C>)
      requires Valid() && WellFormed(next)
      requires forall i | i in next.inodes :: i < nextInode
      modifies this`disk, this`trace
      ensures Valid() && disk == next && trace == old(trace) + [next]
    {
      disk := next;
      trace := trace + [next];
    }

    /** Writes the bytes of a temporary file and syncs them. */
    method Fill(temp: Name, content: C) returns (ok: bool)
      requires Valid() && temp.Temp? && temp in disk.current
      modifies this`disk, this`trace
      ensures Valid() && old(trace) <= trace
      ensures forall k | |old(trace)| <= k < |trace| :: Quiet(old(disk), trace[k])
      ensures Quiet(old(disk), disk)
      ensures temp in disk.current && disk.current[temp] in disk.inodes
      ensures ok ==> disk.inodes[disk.current[temp]] == Inode(content, true)
    {
      ghost var before := disk;
      ok := *;
      if !ok {                                // a partial write
        var partial: C := *;
        UnpublishedKeeps(disk, temp, Inode(partial, false));
        Step(Write(disk, disk.current[temp], partial));
        return;
      }
      UnpublishedKeeps(disk, temp, Inode(content, false));
      Step(Write(disk, disk.current[temp], content));
      ok := *;
      if !ok { return; }                      // sync_all
      UnpublishedKeeps(disk, temp, Inode(content, true));
      Step(Sync(disk, disk.current[temp]));
    }

    /** Any call may fail; a failed write leaves arbitrary bytes in the temporary file,
        and a call that failed after the rename leaves the new content in place. */
    method AtomicWrite(stem: string, ext: string, pid: nat, content: C) returns (ok: bool)
      requires Valid()
      modifies this
      ensures Valid() && old(trace) <= trace
      ensures forall k | |old(trace)| <= k < |trace| :: OldOrNew(old(disk), trace[k], File(stem, ext), content)
      ensures OldOrNew(old(disk), disk, File(stem, ext), content)
      ensures ok ==> Durably(disk, File(stem, ext), Some(content))
    {
      hide MayRead, WellFormed, OldOrNew, Quiet, DirectoryOk, Unpublished, Durably;
      var target, temp := File(stem, ext), Temp(stem, pid);
      ghost var before := disk;
      Unmoved(disk, target, content);
      ok := *;
      if !ok { return; }                      // creating the parent directory or the file
      var empty: C := *;
      CreateKeeps(disk, temp, nextInode, empty);
      QuietSteps(before, disk, Create(disk, temp, nextInode, empty), target, content);
      nextInode := nextInode + 1;
      Step(Create(disk, temp, nextInode - 1, empty));
      ghost var created, from := disk, |trace|;
      ok := Fill(temp, content);
      QuietTrace(before, created, trace, from, target, content);
      if !ok { return; }
      ok := *;
      if !ok { return; }                      // rename
      RenameKeeps(disk, temp, target);
      QuietThenNew(before, disk, Rename(disk, temp, target), target, content);
      Step(Rename(disk, temp, target));
      ok := *;
      if !ok { return; }                      // syncing the directory
      SyncDirectoryKeeps(disk, target);
      QuietSteps(before, disk, SyncDirectory(disk), target, content);
      Step(SyncDirectory(disk));
    }
  }
}
