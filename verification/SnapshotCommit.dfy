/** The two files of an instance, `snapshots.toml` and `state.toml`, as the snapshot
    command, the scheduler's failure path and the schedule editor write them under
    the state-root lock, on a disk that may lose power at any moment. */
module SnapshotCommit {
  import opened Text
  import opened Disk

  datatype Record = Record(tag: string, takenAt: int)

  /** The fields of `state.toml` that matter here; `other` stands for the rest. */
  datatype FileContent =
    | Unwritten
    | StateFile(lastOk: Option<int>, lastAttempt: Option<int>, snapshotHour: Option<nat>, other: nat)
    | SnapshotsFile(records: seq<Record>)

  const STATE := File("state", "toml")
  const SNAPSHOTS := File("snapshots", "toml")

  predicate HasTime(records: seq<Record>, t: int) {
    exists i | 0 <= i < |records| :: records[i].takenAt == t
  }

  predicate IsState(a: Option<FileContent>) {
    a.Some? ==> a.value.StateFile?
  }

  predicate IsSnapshots(b: Option<FileContent>) {
    b.Some? ==> b.value.SnapshotsFile?
  }

  function Records(b: Option<FileContent>): seq<Record>
    requires IsSnapshots(b)
  {
    if b.None? then [] else b.value.records
  }

  /** A recorded success names a snapshot that is in the list. */
  predicate Backed(a: Option<FileContent>, b: Option<FileContent>) {
    IsState(a) && IsSnapshots(b) && (a.Some? && a.value.lastOk.Some? ==> HasTime(Records(b), a.value.lastOk.value))
  }

  /** Whatever a power loss may leave of the two files, in any combination, agrees. */
  ghost predicate Consistent(v: Volume<FileContent>) {
    forall a, b | MayRead(v, STATE, a) && MayRead(v, SNAPSHOTS, b) :: Backed(a, b)
  }

  /** Main result: in every crash state and for every reader that looks at both files at
      one moment, a recorded success is in the list. */
  lemma EveryViewIsBacked(v: Volume<FileContent>, after: Volume<FileContent>)
    requires WellFormed(v) && Consistent(v)
    ensures Backed(Content(v, STATE), Content(v, SNAPSHOTS))
    ensures PowerLoss(v, after) ==>
      WellFormed(after) && Consistent(after) && Backed(Content(after, STATE), Content(after, SNAPSHOTS))
  {
    ContentMayBeRead(v, STATE);
    ContentMayBeRead(v, SNAPSHOTS);
    if PowerLoss(v, after) {
      PowerLossRecovers(v, after);
      ContentMayBeRead(after, STATE);
      ContentMayBeRead(after, SNAPSHOTS);
    }
  }

  /** Growing the list keeps the files consistent, whatever point the write has reached. */
  lemma ListMayGrow(before: Volume<FileContent>, v: Volume<FileContent>, grown: FileContent)
    requires WellFormed(before) && Consistent(before) && OldOrNew(before, v, SNAPSHOTS, grown)
    requires grown.SnapshotsFile? && IsSnapshots(Content(before, SNAPSHOTS)) && Records(Content(before, SNAPSHOTS)) <= grown.records
    ensures Consistent(v)
  {
    var held := Content(before, SNAPSHOTS);
    ContentMayBeRead(before, SNAPSHOTS);
    forall a, b | MayRead(v, STATE, a) && MayRead(v, SNAPSHOTS, b)
      ensures Backed(a, b)
    {
      assert MayRead(before, STATE, a);
      if !MayRead(before, SNAPSHOTS, b) {
        assert Backed(a, held);
        HasTimeInLonger(a, Records(held), grown.records);
      }
    }
  }

  lemma HasTimeInLonger(a: Option<FileContent>, shorter: seq<Record>, longer: seq<Record>)
    requires shorter <= longer
    ensures forall t | HasTime(shorter, t) :: HasTime(longer, t)
  {
    forall t | HasTime(shorter, t)
      ensures HasTime(longer, t)
    {
      var i :| 0 <= i < |shorter| && shorter[i].takenAt == t;
      assert longer[i].takenAt == t;
    }
  }

  /** A new state whose success every possible list contains may be written. */
  lemma BackedStateMayBeWritten(before: Volume<FileContent>, v: Volume<FileContent>, state: FileContent)
    requires Consistent(before) && OldOrNew(before, v, STATE, state) && state.StateFile?
    requires forall b | MayRead(before, SNAPSHOTS, b) :: Backed(Some(state), b)
    ensures Consistent(v)
  {
    forall a, b | MayRead(v, STATE, a) && MayRead(v, SNAPSHOTS, b)
      ensures Backed(a, b)
    {
      assert MayRead(before, SNAPSHOTS, b);
    }
  }

  ghost predicate AllConsistent(trace: seq<Volume<FileContent>>, from: nat) {
    forall k | from <= k < |trace| :: Consistent(trace[k])
  }

  /** Writes a new state that claims no success but the one on disk. */
  method SaveState(drive: Drive<FileContent>, pid: nat, state: FileContent) returns (ok: bool)
    requires drive.Valid() && Consistent(drive.disk)
    requires state.StateFile?
    requires forall b | MayRead(drive.disk, SNAPSHOTS, b) :: Backed(Some(state), b)
    modifies drive
    ensures drive.Valid() && Consistent(drive.disk)
    ensures old(drive.trace) <= drive.trace && AllConsistent(drive.trace, |old(drive.trace)|)
    ensures OldOrNew(old(drive.disk), drive.disk, STATE, state)
    ensures ok ==> Durably(drive.disk, STATE, Some(state))
  {
    hide MayRead, WellFormed, OldOrNew, Consistent, Durably;
    ghost var before, from := drive.disk, |drive.trace|;
    ok := drive.AtomicWrite("state", "toml", pid, state);
    BackedStateMayBeWritten(before, drive.disk, state);
    forall k | from <= k < |drive.trace|
      ensures Consistent(drive.trace[k])
    {
      BackedStateMayBeWritten(before, drive.trace[k], state);
    }
  }

  /** The schedule editor and the scheduler's failure path: load, change, save. */
  method UpdateState(drive: Drive<FileContent>, pid: nat, hour: Option<nat>, attempt: Option<int>) returns (ok: bool)
    requires drive.Valid() && Consistent(drive.disk)
    modifies drive
    ensures drive.Valid() && Consistent(drive.disk)
    ensures old(drive.trace) <= drive.trace && AllConsistent(drive.trace, |old(drive.trace)|)
    ensures ok ==> old(Content(drive.disk, STATE)).Some? && old(Content(drive.disk, STATE)).value.StateFile?
    ensures ok ==> Durably(drive.disk, STATE,
                     Some(old(Content(drive.disk, STATE)).value.(snapshotHour := hour, lastAttempt := attempt)))
  {
    var loaded := Content(drive.disk, STATE);
    ContentMayBeRead(drive.disk, STATE);
    EveryViewIsBacked(drive.disk, drive.disk);
    if loaded.None? { return false; }
    ok := SaveState(drive, pid, loaded.value.(snapshotHour := hour, lastAttempt := attempt));
  }

  /** The snapshot command's commit: the list first, the claim second. */
  method CommitSnapshot(drive: Drive<FileContent>, pid: nat, record: Record) returns (ok: bool)
    requires drive.Valid() && Consistent(drive.disk)
    modifies drive
    ensures drive.Valid() && Consistent(drive.disk)
    ensures old(drive.trace) <= drive.trace && AllConsistent(drive.trace, |old(drive.trace)|)
    ensures IsSnapshots(old(Content(drive.disk, SNAPSHOTS))) && IsState(old(Content(drive.disk, STATE)))
    ensures ok ==> old(Content(drive.disk, STATE)).Some?
    ensures ok ==> Durably(drive.disk, SNAPSHOTS,
                     Some(SnapshotsFile(Records(old(Content(drive.disk, SNAPSHOTS))) + [record])))
    ensures ok ==> Durably(drive.disk, STATE,
                     Some(old(Content(drive.disk, STATE)).value.(lastOk := Some(record.takenAt), lastAttempt := Some(record.takenAt))))
  {
    ghost var before, from := drive.disk, |drive.trace|;
    EveryViewIsBacked(drive.disk, drive.disk);
    var list := Records(Content(drive.disk, SNAPSHOTS)) + [record];
    if Content(drive.disk, STATE).None? { return false; }
    ok := drive.AtomicWrite("snapshots", "toml", pid, SnapshotsFile(list));
    ListMayGrow(before, drive.disk, SnapshotsFile(list));
    forall k | from <= k < |drive.trace|
      ensures Consistent(drive.trace[k])
    {
      ListMayGrow(before, drive.trace[k], SnapshotsFile(list));
    }
    if !ok { return; }
    ghost var middle := drive.disk;
    var loaded := Content(drive.disk, STATE);
    var state := loaded.value.(lastOk := Some(record.takenAt), lastAttempt := Some(record.takenAt));
    assert list[|list| - 1].takenAt == record.takenAt;
    ok := SaveState(drive, pid, state);
    DurableThroughOtherWrite(middle, drive.disk, STATE, state, SNAPSHOTS, Some(SnapshotsFile(list)));
  }
}
