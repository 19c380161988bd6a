/** Runs of the commands themselves that end badly, from every host that has what they need. */
module Hazards {
  import opened Text
  import opened Naming
  import opened World
  import opened Engine
  import opened Provision
  import opened UpgradeCommand
  import opened DestroyCommand

  /** A create under the name `<victim>_v<version>` whose server does not come up rolls back,
      and takes the victim's upgraded volume with it. Docker would refuse as long as a
      container of the victim mounted the volume, so that one is gone. */
  method LoseDataByName(w0: Host, victim: string, version: nat, s: Settings) returns (o: Outcome, after: Host)
    requires Safe(w0) && victim in w0.states && victim !in w0.halfDestroyed && w0.states[victim].volumeOverride.Some?
    requires CreateAllowed(w0, Versioned(victim, w0.states[victim].pgVersion), true, false, s) && HasPort(w0, s)
    requires forall c | c in w0.containers :: VolumeOf(victim, w0.states[victim]) !in w0.containers[c].volumes
    ensures o == RolledBack(true) && victim in after.states && after.states == w0.states
    ensures HasData(w0, victim) && !HasData(after, victim)
  {
    var v := w0.states[victim].pgVersion;
    var n := Versioned(victim, v);
    assert OverrideOk(victim, w0.states[victim]);
    VolumeCollision(n, victim, v);
    assert OnlyUser(w0, InstanceContainer(n), DataVolume(n));
    var m := new Machine(w0, Only(Readiness));
    hide InstanceContainer, DataVolume, VersionedVolume, Versioned, Sealed;
    o := Create(m, n, version, true, false, s);
    after := m.w;
  }

  /** An upgrade of `n` to `to` while `<n>_v<to>` is recorded on its first volume, without any
      fault: the script stops on the volume it finds in use, and the upgrade removes it. It
      takes that no container mounts it; otherwise nothing is lost. */
  method LoseDataByUpgrade(w0: Host, n: string, to: nat, s3: bool) returns (ok: bool, after: Host)
    requires Safe(w0) && Attemptable(w0, n) && to > w0.states[n].pgVersion
    requires var victim := Versioned(n, to);
      victim in w0.states && victim !in w0.halfDestroyed && w0.states[victim].volumeOverride.None?
    requires UpgradeContainer(n, to) !in w0.containers
    requires forall c | c in w0.containers :: DataVolume(Versioned(n, to)) !in w0.containers[c].volumes
    ensures var victim := Versioned(n, to);
      !ok && after.states == w0.states && HasData(w0, victim) && !HasData(after, victim)
  {
    var victim := Versioned(n, to);
    VolumeCollision(victim, n, to);
    NeededIff(w0, n, to);
    assert HasData(w0, victim);
    var m := new Machine(w0, Never);
    hide InstanceContainer, UpgradeContainer, DataVolume, VersionedVolume, Versioned, Safe, Sealed;
    ok := Upgrade(m, n, to, s3);
    after := m.w;
  }

  /** A clash with the one-shot container's name, or with a volume that some other container
      mounts, costs nobody data, whatever fails. */
  method ClashWithoutLoss(m: Machine, n: string, to: nat, s3: bool) returns (ok: bool)
    requires m.Valid() && Safe(m.w) && n in m.w.states && to > m.w.states[n].pgVersion && m.faults.Never?
    requires !Exposed(m.w, n, to) || Unneeded(m.w, VersionedVolume(n, to))
    modifies m
    ensures Spared(old(m.w), m.w)
  {
    hide InstanceContainer, UpgradeContainer, DataVolume, VersionedVolume, Safe, Sealed, Spared, Exposed, Unneeded;
    ok := Upgrade(m, n, to, s3);
  }

  /** A destroy that fails at its last step leaves a record whose data is gone. */
  method HalfDestroy(w0: Host, n: string, deleteBackups: bool) returns (ok: bool, after: Host)
    requires Safe(w0) && Destroyable(w0, n, deleteBackups) && n !in w0.halfDestroyed
    ensures !ok && HasData(w0, n) && n in after.states && after.states == w0.states && !HasData(after, n)
  {
    assert HasData(w0, n);
    var m := new Machine(w0, Only(StateDirectory));
    hide InstanceContainer, DataVolume, Safe, Sealed;
    ok := Destroy(m, n, deleteBackups);
    after := m.w;
  }

  /** It archives, and into the repository of the other instance. */
  predicate Misdirected(w: Host, n: string, source: string) {
    var c := InstanceContainer(n);
    n != source && c in w.containers && w.containers[c].running && w.containers[c].archive && w.containers[c].repo == Some(source)
  }

  lemma MisdirectedIsNotOk(w: Host, n: string, source: string)
    requires Misdirected(w, n, source)
    ensures !ArchiveOk(w)
  {
    if InstanceContainer(n) == InstanceContainer(source) {
      InstanceContainerInjective(n, source);
    }
    assert !OwnRepoOnly(InstanceContainer(n), w.containers[InstanceContainer(n)]);
  }

  /** Whenever a clone or restore may write under a container that mounts both files, it can
      break the invariant: a restore to the name rewrites both files before
      it finds the name taken, a clone to it gets as far as turning archiving on again, and
      the next start archives into the source's repository. */
  method MisdirectOrphan(w1: Host, source: string, n: string, files: set<string>, content: int, s: Settings)
    returns (after: Host)
    requires Sealed(w1) && Mounted(w1, n) && CloneAllowed(w1, source, n, s) && HasPort(w1, s)
    ensures Misdirected(after, n, source) && !ArchiveOk(after) && after.states == w1.states
  {
    assert w1.containers[InstanceContainer(n)].owner == Some(n) by {
      OwnerOf(w1, n);
    }
    hide InstanceContainer, DataVolume, Safe, Sealed, ValidName;
    var first := new Machine(w1, Never);
    var _ := Restore(first, source, n, true, files, w1.states[source].pgVersion, content, s);
    SamePorts(w1, first.w, s);
    var second := new Machine(first.w, Only(RepositoryConf));
    var _ := Clone(second, source, n, files, s);
    var third := new Machine(second.w, Never);
    third.SetRunning(InstanceContainer(n), true);
    after := third.w;
    MisdirectedIsNotOk(after, n, source);
  }

  lemma OwnerOf(w: Host, n: string)
    requires Sealed(w) && Mounted(w, n)
    ensures w.containers[InstanceContainer(n)].owner == Some(n)
  {
    var owner := w.containers[InstanceContainer(n)].owner;
    assert owner.Some? && InstanceContainer(n) == InstanceContainer(owner.value);
    InstanceContainerInjective(n, owner.value);
  }

  lemma SamePorts(w: Host, v: Host, s: Settings)
    requires v.states == w.states
    ensures HasPort(w, s) == HasPort(v, s)
  {
    assert TakenPorts(w) == TakenPorts(v);
  }

  /** The whole run, from a host that is safe and sealed: a create whose last write fails
      leaves the orphan. */
  method MisdirectAfterUnsavedCreate(w0: Host, source: string, n: string, version: nat, files: set<string>, content: int,
                                     s: Settings) returns (after: Host)
    requires Safe(w0) && Sealed(w0) && CloneAllowed(w0, source, n, s) && HasPort(w0, s)
    requires InstanceContainer(n) !in w0.containers && DataVolume(n) !in w0.volumes
    requires forall c | c in w0.containers :: DataVolume(n) !in w0.containers[c].volumes
    ensures Misdirected(after, n, source) && !ArchiveOk(after) && after.states == w0.states
  {
    assert OnlyUser(w0, InstanceContainer(n), DataVolume(n));
    OtherContainer(source, n);
    hide InstanceContainer, DataVolume, Safe, Sealed, ValidName;
    var m := new Machine(w0, Only(SavingRecord));
    var _ := Create(m, n, version, false, true, s);
    assert Sealed(m.w);
    SameOutside(w0.containers, m.w.containers, {InstanceContainer(n)}, InstanceContainer(source));
    SamePorts(w0, m.w, s);
    after := MisdirectOrphan(m.w, source, n, files, content, s);
  }

  lemma OtherContainer(m: string, n: string)
    requires m != n
    ensures InstanceContainer(m) != InstanceContainer(n)
  {
    if InstanceContainer(m) == InstanceContainer(n) {
      InstanceContainerInjective(m, n);
    }
  }

  /** An upgrade keeps the first volume and a destroy takes only the recorded one, so after
      both the old data is still there: a new instance of the name starts with a leftover. */
  method UpgradeThenDestroy(m: Machine, n: string, to: nat, s3: bool, deleteBackups: bool) returns (ok: bool)
    requires m.Valid() && m.unclashed && n in m.w.states && n !in m.w.halfDestroyed
    requires m.w.states[n].volumeOverride.None? && to > m.w.states[n].pgVersion && UpgradeFree(m.w, n, to)
    modifies m
    ensures m.Valid() && m.unclashed && old(m.history) <= m.history
    ensures ok ==>
      && n !in m.w.states && !NoVolumeOf(m.w, n)
      && DataVolume(n) in old(m.w).volumes && DataVolume(n) in m.w.volumes
      && m.w.volumes[DataVolume(n)] == old(m.w).volumes[DataVolume(n)]
  {
    hide InstanceContainer, UpgradeContainer, DataVolume, VersionedVolume, Safe, Sealed, UpgradeFree, OldOrSwitched;
    assert VolumeOf(n, m.w.states[n]) == DataVolume(n);
    NewVolumeIsOther(m.w, n, to);
    ok := Upgrade(m, n, to, s3);
    if !ok { return; }
    ok := Destroy(m, n, deleteBackups);
  }

  lemma NewVolumeIsOther(w: Host, n: string, to: nat)
    requires n in w.states && UpgradeFree(w, n, to)
    ensures VolumeOf(n, w.states[n]) != VersionedVolume(n, to)
  {
  }
}
