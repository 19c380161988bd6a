/** The host as the lifecycle commands see it: containers, volumes, configuration
    directories, state files and backup repositories; and what must hold of it at
    every moment. */
module World {
  import opened Text
  import opened Naming

  /** A data volume is empty, half-initialised, or a cluster of one major version.
      `content` identifies the data: copying and upgrading keep it. */
  datatype Data = Blank | Partial | Cluster(version: nat, content: int)

  /** `owner`: the name whose postgresql.conf is mounted; `withRepo`: pgbackrest.conf
      is mounted as well. `archive` and `repo` are what the running server read at its
      last start; a stopped one archives nowhere. */
  datatype Container = Container(
    running: bool, volumes: set<string>, image: nat, owner: Option<string>, withRepo: bool,
    archive: bool, repo: Option<string>)

  /** The two files of a configuration directory that matter here, if written. */
  datatype Conf = Conf(archive: Option<bool>, repo: Option<string>)

  datatype Instance = Instance(pgVersion: nat, volumeOverride: Option<string>, backupEnabled: bool, hostPort: nat)

  /** `halfDestroyed`: instances whose destroy began removing the volume and whose
      state file is still there. */
  datatype Host = Host(
    containers: map<string, Container>,
    volumes: map<string, Data>,
    confs: map<string, Conf>,
    states: map<string, Instance>,
    repos: set<string>,
    halfDestroyed: set<string>)

  function VolumeOf(name: string, i: Instance): string {
    if i.volumeOverride.Some? then i.volumeOverride.value else DataVolume(name)
  }

  /** A container as `create_container` leaves it. */
  function Fresh(volume: string, image: nat, owner: string, withRepo: bool): Container {
    Container(false, {volume}, image, Some(owner), withRepo, false, None)
  }

  function Stopped(k: Container): Container {
    k.(running := false, archive := false, repo := None)
  }

  predicate CanBoot(w: Host, k: Container) {
    k.owner.Some? ==> k.owner.value in w.confs && w.confs[k.owner.value].archive.Some?
  }

  /** A start reads the mounted files as they are now. */
  function Booted(w: Host, k: Container): Container {
    if k.owner.Some? && k.owner.value in w.confs then
      var conf := w.confs[k.owner.value];
      k.(running := true, archive := conf.archive == Some(true), repo := if k.withRepo then conf.repo else None)
    else k.(running := true, archive := false, repo := None)
  }

  // ---------- What holds at every moment ----------

  /** The override is absent or names the upgraded volume of the present version. */
  predicate OverridesOk(w: Host) {
    && w.halfDestroyed <= w.states.Keys
    && (forall n | n in w.states :: OverrideOk(n, w.states[n]))
  }

  predicate OverrideOk(n: string, i: Instance) {
    i.volumeOverride.None? || i.volumeOverride == Some(VersionedVolume(n, i.pgVersion))
  }

  /** No two recorded instances share a volume. */
  predicate VolumesOk(w: Host) {
    forall m, n | m in w.states && n in w.states && m != n :: VolumeOf(m, w.states[m]) != VolumeOf(n, w.states[n])
  }

  predicate HasData(w: Host, n: string)
    requires n in w.states
  {
    var v := VolumeOf(n, w.states[n]);
    v in w.volumes && w.volumes[v].Cluster? && w.volumes[v].version == w.states[n].pgVersion
  }

  /** The recorded volume exists and holds a cluster of the recorded version. */
  predicate DataOk(w: Host) {
    forall n | n in w.states && n !in w.halfDestroyed :: HasData(w, n)
  }

  /** A recorded instance's container uses the recorded volume and version, its files on
      disk say what the record says, and so does what it has read if it is running. */
  predicate AttachedOk(w: Host) {
    forall n | n in w.states && InstanceContainer(n) in w.containers :: Attached(w, n)
  }

  predicate Attached(w: Host, n: string)
    requires n in w.states && InstanceContainer(n) in w.containers
  {
    var c, i := w.containers[InstanceContainer(n)], w.states[n];
    && c.volumes == {VolumeOf(n, i)} && c.image == i.pgVersion && c.owner == Some(n)
    && n in w.confs && w.confs[n].archive == Some(i.backupEnabled)
    && (i.backupEnabled ==> c.withRepo && w.confs[n].repo == Some(n))
    && (c.running ==> c.archive == i.backupEnabled && (i.backupEnabled ==> c.repo == Some(n)))
  }

  predicate PortsOk(w: Host) {
    forall m, n | m in w.states && n in w.states && m != n :: w.states[m].hostPort != w.states[n].hostPort
  }

  /** What holds as long as no two names clash. */
  predicate Safe(w: Host) {
    OverridesOk(w) && VolumesOk(w) && DataOk(w) && AttachedOk(w) && PortsOk(w)
  }

  /** A container archives only into the repository named after its own instance. */
  predicate OwnRepoOnly(c: string, k: Container) {
    k.running && k.archive && k.repo.Some? ==> c == InstanceContainer(k.repo.value)
  }

  predicate ArchiveOk(w: Host) {
    forall c | c in w.containers :: OwnRepoOnly(c, w.containers[c])
  }

  /** What holds of every container, recorded or not, as long as no configuration is
      rewritten under one: it archives into its own repository, and would after a restart. */
  predicate Sealed(w: Host) {
    && ArchiveOk(w)
    && (forall c | c in w.containers ::
          && OwnRepoOnly(c, Booted(w, w.containers[c]))
          && (w.containers[c].withRepo ==> w.containers[c].owner.Some?)
          && (w.containers[c].owner.Some? ==> c == InstanceContainer(w.containers[c].owner.value)))
  }

  /** There is a container of the name that mounts pgbackrest.conf. */
  predicate Mounted(w: Host, n: string) {
    InstanceContainer(n) in w.containers && w.containers[InstanceContainer(n)].withRepo
  }

  // ---------- Consequences ----------

  lemma ArchivingReposDistinct(w: Host, c: string, d: string)
    requires ArchiveOk(w) && c in w.containers && d in w.containers && c != d
    requires w.containers[c].running && w.containers[c].archive && w.containers[c].repo.Some?
    requires w.containers[d].running && w.containers[d].archive
    ensures w.containers[c].repo != w.containers[d].repo
  {
    assert OwnRepoOnly(c, w.containers[c]) && OwnRepoOnly(d, w.containers[d]);
  }

  /** Names that do not end in `_v<digits>` are enough for two instances not to share a volume. */
  lemma VolumesDistinct(w: Host, m: string, n: string)
    requires OverridesOk(w) && m in w.states && n in w.states && m != n && Plain(m) && Plain(n)
    ensures VolumeOf(m, w.states[m]) != VolumeOf(n, w.states[n])
  {
    hide DataVolume, VersionedVolume, Plain;
    var v, x := w.states[m].pgVersion, w.states[n].pgVersion;
    PlainAvoidsUpgrades(m, n, x);
    PlainAvoidsUpgrades(n, m, v);
    if DataVolume(m) == DataVolume(n) {
      DataVolumeInjective(m, n);
    }
    if VersionedVolume(m, v) == VersionedVolume(n, x) {
      VersionedVolumeInjective(m, v, n, x);
    }
  }

  /** No recorded instance uses the volume. */
  predicate VolumeFree(w: Host, volume: string) {
    forall m | m in w.states :: VolumeOf(m, w.states[m]) != volume
  }

  /** The first volume of a new name is free exactly when the name is not that of an
      upgraded instance's present volume. */
  lemma NewVolumeFreeIff(w: Host, n: string)
    requires OverridesOk(w) && n !in w.states
    ensures VolumeFree(w, DataVolume(n)) <==>
      forall m | m in w.states && w.states[m].volumeOverride.Some? :: n != Versioned(m, w.states[m].pgVersion)
  {
    forall m | m in w.states
      ensures VolumeOf(m, w.states[m]) == DataVolume(n) <==>
        w.states[m].volumeOverride.Some? && n == Versioned(m, w.states[m].pgVersion)
    {
      assert OverrideOk(m, w.states[m]);
      VolumeCollision(n, m, w.states[m].pgVersion);
      if DataVolume(m) == DataVolume(n) {
        DataVolumeInjective(m, n);
      }
    }
    hide DataVolume, VersionedVolume, Versioned, OverridesOk;
  }

  /** No recorded instance owns the volume or the container name of a coming upgrade. */
  predicate UpgradeFree(w: Host, n: string, to: nat) {
    VolumeFree(w, VersionedVolume(n, to)) && forall m | m in w.states :: InstanceContainer(m) != UpgradeContainer(n, to)
  }

  /** An upgrade clashes exactly with a recorded instance on the first volume of the name
      `<n>_v<to>`, or with one named `upgrade_<n>_v<to>`. */
  lemma UpgradeFreeIff(w: Host, n: string, to: nat)
    requires OverridesOk(w) && n in w.states && w.states[n].pgVersion != to
    ensures UpgradeFree(w, n, to) <==>
      && (Versioned(n, to) in w.states ==> w.states[Versioned(n, to)].volumeOverride.Some?)
      && Versioned("upgrade_" + n, to) !in w.states
  {
    hide DataVolume, VersionedVolume, Versioned, InstanceContainer, UpgradeContainer, OverrideOk, VolumeOf;
    forall m | m in w.states
      ensures VolumeOf(m, w.states[m]) == VersionedVolume(n, to) <==>
        w.states[m].volumeOverride.None? && m == Versioned(n, to)
      ensures InstanceContainer(m) == UpgradeContainer(n, to) <==> m == Versioned("upgrade_" + n, to)
    {
      assert OverrideOk(m, w.states[m]);
      WhoseUpgradeVolume(m, w.states[m], n, to);
      WhoseUpgradeContainer(m, n, to);
    }
  }

  lemma WhoseUpgradeVolume(m: string, i: Instance, n: string, to: nat)
    requires OverrideOk(m, i) && !(m == n && i.pgVersion == to)
    ensures VolumeOf(m, i) == VersionedVolume(n, to) <==> i.volumeOverride.None? && m == Versioned(n, to)
  {
    hide DataVolume, VersionedVolume, Versioned;
    VolumeCollision(m, n, to);
    if VersionedVolume(m, i.pgVersion) == VersionedVolume(n, to) {
      VersionedVolumeInjective(m, i.pgVersion, n, to);
    }
  }

  lemma WhoseUpgradeContainer(m: string, n: string, to: nat)
    ensures InstanceContainer(m) == UpgradeContainer(n, to) <==> m == Versioned("upgrade_" + n, to)
  {
    assert UpgradeContainer(n, to)[8..] == Versioned("upgrade_" + n, to);
    assert UpgradeContainer(n, to) == InstanceContainer(Versioned("upgrade_" + n, to));
    assert InstanceContainer(m)[8..] == m;
  }

  /** Names that do not end in `_v<digits>` never clash. */
  lemma PlainNamesNeverClash(w: Host, n: string, to: nat)
    requires OverridesOk(w) && forall m | m in w.states :: Plain(m)
    ensures Plain(n) && n !in w.states ==> VolumeFree(w, DataVolume(n))
    ensures n in w.states && w.states[n].pgVersion != to ==> UpgradeFree(w, n, to)
  {
    hide DataVolume, VersionedVolume, Plain, Versioned;
    if n !in w.states && Plain(n) {
      NewVolumeFreeIff(w, n);
      forall m | m in w.states
        ensures n != Versioned(m, w.states[m].pgVersion)
      {
        VersionedIsNotPlain(m, w.states[m].pgVersion);
      }
    }
    if n in w.states && w.states[n].pgVersion != to {
      UpgradeFreeIff(w, n, to);
      VersionedIsNotPlain(n, to);
      VersionedIsNotPlain("upgrade_" + n, to);
    }
  }

  // ---------- What each kind of change keeps ----------

  /** Removing a container. */
  lemma RemovalKeeps(w: Host, c: string)
    ensures var v := w.(containers := w.containers - {c});
      (Safe(w) ==> Safe(v)) && (Sealed(w) ==> Sealed(v))
  {
    hide InstanceContainer, DataVolume, VersionedVolume, OwnRepoOnly, OverrideOk;
    var v := w.(containers := w.containers - {c});
    if Safe(w) {
      assert forall n | n in w.states && n !in w.halfDestroyed :: HasData(w, n) && HasData(v, n);
      assert forall n | n in v.states && InstanceContainer(n) in v.containers :: Attached(w, n) && Attached(v, n);
    }
    if Sealed(w) {
      assert forall d | d in v.containers :: Booted(v, v.containers[d]) == Booted(w, w.containers[d]);
    }
  }

  /** Starting or stopping a container. */
  lemma RunningKeeps(w: Host, c: string)
    requires c in w.containers
    ensures var k := w.containers[c];
      var up, down := w.(containers := w.containers[c := Booted(w, k)]), w.(containers := w.containers[c := Stopped(k)]);
      (Safe(w) ==> Safe(up) && Safe(down)) && (Sealed(w) ==> Sealed(up) && Sealed(down))
  {
    var k := w.containers[c];
    if Safe(w) {
      SafeWith(w, c, Booted(w, k));
      SafeWith(w, c, Stopped(k));
    }
    if Sealed(w) {
      SealedWith(w, c, Booted(w, k));
      SealedWith(w, c, Stopped(k));
    }
  }

  lemma SafeWith(w: Host, c: string, k: Container)
    requires Safe(w) && c in w.containers && (k == Booted(w, w.containers[c]) || k == Stopped(w.containers[c]))
    ensures Safe(w.(containers := w.containers[c := k]))
  {
    hide InstanceContainer, DataVolume, VersionedVolume, OverrideOk;
    var v := w.(containers := w.containers[c := k]);
    assert forall n | n in w.states && n !in w.halfDestroyed :: HasData(w, n) && HasData(v, n);
    assert forall n | n in w.states && InstanceContainer(n) in w.containers :: Attached(w, n) && Attached(v, n);
  }

  lemma SealedWith(w: Host, c: string, k: Container)
    requires Sealed(w) && c in w.containers && (k == Booted(w, w.containers[c]) || k == Stopped(w.containers[c]))
    ensures Sealed(w.(containers := w.containers[c := k]))
  {
    hide InstanceContainer;
    var v := w.(containers := w.containers[c := k]);
    assert Booted(v, k) == Booted(w, w.containers[c]);
    assert forall d | d in w.containers && d != c :: Booted(v, w.containers[d]) == Booted(w, w.containers[d]);
  }

  /** Rewriting a configuration directory: harmless to recorded instances unless it is that
      of a container's record, and to all containers while none of its name mounts both files. */
  lemma ConfKeeps(w: Host, n: string, conf: Conf)
    ensures var v := w.(confs := w.confs[n := conf]);
      && (Safe(w) && (n !in w.states || InstanceContainer(n) !in w.containers) ==> Safe(v))
      && (Sealed(w) && !Mounted(w, n) ==> Sealed(v))
  {
    hide InstanceContainer, DataVolume, VersionedVolume, OverrideOk, OwnRepoOnly;
    var v := w.(confs := w.confs[n := conf]);
    if Safe(w) && (n !in w.states || InstanceContainer(n) !in w.containers) {
      assert forall m | m in w.states && m !in w.halfDestroyed :: HasData(w, m) && HasData(v, m);
      assert forall m | m in v.states && InstanceContainer(m) in v.containers :: Attached(w, m) && Attached(v, m);
    }
    if Sealed(w) && !Mounted(w, n) {
      forall d | d in w.containers
        ensures OwnRepoOnly(d, Booted(v, w.containers[d]))
      {
        assert OwnRepoOnly(d, Booted(w, w.containers[d]));
        if w.containers[d].owner == Some(n) {
          NowhereIsOk(d, Booted(v, w.containers[d]));
        } else {
          assert Booted(v, w.containers[d]) == Booted(w, w.containers[d]);
        }
      }
    }
  }

  lemma NowhereIsOk(c: string, k: Container)
    requires k.repo.None?
    ensures OwnRepoOnly(c, k)
  {
  }

  lemma ConfRemovalKeeps(w: Host, n: string)
    ensures var v := w.(confs := w.confs - {n});
      && (Safe(w) && (n !in w.states || InstanceContainer(n) !in w.containers) ==> Safe(v))
      && (Sealed(w) ==> Sealed(v))
  {
    hide InstanceContainer, DataVolume, VersionedVolume, OverrideOk;
    var v := w.(confs := w.confs - {n});
    if Safe(w) && (n !in w.states || InstanceContainer(n) !in w.containers) {
      assert forall m | m in w.states && m !in w.halfDestroyed :: HasData(w, m) && HasData(v, m);
      assert forall m | m in v.states && InstanceContainer(m) in v.containers :: Attached(w, m) && Attached(v, m);
    }
    if Sealed(w) {
      forall d | d in w.containers
        ensures OwnRepoOnly(d, Booted(v, w.containers[d]))
      {
        assert OwnRepoOnly(d, Booted(w, w.containers[d]));
      }
    }
  }

  lemma ReposKeep(w: Host, repos: set<string>)
    ensures var v := w.(repos := repos);
      (Safe(w) ==> Safe(v)) && (Sealed(w) ==> Sealed(v))
  {
    hide InstanceContainer, DataVolume, VersionedVolume, OverrideOk, OwnRepoOnly;
    var v := w.(repos := repos);
    if Safe(w) {
      assert forall m | m in w.states && m !in w.halfDestroyed :: HasData(w, m) && HasData(v, m);
      assert forall m | m in v.states && InstanceContainer(m) in v.containers :: Attached(w, m) && Attached(v, m);
    }
    assert forall d | d in w.containers :: Booted(v, w.containers[d]) == Booted(w, w.containers[d]);
  }

  /** No container but `c` mounts the volume. */
  predicate OnlyUser(w: Host, c: string, v: string) {
    forall d | d in w.containers && d != c :: v !in w.containers[d].volumes
  }

  /** No recorded instance, but for half-destroyed ones, uses the volume. */
  predicate Unneeded(w: Host, volume: string) {
    forall m | m in w.states && m !in w.halfDestroyed :: VolumeOf(m, w.states[m]) != volume
  }

  /** Changing or removing a volume. */
  lemma VolumeKeeps(w: Host, volume: string, data: Data)
    ensures var changed, gone := w.(volumes := w.volumes[volume := data]), w.(volumes := w.volumes - {volume});
      && (Safe(w) && Unneeded(w, volume) ==> Safe(changed) && Safe(gone))
      && (Sealed(w) ==> Sealed(changed) && Sealed(gone))
  {
    hide InstanceContainer, DataVolume, VersionedVolume, OverrideOk, OwnRepoOnly;
    var changed, gone := w.(volumes := w.volumes[volume := data]), w.(volumes := w.volumes - {volume});
    if Safe(w) && Unneeded(w, volume) {
      assert forall n | n in w.states && n !in w.halfDestroyed ::
        HasData(w, n) && HasData(changed, n) && HasData(gone, n);
      assert forall n | n in w.states && InstanceContainer(n) in w.containers ::
        Attached(w, n) && Attached(changed, n) && Attached(gone, n);
    }
    assert forall d | d in w.containers ::
      Booted(changed, w.containers[d]) == Booted(w, w.containers[d]) == Booted(gone, w.containers[d]);
  }

  /** Docker creates the named volumes of a new container that do not exist yet. */
  function WithContainer(w: Host, c: string, k: Container): Host {
    w.(containers := w.containers[c := k],
       volumes := w.volumes + map v | v in k.volumes && v !in w.volumes :: Blank)
  }

  /** The new container is what the record of its name, if there is one, asks for. */
  predicate Matches(w: Host, c: string, k: Container) {
    forall n | n in w.states && InstanceContainer(n) == c ::
      && k.volumes == {VolumeOf(n, w.states[n])} && k.image == w.states[n].pgVersion && k.owner == Some(n)
      && n in w.confs && w.confs[n].archive == Some(w.states[n].backupEnabled)
      && (w.states[n].backupEnabled ==> k.withRepo && w.confs[n].repo == Some(n))
  }

  /** The files it mounts are its own, and name no other repository if they turn archiving on. */
  predicate Wired(w: Host, c: string, k: Container) {
    && (k.owner.Some? ==> c == InstanceContainer(k.owner.value)) && (k.withRepo ==> k.owner.Some?)
    && OwnRepoOnly(c, Booted(w, k))
  }

  lemma NewContainerKeeps(w: Host, c: string, k: Container)
    requires !k.running
    ensures Safe(w) && Matches(w, c, k) ==> Safe(WithContainer(w, c, k))
    ensures Sealed(w) && Wired(w, c, k) ==> Sealed(WithContainer(w, c, k))
  {
    hide InstanceContainer, DataVolume, VersionedVolume, OverrideOk;
    var v := WithContainer(w, c, k);
    if Safe(w) && Matches(w, c, k) {
      assert forall n | n in w.states && n !in w.halfDestroyed :: HasData(w, n) && HasData(v, n);
      forall n | n in v.states && InstanceContainer(n) in v.containers
        ensures Attached(v, n)
      {
        if InstanceContainer(n) != c {
          assert Attached(w, n);
        }
      }
    }
    assert forall d | d in v.containers :: Booted(v, v.containers[d]) == Booted(w, v.containers[d]);
  }

  /** Destroy is about to remove the instance's own volume. */
  lemma OwnVolumeRemovalKeeps(w: Host, n: string)
    requires n in w.states
    ensures var v := w.(volumes := w.volumes - {VolumeOf(n, w.states[n])}, halfDestroyed := w.halfDestroyed + {n});
      (Safe(w) ==> Safe(v)) && (Sealed(w) ==> Sealed(v))
  {
    hide InstanceContainer, DataVolume, VersionedVolume, OverrideOk, OwnRepoOnly;
    var v := w.(volumes := w.volumes - {VolumeOf(n, w.states[n])}, halfDestroyed := w.halfDestroyed + {n});
    if Safe(w) {
      assert forall m | m in w.states && m !in v.halfDestroyed :: HasData(w, m) && HasData(v, m);
      assert forall m | m in v.states && InstanceContainer(m) in v.containers :: Attached(w, m) && Attached(v, m);
    }
    assert forall d | d in w.containers :: Booted(v, w.containers[d]) == Booted(w, w.containers[d]);
  }

  lemma StateRemovalKeeps(w: Host, n: string)
    ensures var v := w.(states := w.states - {n}, halfDestroyed := w.halfDestroyed - {n});
      (Safe(w) ==> Safe(v)) && (Sealed(w) ==> Sealed(v))
  {
    hide InstanceContainer, DataVolume, VersionedVolume, OverrideOk, OwnRepoOnly;
    var v := w.(states := w.states - {n}, halfDestroyed := w.halfDestroyed - {n});
    if Safe(w) {
      assert forall m | m in v.states && m !in v.halfDestroyed :: HasData(w, m) && HasData(v, m);
      assert forall m | m in v.states && InstanceContainer(m) in v.containers :: Attached(w, m) && Attached(v, m);
    }
    assert forall d | d in w.containers :: Booted(v, w.containers[d]) == Booted(w, w.containers[d]);
  }

  /** The record fits the host: its data is there, its container is attached, and neither
      its volume nor its port is another's. */
  predicate Fitting(w: Host, n: string, i: Instance) {
    var v := w.(states := w.states[n := i]);
    && OverrideOk(n, i)
    && (n !in w.halfDestroyed ==> HasData(v, n))
    && (InstanceContainer(n) in w.containers ==> Attached(v, n))
    && (forall m | m in w.states && m != n ::
          w.states[m].hostPort != i.hostPort && VolumeOf(m, w.states[m]) != VolumeOf(n, i))
  }

  /** Recording an instance for the first time, or switching a recorded one to new data. */
  lemma StateChangeKeeps(w: Host, n: string, i: Instance)
    ensures var v := w.(states := w.states[n := i]);
      (Safe(w) && Fitting(w, n, i) ==> Safe(v)) && (Sealed(w) ==> Sealed(v))
  {
    var v := w.(states := w.states[n := i]);
    assert forall d | d in w.containers :: Booted(v, w.containers[d]) == Booted(w, w.containers[d]);
    if Safe(w) && Fitting(w, n, i) {
      FittingStateSafe(w, n, i);
    }
    hide Safe, Fitting, OwnRepoOnly;
  }

  lemma FittingStateSafe(w: Host, n: string, i: Instance)
    requires Safe(w) && Fitting(w, n, i)
    ensures Safe(w.(states := w.states[n := i]))
  {
    var v := w.(states := w.states[n := i]);
    FittingApart(w, n, i);
    hide InstanceContainer, DataVolume, VersionedVolume, OverrideOk, VolumesOk, PortsOk;
    assert forall m | m in v.states && m !in v.halfDestroyed && m != n :: HasData(w, m) && HasData(v, m);
    assert forall m | m in v.states && InstanceContainer(m) in v.containers && m != n ::
      Attached(w, m) && Attached(v, m);
  }

  lemma FittingApart(w: Host, n: string, i: Instance)
    requires VolumesOk(w) && PortsOk(w) && Fitting(w, n, i)
    ensures VolumesOk(w.(states := w.states[n := i])) && PortsOk(w.(states := w.states[n := i]))
  {
    hide InstanceContainer, VolumeOf, HasData, Attached, OverrideOk;
  }

  // ---------- What a command promises about the rest of the host ----------

  /** Nothing that belongs to instance `m` has changed. */
  ghost predicate Untouched(w: Host, v: Host, m: string) {
    && (m in w.states <==> m in v.states)
    && (m in w.states ==> v.states[m] == w.states[m] && SameEntry(w.volumes, v.volumes, VolumeOf(m, w.states[m])))
    && (m in w.halfDestroyed <==> m in v.halfDestroyed)
    && SameEntry(w.confs, v.confs, m)
    && SameEntry(w.containers, v.containers, InstanceContainer(m))
    && (m in w.repos <==> m in v.repos)
  }

  ghost predicate SameEntry<T>(a: map<string, T>, b: map<string, T>, k: string) {
    if k in a then k in b && b[k] == a[k] else k !in b
  }

  ghost predicate OnlyTouches(w: Host, v: Host, n: string) {
    forall m | m in w.states && m != n :: Untouched(w, v, m)
  }

  /** Outside the named containers and volumes and what is filed under `n`, all is the same. */
  predicate Frame(w: Host, v: Host, n: string, containers: set<string>, volumes: set<string>) {
    && v.containers - containers == w.containers - containers
    && v.volumes - volumes == w.volumes - volumes
    && v.confs - {n} == w.confs - {n}
    && v.states - {n} == w.states - {n}
    && v.repos - {n} == w.repos - {n}
    && v.halfDestroyed - {n} == w.halfDestroyed - {n}
  }

  lemma Narrower<T>(a: map<string, T>, b: map<string, T>, t: set<string>, s: set<string>)
    requires a - t == b - t && t <= s
    ensures a - s == b - s
  {
    assert a - s == (a - t) - s;
    assert b - s == (b - t) - s;
  }

  /** Steps inside a frame stay inside it. */
  lemma FrameSteps(w0: Host, w: Host, v: Host, n: string, cs: set<string>, vs: set<string>, ds: set<string>, us: set<string>)
    requires Frame(w0, w, n, cs, vs) && Frame(w, v, n, ds, us) && ds <= cs && us <= vs
    ensures Frame(w0, v, n, cs, vs)
  {
    Narrower(w.containers, v.containers, ds, cs);
    Narrower(w.volumes, v.volumes, us, vs);
  }

  /** Frames of the single calls. */
  lemma CallFrames(w: Host, v: Host, n: string, c: string, volumes: set<string>)
    requires v.confs == w.confs && v.repos == w.repos && v.halfDestroyed == w.halfDestroyed
    requires v.states - {n} == w.states - {n}
    requires v.containers - {c} == w.containers - {c} && v.volumes - volumes == w.volumes - volumes
    ensures Frame(w, v, n, {c}, volumes)
  {
  }

  lemma WithContainerFrame(w: Host, n: string, c: string, k: Container)
    ensures Frame(w, WithContainer(w, c, k), n, {c}, k.volumes)
    ensures forall v | v in w.volumes :: v in WithContainer(w, c, k).volumes && WithContainer(w, c, k).volumes[v] == w.volumes[v]
  {
  }

  /** A command that keeps to its own containers and volumes touches no other instance. */
  lemma FrameTouchesNoOther(w: Host, v: Host, n: string, containers: set<string>, volumes: set<string>)
    requires Frame(w, v, n, containers, volumes)
    requires forall m | m in w.states && m != n ::
      InstanceContainer(m) !in containers && VolumeOf(m, w.states[m]) !in volumes
    ensures OnlyTouches(w, v, n)
  {
    hide InstanceContainer, DataVolume;
    forall m | m in w.states && m != n
      ensures Untouched(w, v, m)
    {
      assert m in w.states - {n} && (w.states - {n})[m] == w.states[m];
      SameOutside(w.containers, v.containers, containers, InstanceContainer(m));
      SameOutside(w.volumes, v.volumes, volumes, VolumeOf(m, w.states[m]));
      SameOutside(w.confs, v.confs, {n}, m);
      SameOutside(w.states, v.states, {n}, m);
      assert m in w.halfDestroyed <==> m in w.halfDestroyed - {n};
      assert m in w.repos <==> m in w.repos - {n};
    }
  }

  lemma SameOutside<T>(a: map<string, T>, b: map<string, T>, changed: set<string>, k: string)
    requires a - changed == b - changed && k !in changed
    ensures SameEntry(a, b, k)
  {
    if k in a {
      assert k in a - changed && (a - changed)[k] == a[k];
    }
    if k in b {
      assert k in b - changed && (b - changed)[k] == b[k];
    }
  }

  /** The data of a recorded instance, if it is there. */
  function ContentOf(w: Host, n: string): Option<Data>
    requires n in w.states
  {
    var v := VolumeOf(n, w.states[n]);
    if v in w.volumes then Some(w.volumes[v]) else None
  }
}
