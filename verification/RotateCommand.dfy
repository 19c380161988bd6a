/** Recreating an instance's container from its recorded state: `rotate`, and the
    last step of `upgrade`. */
module RotateCommand {
  import opened Text
  import opened Naming
  import opened World
  import opened Engine

  /** The recorded instance runs on its recorded volume and version, archiving as recorded. */
  predicate Serving(w: Host, n: string) {
    && n in w.states && InstanceContainer(n) in w.containers
    && HasData(w, n) && Attached(w, n)
    && w.containers[InstanceContainer(n)].running
  }

  /** The host after a rotate without faults: the configuration says what the record says,
      and a server reading it runs on the recorded volume. */
  function Rotated(w: Host, n: string): Host
    requires n in w.states
  {
    var i := w.states[n];
    var v := w.(confs := w.confs[n := Written(w, n, i.backupEnabled, if i.backupEnabled then Some(n) else None)]);
    v.(containers := w.containers[InstanceContainer(n) := Booted(v, OwnContainer(w, n))])
  }

  function OwnContainer(w: Host, n: string): Container
    requires n in w.states
  {
    Fresh(VolumeOf(n, w.states[n]), w.states[n].pgVersion, n, w.states[n].backupEnabled)
  }

  /** Main result on recovery: wherever the recorded data is there, that host serves it. */
  lemma RotatedServes(w: Host, n: string)
    requires n in w.states && HasData(w, n)
    ensures var v := Rotated(w, n);
      Serving(v, n) && v.states == w.states && v.volumes == w.volumes && v.repos == w.repos
  {
    hide InstanceContainer;
  }

  /** What the container was before does not matter. */
  lemma RotatedAnyway(w: Host, v: Host, n: string)
    requires n in w.states && v == w.(containers := v.containers)
    requires v.containers - {InstanceContainer(n)} == w.containers - {InstanceContainer(n)}
    ensures Rotated(v, n) == Rotated(w, n)
  {
    var c, k := InstanceContainer(n), Rotated(w, n).containers[InstanceContainer(n)];
    assert v.containers[c := k] == (v.containers - {c})[c := k];
    assert w.containers[c := k] == (w.containers - {c})[c := k];
  }

  /** Regenerates the configuration, then creates and starts the container on the
      recorded volume. Without `s3` a backup-enabled instance cannot be configured. */
  method Recreate(m: Machine, n: string, s3: bool) returns (ok: bool)
    requires m.Valid() && n in m.w.states && InstanceContainer(n) !in m.w.containers
    modifies m`w, m`history
    ensures m.Valid() && old(m.history) <= m.history
    ensures var i := old(m.w).states[n];
      && Frame(old(m.w), m.w, n, {InstanceContainer(n)}, {VolumeOf(n, i)})
      && m.w.states == old(m.w).states && m.w.repos == old(m.w).repos && m.w.halfDestroyed == old(m.w).halfDestroyed
      && (HasData(old(m.w), n) ==> m.w.volumes == old(m.w).volumes)
    ensures ok ==> Serving(m.w, n)
    ensures m.faults.Never? && HasData(old(m.w), n) && (m.w.states[n].backupEnabled ==> s3) ==>
      ok && m.w == Rotated(old(m.w), n)
  {
    hide InstanceContainer, DataVolume, VersionedVolume, Safe, Sealed;
    var i := m.w.states[n];
    if i.backupEnabled && !s3 { return false; }
    ok := m.WriteConfigs(n, i.backupEnabled, if i.backupEnabled then Some(n) else None);
    if !ok { return; }
    ok := m.Ask();                                                     // image
    if !ok { return; }
    ok := m.Ask();                                                     // network
    if !ok { return; }
    ok := Launch(m, n);
  }

  /** The configuration on disk says what the record says. */
  predicate Configured(w: Host, n: string)
    requires n in w.states
  {
    && n in w.confs && w.confs[n].archive == Some(w.states[n].backupEnabled)
    && (w.states[n].backupEnabled ==> w.confs[n].repo == Some(n))
  }

  /** Creates the container from the configuration just written, and waits for it. */
  method Launch(m: Machine, n: string) returns (ok: bool)
    requires m.Valid() && n in m.w.states && InstanceContainer(n) !in m.w.containers && Configured(m.w, n)
    modifies m`w, m`history
    ensures m.Valid() && old(m.history) <= m.history
    ensures m.w == old(m.w).(containers := m.w.containers, volumes := m.w.volumes)
    ensures var c, v := InstanceContainer(n), VolumeOf(n, m.w.states[n]);
      && m.w.containers - {c} == old(m.w).containers - {c}
      && m.w.volumes - {v} == old(m.w).volumes - {v}
      && (HasData(old(m.w), n) ==> m.w.volumes == old(m.w).volumes)
    ensures ok ==> Serving(m.w, n)
    ensures m.faults.Never? && HasData(old(m.w), n) ==>
      ok && m.w.containers == old(m.w).containers[InstanceContainer(n) := Booted(old(m.w), OwnContainer(old(m.w), n))]
  {
    hide InstanceContainer, DataVolume, VersionedVolume, Safe, Sealed;
    var i := m.w.states[n];
    var c, v := InstanceContainer(n), VolumeOf(n, i);
    var k := OwnContainer(m.w, n);
    SameContainer(m.w, n);
    OwnWiring(m.w, n, k);
    ghost var w0 := m.w;
    ghost var w1 := WithContainer(w0, c, k);
    BlankOrKept(w0, w1, n, k);
    LaunchFrame(w0, w1, w1, n, k);
    hide Attached, HasData, Matches, Wired, RunsOn, Booted, CanBoot, Starts, WithContainer, Serving;
    ok := m.CreateContainer(c, k);
    if !ok { return; }
    ok := m.StartServer(c, v);
    LaunchFrame(w0, w1, m.w, n, k);
    if !ok { return; }
    ok := m.WaitReady(c, v);
    if ok { LaunchServes(w0, w1, m.w, n, k); }
  }

  lemma BlankOrKept(w0: Host, w1: Host, n: string, k: Container)
    requires n in w0.states && Configured(w0, n)
    requires k == OwnContainer(w0, n)
    requires w1 == WithContainer(w0, InstanceContainer(n), k)
    ensures w1.containers[InstanceContainer(n)] == k && VolumeOf(n, w0.states[n]) in w1.volumes
    ensures CanBoot(w1, k)
    ensures HasData(w0, n) ==>
      && w1.volumes == w0.volumes && !w1.volumes[VolumeOf(n, w0.states[n])].Blank?
      && RunsOn(w1.volumes[VolumeOf(n, w0.states[n])], w0.states[n].pgVersion)
  {
  }

  lemma LaunchFrame(w0: Host, w1: Host, w: Host, n: string, k: Container)
    requires n in w0.states && k.volumes == {VolumeOf(n, w0.states[n])}
    requires w1 == WithContainer(w0, InstanceContainer(n), k)
    requires w == w1 || Starts(w1, w, InstanceContainer(n), VolumeOf(n, w0.states[n]))
    ensures var c, v := InstanceContainer(n), VolumeOf(n, w0.states[n]);
      && w == w0.(containers := w.containers, volumes := w.volumes)
      && w.containers - {c} == w0.containers - {c} && w.volumes - {v} == w0.volumes - {v}
      && c in w.containers && v in w.volumes && w.containers[c].image == k.image
      && (w.volumes[v] == w1.volumes[v] ==> w.volumes == w1.volumes)
  {
  }

  /** A server that is ready on what was just created is the recorded instance, served. */
  lemma LaunchServes(w0: Host, w1: Host, w: Host, n: string, k: Container)
    requires n in w0.states && Configured(w0, n)
    requires k == OwnContainer(w0, n)
    requires w1 == WithContainer(w0, InstanceContainer(n), k)
    requires Starts(w1, w, InstanceContainer(n), VolumeOf(n, w0.states[n]))
    requires w.containers[InstanceContainer(n)].running
    requires RunsOn(w.volumes[VolumeOf(n, w0.states[n])], w.containers[InstanceContainer(n)].image)
    ensures Serving(w, n) && w.containers == w0.containers[InstanceContainer(n) := Booted(w0, k)]
  {
    hide InstanceContainer;
    assert w.containers[InstanceContainer(n)] == Booted(w1, k) == Booted(w0, k);
  }

  lemma RecordedHasData(w: Host, n: string)
    requires n in w.states
    ensures Safe(w) && n !in w.halfDestroyed ==> HasData(w, n)
  {
  }

  lemma SameContainer(w: Host, n: string)
    ensures forall o | o in w.states && InstanceContainer(o) == InstanceContainer(n) :: o == n
  {
    forall o | o in w.states && InstanceContainer(o) == InstanceContainer(n)
      ensures o == n
    {
      InstanceContainerInjective(o, n);
    }
  }

  /** A container that mounts a configuration naming its own repository, or none. */
  lemma OwnWiring(w: Host, n: string, k: Container)
    requires k.owner == Some(n) && n in w.confs
    requires w.confs[n].archive == Some(true) && k.withRepo ==> w.confs[n].repo == Some(n) || w.confs[n].repo.None?
    ensures Wired(w, InstanceContainer(n), k)
  {
  }

  /** `pgforge rotate`: the container goes, the volume stays. Without faults, and unless a
      destroy was begun, the instance is served afterwards. */
  method Rotate(m: Machine, n: string, s3: bool) returns (ok: bool)
    requires m.Valid()
    modifies m`w, m`history
    ensures m.Valid() && old(m.history) <= m.history
    ensures n !in old(m.w).states ==> !ok && m.w == old(m.w)
    ensures m.w.states == old(m.w).states && m.w.repos == old(m.w).repos && m.w.halfDestroyed == old(m.w).halfDestroyed
    ensures n in old(m.w).states ==>
      Frame(old(m.w), m.w, n, {InstanceContainer(n)}, {VolumeOf(n, old(m.w).states[n])})
    ensures n in old(m.w).states && HasData(old(m.w), n) ==> m.w.volumes == old(m.w).volumes
    ensures m.unclashed && n !in old(m.w).halfDestroyed ==> m.w.volumes == old(m.w).volumes
    ensures ok ==> Serving(m.w, n)
    ensures m.faults.Never? && n in m.w.states && HasData(old(m.w), n) && (m.w.states[n].backupEnabled ==> s3) ==>
      ok && m.w == Rotated(old(m.w), n)
  {
    hide Safe, Sealed, Serving;
    if n !in m.w.states { return false; }
    RecordedHasData(m.w, n);
    ok := m.StopAndRemove(InstanceContainer(n));
    RotatedAnyway(old(m.w), m.w, n);
    if !ok { return; }
    ok := Recreate(m, n, s3);
    if ok && m.w.states[n].backupEnabled {
      ok := m.Ask();                                                   // the replication role exists
    }
  }
}
