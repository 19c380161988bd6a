/** `pgforge create`, `clone` and `restore`: a new instance under a new name, with its
    rollback. */
module Provision {
  import opened Text
  import opened Naming
  import opened World
  import opened Engine
  import opened RotateCommand
  import opened Ports
  import E = Entrypoints

  /** What the entrypoint puts into the volume: a fresh cluster, or a copy of some data with
      the given files, made by a script that may stop anywhere. */
  datatype Fill = Initialise | Copy(kind: E.Kind, files: set<string>, version: nat, content: int)

  datatype Installed = NotCreated | Failed(clean: bool) | Up

  datatype Outcome =
    | Refused
    | RolledBack(clean: bool)
    | Unsaved
    | Done(port: nat)

  /** What a command finds outside the host: whether S3 is configured, the port range, and
      which ports can be bound. */
  datatype Settings = Settings(s3: bool, start: nat, end: nat, bindable: nat -> bool)

  function TakenPorts(w: Host): set<nat> {
    set n | n in w.states :: w.states[n].hostPort
  }

  ghost predicate HasPort(w: Host, s: Settings) {
    exists p :: s.start <= p < s.end && p !in TakenPorts(w) && s.bindable(p)
  }

  // ---------- Rollback ----------

  /** Three independent best-effort removals. */
  method CleanupPartial(m: Machine, n: string) returns (clean: bool)
    requires m.Valid() && n !in m.w.states && (m.unclashed ==> Unneeded(m.w, DataVolume(n)))
    modifies m`w, m`history
    ensures m.Valid() && old(m.history) <= m.history
    ensures m.w == old(m.w).(containers := m.w.containers, volumes := m.w.volumes, confs := m.w.confs)
    ensures m.w.containers - {InstanceContainer(n)} == old(m.w).containers - {InstanceContainer(n)}
    ensures m.w.volumes - {DataVolume(n)} == old(m.w).volumes - {DataVolume(n)}
    ensures m.w.confs - {n} == old(m.w).confs - {n}
    ensures clean ==> InstanceContainer(n) !in m.w.containers && DataVolume(n) !in m.w.volumes && n !in m.w.confs
    ensures m.Sure(Elsewhere) && OnlyUser(old(m.w), InstanceContainer(n), DataVolume(n)) ==>
      InstanceContainer(n) in old(m.w).containers ==> clean
  {
    hide InstanceContainer, DataVolume, VersionedVolume, Safe, Sealed;
    var c, v := InstanceContainer(n), DataVolume(n);
    clean := m.RemoveContainer(c);
    var removed := m.RemoveVolume(v);
    ConfRemovalKeeps(m.w, n);
    var forgotten := m.Call(m.w.(confs := m.w.confs - {n}));
    clean := clean && removed && forgotten;
  }

  /** The host after a rollback whose three removals all succeeded. */
  predicate Reverted(w0: Host, w: Host, n: string) {
    w == w0.(volumes := w0.volumes - {DataVolume(n)}, confs := w0.confs - {n}, repos := w.repos)
  }

  /** It is the earlier host exactly when no volume or configuration of the name was left over. */
  predicate RestoredIff(w0: Host, w: Host, n: string) {
    && w.containers == w0.containers && w.states == w0.states
    && ((w.volumes == w0.volumes && w.confs == w0.confs) <==> (DataVolume(n) !in w0.volumes && n !in w0.confs))
  }

  /** No instance that is not half destroyed loses its data exactly when the name is that of
      no upgraded instance's present volume. */
  predicate DataSurvivesIff(w0: Host, w: Host, n: string) {
    (forall m | m in w0.states && m !in w0.halfDestroyed :: m in w.states && HasData(w, m)) <==>
    (forall m | m in w0.states && m !in w0.halfDestroyed && w0.states[m].volumeOverride.Some? ::
      n != Versioned(m, w0.states[m].pgVersion))
  }

  lemma RevertedMeans(w0: Host, w: Host, n: string)
    requires Reverted(w0, w, n) && n !in w0.states
    ensures RestoredIff(w0, w, n)
    ensures Safe(w0) ==> DataSurvivesIff(w0, w, n)
  {
    assert DataVolume(n) !in w0.volumes ==> w0.volumes - {DataVolume(n)} == w0.volumes;
    assert n !in w0.confs ==> w0.confs - {n} == w0.confs;
    if Safe(w0) {
      forall m | m in w0.states && m !in w0.halfDestroyed
        ensures HasData(w, m) <==> !(w0.states[m].volumeOverride.Some? && n == Versioned(m, w0.states[m].pgVersion))
      {
        assert HasData(w0, m) && OverrideOk(m, w0.states[m]);
        VolumeCollision(n, m, w0.states[m].pgVersion);
        if DataVolume(m) == DataVolume(n) {
          DataVolumeInjective(m, n);
        }
      }
      hide Safe, DataVolume, VersionedVolume, Versioned, HasData, Reverted;
    }
  }

  // ---------- Starting the new container ----------

  /** The new name's container and volume are there, and the volume is nobody else's. */
  ghost predicate Begun(m: Machine, n: string)
    reads m
  {
    && m.Valid() && n !in m.w.states && (m.unclashed ==> Unneeded(m.w, DataVolume(n)))
    && InstanceContainer(n) in m.w.containers && DataVolume(n) in m.w.volumes
    && m.w.containers[InstanceContainer(n)].volumes == {DataVolume(n)}
    && !m.w.containers[InstanceContainer(n)].running
  }

  /** Starts a container whose entrypoint first copies a cluster into the volume, once. On an
      empty volume it comes up only on a finished copy; on anything else a marker left by an
      earlier copy makes it leave the data alone. */
  method StartCopy(m: Machine, n: string, fill: Fill) returns (ok: bool)
    requires Begun(m, n) && fill.Copy?
    modifies m`w, m`history
    ensures m.Valid() && old(m.history) <= m.history
    ensures Starts(old(m.w), m.w, InstanceContainer(n), DataVolume(n))
    ensures var data := m.w.volumes[DataVolume(n)];
      data == old(m.w).volumes[DataVolume(n)] || data == Partial || data == Cluster(fill.version, fill.content)
    ensures old(m.w).volumes[DataVolume(n)].Blank? && m.w.containers[InstanceContainer(n)].running ==>
      m.w.volumes[DataVolume(n)] == Cluster(fill.version, fill.content)
  {
    hide InstanceContainer, DataVolume, VersionedVolume, Safe, Sealed, E.Run;
    var c, v := InstanceContainer(n), DataVolume(n);
    var k, data := m.w.containers[c], m.w.volumes[v];
    var present: set<string> := *;
    if data.Blank? { present := {}; }
    var choices: seq<E.Choice> := *;
    if !E.NoRestart(choices) { choices := []; }
    var before := E.State(present, false, E.Down, false);
    var after := E.Run(fill.kind, fill.files, before, [E.Restart] + choices);
    if data.Blank? {
      E.SingleStartIsHonest(fill.kind, fill.files, before, choices);
    }
    var cleared: bool := *;
    if after.copied {
      data := Cluster(fill.version, fill.content);
    } else if !after.pc.Running? && cleared {
      data := Partial;
    }
    var next := if after.pc.Running? && CanBoot(m.w, k) then Booted(m.w, k) else Stopped(k);
    VolumeKeeps(m.w, v, data);
    ghost var filled := m.w.(volumes := m.w.volumes[v := data]);
    RunningKeeps(filled, c);
    assert Booted(filled, k) == Booted(m.w, k);
    ok := m.Call(m.w.(volumes := m.w.volumes[v := data], containers := m.w.containers[c := next]));
  }

  /** The steps after `create_container` that are rolled back on failure. */
  method Bootstrap(m: Machine, n: string, fill: Fill, makeStanza: bool) returns (ok: bool)
    requires Begun(m, n)
    modifies m`w, m`history
    ensures m.Valid() && old(m.history) <= m.history
    ensures var c, v := InstanceContainer(n), DataVolume(n);
      && Starts(old(m.w), m.w.(repos := old(m.w).repos), c, v)
      && m.w.repos - {n} == old(m.w).repos - {n}
      && (ok ==> m.w.containers[c].running && RunsOn(m.w.volumes[v], m.w.containers[c].image))
      && (ok && makeStanza ==> n in m.w.repos)
      && (ok && fill.Copy? && old(m.w).volumes[v].Blank? ==> m.w.volumes[v] == Cluster(fill.version, fill.content))
    ensures fill.Initialise? && m.Sure(Elsewhere) && m.Sure(Readiness) && Startable(old(m.w), n) ==> ok
    ensures m.faults == Only(Readiness) ==> !ok
  {
    hide InstanceContainer, DataVolume, VersionedVolume, Safe, Sealed, Starts;
    ghost var w0 := m.w;
    var c, v := InstanceContainer(n), DataVolume(n);
    if fill.Initialise? {
      ok := m.StartServer(c, v);
    } else {
      ok := StartCopy(m, n, fill);
    }
    StartsMeans(w0, m.w, c, v);
    assert m.w.(repos := w0.repos) == m.w;
    if !ok { return; }
    ok := m.Ask();                                                     // wait_for_container_running
    if !ok { return; }
    ok := m.WaitReady(c, v);                                           // and, for a copy, the end of recovery
    if !ok || !makeStanza { return; }
    ReposKeep(m.w, m.w.repos + {n});
    ok := m.Call(m.w.(repos := m.w.repos + {n}));
    assert m.w.(repos := w0.repos) == w0.(containers := m.w.containers, volumes := m.w.volumes);
  }

  lemma StartsMeans(w: Host, v: Host, c: string, volume: string)
    requires Starts(w, v, c, volume)
    ensures c in v.containers && volume in v.volumes && v == w.(containers := v.containers, volumes := v.volumes)
    ensures v.containers[c].image == w.containers[c].image
  {
  }

  /** A server of the new container's version can start on what is in the volume. */
  predicate Startable(w: Host, n: string)
    requires InstanceContainer(n) in w.containers && DataVolume(n) in w.volumes
  {
    CanBoot(w, w.containers[InstanceContainer(n)])
    && BootsOn(w.volumes[DataVolume(n)], w.containers[InstanceContainer(n)].image)
  }

  /** Creates the container and brings it up, or takes everything down again. */
  method Install(m: Machine, n: string, k: Container, fill: Fill, makeStanza: bool) returns (o: Installed)
    requires m.Valid() && n !in m.w.states && (m.unclashed ==> Unneeded(m.w, DataVolume(n)))
    requires k == Fresh(DataVolume(n), k.image, n, k.withRepo)
    requires InstanceContainer(n) !in m.w.containers && m.unmixed ==> Wired(m.w, InstanceContainer(n), k)
    modifies m`w, m`history
    ensures m.Valid() && old(m.history) <= m.history
    ensures m.w.states == old(m.w).states && m.w.halfDestroyed == old(m.w).halfDestroyed
    ensures Frame(old(m.w), m.w, n, {InstanceContainer(n)}, {DataVolume(n)})
    ensures InstanceContainer(n) in old(m.w).containers ==> o.NotCreated? && m.w == old(m.w)
    ensures o == Failed(true) ==> Reverted(old(m.w), m.w, n)
    ensures o.Up? ==> Installs(old(m.w), m.w, n, k, fill, makeStanza)
    ensures fill.Initialise? && Installable(old(m.w), n, k) ==>
      && (m.Sure(Elsewhere) && m.Sure(Readiness) && EmptyOrOwn(old(m.w), n, k.image) ==> o.Up?)
      && (m.faults == Only(Readiness) ==> o == Failed(true))
  {
    hide InstanceContainer, DataVolume, VersionedVolume, Safe, Sealed, Wired, Reverted, Installs, Starts, Frame, OnlyUser, CanBoot, Startable,
      EmptyOrOwn, Unneeded;
    ghost var w0 := m.w;
    SameContainer(m.w, n);
    var ok := m.CreateContainer(InstanceContainer(n), k);
    CreatedFrame(w0, m.w, n, k);
    if !ok { return NotCreated; }
    ghost var w1 := m.w;
    CreatedStarts(w0, w1, n, k);
    ok := Bootstrap(m, n, fill, makeStanza);
    BootstrapFrame(w0, w1, m.w, n, k);
    SameNeeds(w0, m.w, DataVolume(n));
    if ok {
      BootstrapInstalls(w0, w1, m.w, n, k, fill, makeStanza);
      return Up;
    }
    ghost var w2 := m.w;
    var clean := CleanupPartial(m, n);
    CleanupFrame(w0, w1, w2, m.w, n, k, clean);
    return Failed(clean);
  }

  /** Nothing of the name is there but perhaps a volume that no container mounts. */
  predicate Installable(w: Host, n: string, k: Container) {
    InstanceContainer(n) !in w.containers && CanBoot(w, k) && OnlyUser(w, InstanceContainer(n), DataVolume(n))
  }

  /** The volume, if there is one, is empty or holds a cluster of the version. */
  predicate EmptyOrOwn(w: Host, n: string, version: nat) {
    DataVolume(n) in w.volumes ==> BootsOn(w.volumes[DataVolume(n)], version)
  }

  /** The new container runs on a cluster of its version, with the files there now; into a
      fresh volume a copy is exact. */
  predicate Installs(w0: Host, w: Host, n: string, k: Container, fill: Fill, makeStanza: bool) {
    var c, v := InstanceContainer(n), DataVolume(n);
    && w.confs == w0.confs && w.states == w0.states && w.halfDestroyed == w0.halfDestroyed
    && CanBoot(w, k) && c in w.containers && w.containers[c] == Booted(w, k)
    && v in w.volumes && RunsOn(w.volumes[v], k.image)
    && (makeStanza ==> n in w.repos)
    && (fill.Copy? && (v !in w0.volumes || w0.volumes[v].Blank?) ==> w.volumes[v] == Cluster(fill.version, fill.content))
  }

  lemma CreatedFrame(w: Host, v: Host, n: string, k: Container)
    requires v == w || v == WithContainer(w, InstanceContainer(n), k)
    requires k.volumes == {DataVolume(n)}
    ensures Frame(w, v, n, {InstanceContainer(n)}, {DataVolume(n)})
  {
  }

  /** What the next steps find once the container is there. */
  lemma CreatedStarts(w0: Host, w1: Host, n: string, k: Container)
    requires InstanceContainer(n) !in w0.containers && w1 == WithContainer(w0, InstanceContainer(n), k)
    requires k.volumes == {DataVolume(n)}
    ensures Unneeded(w0, DataVolume(n)) == Unneeded(w1, DataVolume(n))
    ensures InstanceContainer(n) in w1.containers && DataVolume(n) in w1.volumes
    ensures Installable(w0, n, k) && EmptyOrOwn(w0, n, k.image) ==> Startable(w1, n)
    ensures Installable(w0, n, k) ==> OnlyUser(w0, InstanceContainer(n), DataVolume(n))
  {
    hide InstanceContainer, DataVolume;
  }

  lemma SameNeeds(w: Host, v: Host, volume: string)
    requires v.states == w.states && v.halfDestroyed == w.halfDestroyed
    ensures Unneeded(w, volume) == Unneeded(v, volume)
  {
  }

  lemma BootstrapFrame(w0: Host, w1: Host, w2: Host, n: string, k: Container)
    requires w1 == WithContainer(w0, InstanceContainer(n), k) && k.volumes == {DataVolume(n)}
    requires Starts(w1, w2.(repos := w1.repos), InstanceContainer(n), DataVolume(n)) && w2.repos - {n} == w1.repos - {n}
    ensures Frame(w0, w2, n, {InstanceContainer(n)}, {DataVolume(n)})
    ensures w2.states == w0.states && w2.halfDestroyed == w0.halfDestroyed && w2.confs == w0.confs
    ensures InstanceContainer(n) in w2.containers
    ensures OnlyUser(w0, InstanceContainer(n), DataVolume(n)) ==> OnlyUser(w2, InstanceContainer(n), DataVolume(n))
  {
    hide InstanceContainer, DataVolume, CanBoot, Booted;
  }

  lemma BootstrapInstalls(w0: Host, w1: Host, w2: Host, n: string, k: Container, fill: Fill, makeStanza: bool)
    requires k == Fresh(DataVolume(n), k.image, n, k.withRepo)
    requires w1 == WithContainer(w0, InstanceContainer(n), k)
    requires var c, v := InstanceContainer(n), DataVolume(n);
      && Starts(w1, w2.(repos := w1.repos), c, v)
      && w2.containers[c].running && RunsOn(w2.volumes[v], w2.containers[c].image)
      && (makeStanza ==> n in w2.repos)
      && (fill.Copy? && w1.volumes[v].Blank? ==> w2.volumes[v] == Cluster(fill.version, fill.content))
    ensures Installs(w0, w2, n, k, fill, makeStanza)
  {
    hide InstanceContainer, DataVolume;
  }

  lemma CleanupFrame(w0: Host, w1: Host, w2: Host, w3: Host, n: string, k: Container, clean: bool)
    requires InstanceContainer(n) !in w0.containers && w1 == WithContainer(w0, InstanceContainer(n), k)
    requires k.volumes == {DataVolume(n)}
    requires Starts(w1, w2.(repos := w1.repos), InstanceContainer(n), DataVolume(n)) && w2.repos - {n} == w1.repos - {n}
    requires w3 == w2.(containers := w3.containers, volumes := w3.volumes, confs := w3.confs)
    requires w3.containers - {InstanceContainer(n)} == w2.containers - {InstanceContainer(n)}
    requires w3.volumes - {DataVolume(n)} == w2.volumes - {DataVolume(n)} && w3.confs - {n} == w2.confs - {n}
    requires clean ==> InstanceContainer(n) !in w3.containers && DataVolume(n) !in w3.volumes && n !in w3.confs
    ensures Frame(w0, w3, n, {InstanceContainer(n)}, {DataVolume(n)})
    ensures w3.states == w0.states && w3.halfDestroyed == w0.halfDestroyed
    ensures clean ==> Reverted(w0, w3, n)
  {
    hide InstanceContainer, DataVolume, CanBoot, Booted;
    var c, v := InstanceContainer(n), DataVolume(n);
    assert w1.volumes - {v} == w0.volumes - {v};
    assert w1.containers - {c} == w0.containers == w0.containers - {c};
    assert w2.containers - {c} == w1.containers - {c} && w2.volumes - {v} == w1.volumes - {v};
    if clean {
      RemovedEntry(w2.containers, w3.containers, c);
      RemovedEntry(w2.volumes, w3.volumes, v);
      RemovedEntry(w2.confs, w3.confs, n);
    }
  }

  lemma RemovedEntry<T>(a: map<string, T>, b: map<string, T>, k: string)
    requires a - {k} == b - {k} && k !in b
    ensures b == a - {k}
  {
    assert b - {k} == b;
  }

  // ---------- The commands ----------

  /** What a provisioning command promises, by outcome. */
  predicate Provisioned(w0: Host, w: Host, n: string, i: Instance, s: Settings, o: Outcome) {
    && Frame(w0, w, n, {InstanceContainer(n)}, {DataVolume(n)})
    && w.halfDestroyed == w0.halfDestroyed
    && (n in w0.states ==> o.Refused? && w == w0)
    && (InstanceContainer(n) in w0.containers ==> o.Refused? && w == w0.(confs := w.confs))
    && (o.Refused? || o.RolledBack? ==> w.states == w0.states)
    && (o == RolledBack(true) ==> Reverted(w0, w, n))
    && (o.Unsaved? ==> w.states == w0.states || n in w.states)
    && (o.Done? ==>
          && w.states == w0.states[n := i.(hostPort := o.port)]
          && Serving(w, n)
          && s.start <= o.port < s.end && o.port !in TakenPorts(w0) && s.bindable(o.port)
          && (i.backupEnabled ==> n in w.repos))
  }

  /** The new container is up with the configuration the command wrote. */
  predicate UpWith(w: Host, n: string, version: nat, conf: Conf, withRepo: bool) {
    var c := InstanceContainer(n);
    && n in w.confs && w.confs[n] == conf
    && c in w.containers && w.containers[c] == Booted(w, Fresh(DataVolume(n), version, n, withRepo))
    && DataVolume(n) in w.volumes && RunsOn(w.volumes[DataVolume(n)], version)
  }

  /** Records a running new instance; a save that fails leaves it running. */
  method Record(m: Machine, n: string, i: Instance, withRepo: bool) returns (ok: bool)
    requires m.Valid() && n !in m.w.states && i.volumeOverride.None?
    requires n in m.w.confs && UpWith(m.w, n, i.pgVersion, m.w.confs[n], withRepo)
    requires m.w.confs[n].archive == Some(i.backupEnabled)
    requires i.backupEnabled ==> withRepo && m.w.confs[n].repo == Some(n)
    requires i.hostPort !in TakenPorts(m.w) && (m.unclashed ==> VolumeFree(m.w, DataVolume(n)))
    modifies m`w, m`history
    ensures m.Valid() && old(m.history) <= m.history
    ensures m.w == old(m.w).(states := old(m.w).states[n := i]) || (m.w == old(m.w) && !ok)
    ensures m.Sure(SavingRecord) ==> ok
    ensures m.faults == Only(SavingRecord) ==> !ok && m.w == old(m.w)
    ensures ok ==> Serving(m.w, n)
  {
    hide InstanceContainer, DataVolume, VersionedVolume, Safe, Sealed;
    assert forall o | o in m.w.states :: m.w.states[o].hostPort in TakenPorts(m.w);
    StateChangeKeeps(m.w, n, i);
    ok := m.Call(m.w.(states := m.w.states[n := i]), SavingRecord);
  }

  /** Everything after the guards: port, configuration, container, bootstrap, record. */
  method Provide(m: Machine, n: string, i: Instance, confRepo: Option<string>, withRepo: bool, fill: Fill, s: Settings)
    returns (o: Outcome)
    requires m.Valid() && n !in m.w.states && i.volumeOverride.None?
    requires i.backupEnabled ==> withRepo && confRepo == Some(n)
    modifies m
    ensures m.Valid() && old(m.history) <= m.history
    ensures Flagged(old(m.w), m.w, n, old(m.unclashed), m.unclashed, old(m.unmixed), m.unmixed)
    ensures Provisioned(old(m.w), m.w, n, i, s, o)
    ensures o == RolledBack(true) ==> RestoredIff(old(m.w), m.w, n) && (Safe(old(m.w)) ==> DataSurvivesIff(old(m.w), m.w, n))
    ensures o.Done? || o.Unsaved? ==> UpWith(m.w, n, i.pgVersion, Written(old(m.w), n, i.backupEnabled, confRepo), withRepo)
    ensures o.Done? && fill.Copy? && DataVolume(n) !in old(m.w).volumes ==>
      DataVolume(n) in m.w.volumes && m.w.volumes[DataVolume(n)] == Cluster(fill.version, fill.content)
    ensures HasPort(old(m.w), s) ==> Chosen(m.faults, old(m.w), m.w, n, i, confRepo, fill, o)
  {
    hide InstanceContainer, DataVolume, VersionedVolume, Safe, Sealed, Frame, VolumeFree, Reverted;
    hide UpWith, RestoredIff, DataSurvivesIff, Provisioned, Chosen;
    var port := AllocatePort(s.start, s.end, TakenPorts(m.w), s.bindable);
    if port.None? {
      RefusedIsProvisioned(m.w, m.w, n, i, s);
      return Refused;
    }
    m.unclashed := m.unclashed && VolumeFree(m.w, DataVolume(n));
    m.unmixed := m.unmixed && !Mounted(m.w, n);
    o := Carry(m, n, i, port.value, s, confRepo, withRepo, fill);
  }

  /** The same with the port chosen. */
  method Carry(m: Machine, n: string, i: Instance, port: nat, ghost s: Settings, confRepo: Option<string>,
               withRepo: bool, fill: Fill) returns (o: Outcome)
    requires m.Valid() && n !in m.w.states && i.volumeOverride.None?
    requires i.backupEnabled ==> withRepo && confRepo == Some(n)
    requires port !in TakenPorts(m.w) && s.start <= port < s.end && s.bindable(port)
    requires m.unclashed ==> VolumeFree(m.w, DataVolume(n))
    requires m.unmixed ==> !Mounted(m.w, n)
    modifies m`w, m`history
    ensures m.Valid() && old(m.history) <= m.history
    ensures Provisioned(old(m.w), m.w, n, i, s, o)
    ensures o == RolledBack(true) ==> RestoredIff(old(m.w), m.w, n) && (Safe(old(m.w)) ==> DataSurvivesIff(old(m.w), m.w, n))
    ensures o.Done? || o.Unsaved? ==> UpWith(m.w, n, i.pgVersion, Written(old(m.w), n, i.backupEnabled, confRepo), withRepo)
    ensures o.Done? && fill.Copy? && DataVolume(n) !in old(m.w).volumes ==>
      DataVolume(n) in m.w.volumes && m.w.volumes[DataVolume(n)] == Cluster(fill.version, fill.content)
    ensures Chosen(m.faults, old(m.w), m.w, n, i, confRepo, fill, o)
  {
    hide InstanceContainer, DataVolume, VersionedVolume, Safe, Sealed, Frame, VolumeFree, Reverted;
    hide UpWith, RestoredIff, DataSurvivesIff, OnlyUser, EmptyOrOwn, Provisioned, Chosen, Settled, TakenPorts;
    ghost var w0 := m.w;
    var ok := Prepare(m, n, i.backupEnabled, confRepo);
    if !ok {
      RefusedIsProvisioned(w0, m.w, n, i, s);
      RefusedIsChosen(m.faults, w0, m.w, n, i, confRepo, fill);
      return Refused;
    }
    WrittenIsSo(w0, n, i.backupEnabled, confRepo);
    ghost var w1 := m.w;
    hide Written;
    o := Settle(m, w0, n, i, port, s, withRepo, fill);
    SettledIsChosen(m.faults, w0, w1, m.w, n, i, confRepo, fill, o);
  }

  lemma WrittenIsSo(w: Host, n: string, archive: bool, repo: Option<string>)
    ensures Written(w, n, archive, repo).archive == Some(archive) && (repo.Some? ==> Written(w, n, archive, repo).repo == repo)
  {
  }

  lemma RefusedIsChosen(faults: Faults, w0: Host, w: Host, n: string, i: Instance, confRepo: Option<string>, fill: Fill)
    requires faults.Anytime? || faults == Only(Elsewhere) || faults == Only(RepositoryConf)
    requires faults == Only(RepositoryConf) && confRepo.Some? ==>
      w == w0.(confs := w0.confs[n := Written(w0, n, i.backupEnabled, None)])
    ensures Chosen(faults, w0, w, n, i, confRepo, fill, Refused)
  {
  }

  lemma SettledIsChosen(faults: Faults, w0: Host, w1: Host, w: Host, n: string, i: Instance,
                        confRepo: Option<string>, fill: Fill, o: Outcome)
    requires w1 == w0.(confs := w0.confs[n := Written(w0, n, i.backupEnabled, confRepo)])
    requires !(faults == Only(RepositoryConf) && confRepo.Some?)
    requires InstanceContainer(n) in w0.containers ==> o.Refused? && w == w1
    requires fill.Initialise? && InstanceContainer(n) !in w0.containers && OnlyUser(w0, InstanceContainer(n), DataVolume(n)) ==>
      Settled(faults, w0, w, n, i, o)
    ensures Chosen(faults, w0, w, n, i, confRepo, fill, o)
  {
  }

  /** Writes the configuration and sees to the image and the network. */
  method Prepare(m: Machine, n: string, archive: bool, repo: Option<string>) returns (ok: bool)
    requires m.Valid() && m.MayWrite(n)
    modifies m`w, m`history
    ensures m.Valid() && old(m.history) <= m.history
    ensures m.w == old(m.w).(confs := m.w.confs) && m.w.confs - {n} == old(m.w).confs - {n}
    ensures ok ==> m.w.confs == old(m.w).confs[n := Written(old(m.w), n, archive, repo)]
    ensures m.Sure(Elsewhere) && m.Sure(RepositoryConf) ==> ok
    ensures m.faults == Only(RepositoryConf) && repo.Some? ==>
      !ok && m.w.confs == old(m.w).confs[n := Written(old(m.w), n, archive, None)]
  {
    ok := m.WriteConfigs(n, archive, repo);
    if !ok { return; }
    ok := m.Ask();                                                     // image
    if !ok { return; }
    ok := m.Ask();                                                     // network
  }

  lemma RefusedIsProvisioned(w0: Host, w: Host, n: string, i: Instance, s: Settings)
    requires n !in w0.states && w == w0.(confs := w.confs) && w.confs - {n} == w0.confs - {n}
    ensures Provisioned(w0, w, n, i, s, Refused)
  {
    ConfOnlyFrame(w0, w, n);
  }

  /** The container and the record, once the configuration is written. */
  method Settle(m: Machine, ghost w0: Host, n: string, i: Instance, port: nat, ghost s: Settings, withRepo: bool, fill: Fill)
    returns (o: Outcome)
    requires m.Valid() && n !in w0.states && i.volumeOverride.None?
    requires port !in TakenPorts(w0) && s.start <= port < s.end && s.bindable(port)
    requires m.w == w0.(confs := m.w.confs) && m.w.confs - {n} == w0.confs - {n}
    requires n in m.w.confs && m.w.confs[n].archive == Some(i.backupEnabled)
    requires i.backupEnabled ==> withRepo && m.w.confs[n].repo == Some(n)
    requires m.unclashed ==> VolumeFree(w0, DataVolume(n))
    requires m.unmixed ==> !Mounted(w0, n)
    modifies m`w, m`history
    ensures m.Valid() && old(m.history) <= m.history
    ensures Provisioned(w0, m.w, n, i, s, o)
    ensures InstanceContainer(n) in w0.containers ==> o.Refused? && m.w == old(m.w)
    ensures o == RolledBack(true) ==> RestoredIff(w0, m.w, n) && (Safe(w0) ==> DataSurvivesIff(w0, m.w, n))
    ensures o.Done? || o.Unsaved? ==> n in m.w.confs && UpWith(m.w, n, i.pgVersion, old(m.w).confs[n], withRepo)
    ensures o.Done? && fill.Copy? && DataVolume(n) !in w0.volumes ==>
      DataVolume(n) in m.w.volumes && m.w.volumes[DataVolume(n)] == Cluster(fill.version, fill.content)
    ensures fill.Initialise? && InstanceContainer(n) !in w0.containers && OnlyUser(w0, InstanceContainer(n), DataVolume(n)) ==>
      Settled(m.faults, w0, m.w, n, i, o)
  {
    hide InstanceContainer, DataVolume, VersionedVolume, Safe, Sealed, Frame, Installs, VolumeFree, Reverted;
    hide RestoredIff, DataSurvivesIff, Serving, Wired, OnlyUser, EmptyOrOwn, UpWith;
    var k := Fresh(DataVolume(n), i.pgVersion, n, withRepo);
    OwnWiring(m.w, n, k);
    SameButConfs(w0, m.w, n, i.pgVersion);
    ConfOnlyFrame(w0, m.w, n);
    ghost var w1 := m.w;
    var installed := Install(m, n, k, fill, i.backupEnabled);
    FrameSteps(w0, w1, m.w, n, {InstanceContainer(n)}, {DataVolume(n)}, {InstanceContainer(n)}, {DataVolume(n)});
    match installed
    case NotCreated => o := Refused;
    case Failed(clean) =>
      o := RolledBack(clean);
      if clean {
        RevertedFromStart(w0, w1, m.w, n);
        RevertedMeans(w0, m.w, n);
      }
    case Up =>
      InstallsMeans(w1, m.w, n, i, fill, withRepo);
      SameStates(w0, m.w, DataVolume(n));
      ghost var w2 := m.w;
      var ok := Record(m, n, i.(hostPort := port), withRepo);
      RecordFrame(w0, w2, m.w, n, i, withRepo);
      o := if ok then Done(port) else Unsaved;
  }

  predicate Settled(faults: Faults, w0: Host, w: Host, n: string, i: Instance, o: Outcome) {
    && (faults == Only(Readiness) ==> o == RolledBack(true))
    && (faults == Only(SavingRecord) && EmptyOrOwn(w0, n, i.pgVersion) ==> o.Unsaved? && w.states == w0.states)
    && (faults.Never? && EmptyOrOwn(w0, n, i.pgVersion) ==> o.Done?)
  }

  lemma SameButConfs(w0: Host, w: Host, n: string, version: nat)
    requires w == w0.(confs := w.confs)
    ensures VolumeFree(w0, DataVolume(n)) ==> Unneeded(w, DataVolume(n))
    ensures OnlyUser(w, InstanceContainer(n), DataVolume(n)) == OnlyUser(w0, InstanceContainer(n), DataVolume(n))
    ensures EmptyOrOwn(w, n, version) == EmptyOrOwn(w0, n, version)
  {
  }

  lemma SameStates(w0: Host, w: Host, v: string)
    requires w.states == w0.states
    ensures VolumeFree(w0, v) == VolumeFree(w, v) && TakenPorts(w0) == TakenPorts(w)
  {
  }

  lemma ConfOnlyFrame(w0: Host, w: Host, n: string)
    requires w == w0.(confs := w.confs) && w.confs - {n} == w0.confs - {n}
    ensures Frame(w0, w, n, {InstanceContainer(n)}, {DataVolume(n)})
  {
  }

  lemma RevertedFromStart(w0: Host, w1: Host, w: Host, n: string)
    requires w1 == w0.(confs := w1.confs) && w1.confs - {n} == w0.confs - {n} && Reverted(w1, w, n)
    ensures Reverted(w0, w, n)
  {
  }

  lemma InstallsMeans(w1: Host, w: Host, n: string, i: Instance, fill: Fill, withRepo: bool)
    requires n in w1.confs && Installs(w1, w, n, Fresh(DataVolume(n), i.pgVersion, n, withRepo), fill, i.backupEnabled)
    ensures n in w.confs && w.confs == w1.confs && w.states == w1.states && w.halfDestroyed == w1.halfDestroyed
    ensures UpWith(w, n, i.pgVersion, w.confs[n], withRepo) && (i.backupEnabled ==> n in w.repos)
    ensures fill.Copy? && (DataVolume(n) !in w1.volumes || w1.volumes[DataVolume(n)].Blank?) ==>
      DataVolume(n) in w.volumes && w.volumes[DataVolume(n)] == Cluster(fill.version, fill.content)
  {
  }

  lemma RecordFrame(w0: Host, w: Host, v: Host, n: string, i: Instance, withRepo: bool)
    requires Frame(w0, w, n, {InstanceContainer(n)}, {DataVolume(n)}) && w.states == w0.states && n in w.confs
    requires v == w.(states := v.states) && v.states - {n} == w.states - {n} && UpWith(w, n, i.pgVersion, w.confs[n], withRepo)
    ensures Frame(w0, v, n, {InstanceContainer(n)}, {DataVolume(n)})
    ensures UpWith(v, n, i.pgVersion, w.confs[n], withRepo)
  {
  }

  /** What is remembered of a command that got as far as writing: whether its volume's name
      was free, and whether it wrote under a container. */
  predicate Flagged(w0: Host, w: Host, n: string, unclashed0: bool, unclashed: bool, unmixed0: bool, unmixed: bool) {
    || (w == w0 && unclashed == unclashed0 && unmixed == unmixed0)
    || (unclashed == (unclashed0 && VolumeFree(w0, DataVolume(n)))
        && unmixed == (unmixed0 && !Mounted(w0, n)))
  }

  /** Which outcome it is when the faults are fixed and a port can be had. */
  predicate Chosen(faults: Faults, w0: Host, w: Host, n: string, i: Instance, confRepo: Option<string>, fill: Fill, o: Outcome) {
    var c := InstanceContainer(n);
    && (faults == Only(RepositoryConf) && confRepo.Some? ==>
          o.Refused? && w == w0.(confs := w0.confs[n := Written(w0, n, i.backupEnabled, None)]))
    && (faults.Never? && c in w0.containers ==>
          o.Refused? && w == w0.(confs := w0.confs[n := Written(w0, n, i.backupEnabled, confRepo)]))
    && (fill.Initialise? && c !in w0.containers && OnlyUser(w0, c, DataVolume(n)) ==> Settled(faults, w0, w, n, i, o))
  }

  predicate CreateAllowed(w: Host, n: string, noBackup: bool, passwordGiven: bool, s: Settings) {
    (noBackup || (s.s3 && passwordGiven)) && ValidName(n) && n !in w.states && InstanceContainer(n) !in w.containers
  }

  function Created(version: nat, noBackup: bool): Instance {
    Instance(version, None, !noBackup, 0)
  }

  /** `pgforge create`: a fresh cluster under a name that neither a record nor a container has. */
  method Create(m: Machine, n: string, version: nat, noBackup: bool, passwordGiven: bool, s: Settings) returns (o: Outcome)
    requires m.Valid()
    modifies m
    ensures m.Valid() && old(m.history) <= m.history
    ensures n in old(m.w).states ==> m.w == old(m.w) && m.unclashed == old(m.unclashed) && m.unmixed == old(m.unmixed)
    ensures Flagged(old(m.w), m.w, n, old(m.unclashed), m.unclashed, old(m.unmixed), m.unmixed)
    ensures m.unmixed == old(m.unmixed)
    ensures Provisioned(old(m.w), m.w, n, Created(version, noBackup), s, o)
    ensures o == RolledBack(true) ==> RestoredIff(old(m.w), m.w, n) && (Safe(old(m.w)) ==> DataSurvivesIff(old(m.w), m.w, n))
    ensures o.Done? || o.Unsaved? ==>
      UpWith(m.w, n, version, Written(old(m.w), n, !noBackup, if s.s3 then Some(n) else None), !noBackup)
    ensures m.Sure(Elsewhere) && CreateAllowed(old(m.w), n, noBackup, passwordGiven, s) && HasPort(old(m.w), s) ==>
      Chosen(m.faults, old(m.w), m.w, n, Created(version, noBackup), if s.s3 then Some(n) else None, Initialise, o)
  {
    hide InstanceContainer, DataVolume, VersionedVolume, Safe, Sealed, Frame, Reverted, RestoredIff, DataSurvivesIff;
    hide UpWith, Written, Chosen, Provisioned, ValidName, HasPort;
    o := Refused;
    UnchangedIsProvisioned(m.w, n, Created(version, noBackup), s);
    if !noBackup && !s.s3 { return; }
    if !ValidName(n) || (!noBackup && !passwordGiven) { return; }
    if n in m.w.states { return; }
    var ok := m.Ask();                                                 // container_exists
    if !ok || InstanceContainer(n) in m.w.containers { return; }
    o := Provide(m, n, Created(version, noBackup), if s.s3 then Some(n) else None, !noBackup, Initialise, s);
  }

  lemma UnchangedIsProvisioned(w: Host, n: string, i: Instance, s: Settings)
    ensures Provisioned(w, w, n, i, s, Refused)
  {
  }

  predicate CloneAllowed(w: Host, source: string, n: string, s: Settings) {
    && ValidName(n) && s.s3 && source in w.states && w.states[source].backupEnabled && n !in w.states
    && InstanceContainer(source) in w.containers && w.containers[InstanceContainer(source)].running
  }

  function Cloned(source: Instance): Instance {
    Instance(source.pgVersion, None, true, 0)
  }

  /** `pgforge clone`: a copy of a running, backup-enabled instance, with a repository of its
      own. `files` are the files of the source's cluster, whatever they are. */
  method Clone(m: Machine, source: string, n: string, files: set<string>, s: Settings) returns (o: Outcome)
    requires m.Valid()
    modifies m
    ensures m.Valid() && old(m.history) <= m.history
    ensures n in old(m.w).states ==> m.w == old(m.w) && m.unclashed == old(m.unclashed) && m.unmixed == old(m.unmixed)
    ensures Flagged(old(m.w), m.w, n, old(m.unclashed), m.unclashed, old(m.unmixed), m.unmixed)
    ensures !(o.Refused? && m.w == old(m.w)) ==>
      CloneAllowed(old(m.w), source, n, s)
      && Provisioned(old(m.w), m.w, n, Cloned(old(m.w).states[source]), s, o)
    ensures o == RolledBack(true) ==> RestoredIff(old(m.w), m.w, n) && (Safe(old(m.w)) ==> DataSurvivesIff(old(m.w), m.w, n))
    ensures o.Done? && HasData(old(m.w), source) && DataVolume(n) !in old(m.w).volumes ==>
      ContentOf(m.w, n) == ContentOf(old(m.w), source)
    ensures m.faults == Only(RepositoryConf) && CloneAllowed(old(m.w), source, n, s) && HasPort(old(m.w), s) ==>
      m.w == old(m.w).(confs := old(m.w).confs[n := Written(old(m.w), n, true, None)])
  {
    hide InstanceContainer, DataVolume, VersionedVolume, Safe, Sealed, Frame, Reverted, RestoredIff, DataSurvivesIff;
    hide UpWith, Written, ValidName, HasPort;
    o := Refused;
    if !ValidName(n) || !s.s3 { return; }
    if source !in m.w.states || !m.w.states[source].backupEnabled || n in m.w.states { return; }
    var ok := m.Ask();                                                 // container_running
    if !ok || InstanceContainer(source) !in m.w.containers || !m.w.containers[InstanceContainer(source)].running { return; }
    var i := m.w.states[source];
    var data := if VolumeOf(source, i) in m.w.volumes then m.w.volumes[VolumeOf(source, i)] else Blank;
    var fill := Copy(E.Cloning, files, if data.Cluster? then data.version else i.pgVersion, if data.Cluster? then data.content else 0);
    o := Provide(m, n, Cloned(i), Some(n), true, fill, s);
  }

  predicate RestoreAllowed(w: Host, source: string, n: string, targetValid: bool, s: Settings) {
    ValidName(n) && targetValid && s.s3 && source in w.states && w.states[source].backupEnabled && n !in w.states
  }

  function Restored(source: Instance): Instance {
    Instance(source.pgVersion, None, false, 0)
  }

  /** `pgforge restore`: some backed-up data of the source, in an instance that neither archives
      nor is scheduled; its configuration reads the SOURCE's repository. */
  method Restore(m: Machine, source: string, n: string, targetValid: bool, files: set<string>, version: nat, content: int,
                 s: Settings) returns (o: Outcome)
    requires m.Valid()
    modifies m
    ensures m.Valid() && old(m.history) <= m.history
    ensures n in old(m.w).states ==> m.w == old(m.w) && m.unclashed == old(m.unclashed) && m.unmixed == old(m.unmixed)
    ensures Flagged(old(m.w), m.w, n, old(m.unclashed), m.unclashed, old(m.unmixed), m.unmixed)
    ensures !(o.Refused? && m.w == old(m.w)) ==>
      RestoreAllowed(old(m.w), source, n, targetValid, s)
      && Provisioned(old(m.w), m.w, n, Restored(old(m.w).states[source]), s, o)
    ensures o == RolledBack(true) ==> RestoredIff(old(m.w), m.w, n) && (Safe(old(m.w)) ==> DataSurvivesIff(old(m.w), m.w, n))
    ensures o.Done? || o.Unsaved? ==>
      UpWith(m.w, n, old(m.w).states[source].pgVersion, Conf(Some(false), Some(source)), true)
    ensures m.faults.Never? && RestoreAllowed(old(m.w), source, n, targetValid, s) && HasPort(old(m.w), s) ==>
      InstanceContainer(n) in old(m.w).containers ==>
      m.w == old(m.w).(confs := old(m.w).confs[n := Conf(Some(false), Some(source))])
  {
    hide InstanceContainer, DataVolume, VersionedVolume, Safe, Sealed, Frame, Reverted, RestoredIff, DataSurvivesIff;
    hide UpWith, ValidName, HasPort;
    o := Refused;
    if !ValidName(n) || !targetValid || !s.s3 { return; }
    if source !in m.w.states || !m.w.states[source].backupEnabled || n in m.w.states { return; }
    var i := m.w.states[source];
    o := Provide(m, n, Restored(i), Some(source), true, Copy(E.Restoring, files, version, content), s);
  }
}
