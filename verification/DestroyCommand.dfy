/** `pgforge destroy`: backups if asked, then container, volume and state directory. */
module DestroyCommand {
  import opened Text
  import opened Naming
  import opened World
  import opened Engine

  /** An unfinished destroy leaves the record; then either the data is still what it was, or
      the removal of the volume had begun. */
  predicate Unfinished(w0: Host, w: Host, n: string)
    requires n in w0.states
  {
    n in w.states ==>
      && w.states[n] == w0.states[n]
      && (n in w.halfDestroyed || (ContentOf(w, n) == ContentOf(w0, n)))
  }

  /** The repository that goes is the instance's own, only when asked for, and before
      anything else: while it is there, nothing has been taken down. */
  predicate BackupsHandled(w0: Host, w: Host, n: string, deleteBackups: bool)
    requires n in w0.states
  {
    && w.repos - {n} == w0.repos - {n}
    && (!deleteBackups || !w0.states[n].backupEnabled ==> w.repos == w0.repos)
    && (deleteBackups && w0.states[n].backupEnabled && n in w.repos ==> w == w0)
  }

  /** No volume of the name is there, neither the first nor any upgraded one. */
  ghost predicate NoVolumeOf(w: Host, n: string) {
    DataVolume(n) !in w.volumes && forall v: nat :: VersionedVolume(n, v) !in w.volumes
  }

  /** The recorded volume is the only one of the name: never upgraded, and nothing left over. */
  ghost predicate OnlyVolumeOf(w: Host, n: string)
    requires n in w.states
  {
    var own := VolumeOf(n, w.states[n]);
    && (DataVolume(n) in w.volumes ==> DataVolume(n) == own)
    && (forall v: nat | VersionedVolume(n, v) in w.volumes :: VersionedVolume(n, v) == own)
  }

  /** The backups can be deleted if asked to, and no container but the instance's own keeps
      Docker from removing the volume. */
  predicate Destroyable(w: Host, n: string, deleteBackups: bool) {
    && n in w.states && OnlyUser(w, InstanceContainer(n), VolumeOf(n, w.states[n]))
    && (deleteBackups && w.states[n].backupEnabled ==>
          && InstanceContainer(n) in w.containers && w.containers[InstanceContainer(n)].running
          && w.containers[InstanceContainer(n)].repo.Some?)
  }

  /** `pgforge destroy`. Ok takes away the container, the recorded volume, the record and the
      configuration, and no other volume: nothing of the name is left exactly when the
      recorded volume was the only one. */
  method Destroy(m: Machine, n: string, deleteBackups: bool) returns (ok: bool)
    requires m.Valid()
    modifies m`w, m`history
    ensures m.Valid() && old(m.history) <= m.history
    ensures n !in old(m.w).states ==> !ok && m.w == old(m.w)
    ensures m.w.states - {n} == old(m.w).states - {n}
    ensures n in old(m.w).states && m.unclashed ==>
      && Frame(old(m.w), m.w, n, {InstanceContainer(n)}, {VolumeOf(n, old(m.w).states[n])})
      && Unfinished(old(m.w), m.w, n)
      && BackupsHandled(old(m.w), m.w, n, deleteBackups)
    ensures ok ==>
      && n !in m.w.states && InstanceContainer(n) !in m.w.containers && n !in m.w.confs
      && m.w.volumes == old(m.w).volumes - {VolumeOf(n, old(m.w).states[n])}
      && (NoVolumeOf(m.w, n) <==> OnlyVolumeOf(old(m.w), n))
    ensures n in old(m.w).states && n !in old(m.w).halfDestroyed && HasData(old(m.w), n) && n in m.w.states ==>
      (HasData(m.w, n) <==> n !in m.w.halfDestroyed)
    ensures m.faults.Never? && Destroyable(old(m.w), n, deleteBackups) ==> ok
    ensures m.faults == Only(StateDirectory) && Destroyable(old(m.w), n, deleteBackups) ==>
      !ok && m.w.states == old(m.w).states && n in m.w.halfDestroyed && !HasData(m.w, n)
  {
    hide InstanceContainer, DataVolume, VersionedVolume, Safe, Sealed;
    ghost var w0 := m.w;
    if n !in m.w.states { return false; }
    var i := m.w.states[n];
    var c, v := InstanceContainer(n), VolumeOf(n, i);
    if deleteBackups && i.backupEnabled {
      ok := DeleteStanza(m, n);
      if !ok { return; }
    }
    ok := m.StopAndRemove(c);
    if !ok { return; }
    OnlyOwn(w0, m.w, c, v);
    if m.InUse(v) { return false; }                                    // a leftover upgrade container mounts it
    OwnVolumeRemovalKeeps(m.w, n);
    ok := m.Call(m.w.(volumes := m.w.volumes - {v}, halfDestroyed := m.w.halfDestroyed + {n}));
    if !ok { return; }
    ok := RemoveStateDirectory(m, n);
  }

  lemma OnlyOwn(w0: Host, w: Host, c: string, v: string)
    requires w.containers - {c} == w0.containers - {c} && c !in w.containers
    ensures OnlyUser(w0, c, v) <==> forall d | d in w.containers :: v !in w.containers[d].volumes
  {
    assert forall d | d in w.containers :: d in w.containers - {c};
    assert forall d | d in w0.containers && d != c :: d in w0.containers - {c};
  }

  /** Deletes the repository that the running container reads. */
  method DeleteStanza(m: Machine, n: string) returns (ok: bool)
    requires m.Valid() && n in m.w.states && m.w.states[n].backupEnabled
    modifies m`w, m`history
    ensures m.Valid() && old(m.history) <= m.history
    ensures m.w == old(m.w).(repos := m.w.repos)
    ensures m.unclashed ==> m.w.repos == old(m.w).repos - {n} || (m.w == old(m.w) && !ok)
    ensures m.Sure(Elsewhere) && Destroyable(old(m.w), n, true) ==> ok
  {
    hide Safe, Sealed;
    var c := InstanceContainer(n);
    ok := m.Ask();                                                     // container_running
    if !ok { return; }
    if c !in m.w.containers || !m.w.containers[c].running || m.w.containers[c].repo.None? { return false; }
    OwnRepo(m.w, n);
    var repo := m.w.containers[c].repo.value;
    ReposKeep(m.w, m.w.repos - {repo});
    ok := m.Call(m.w.(repos := m.w.repos - {repo}));
  }

  /** A recorded instance's running server reads its own repository. */
  lemma OwnRepo(w: Host, n: string)
    requires n in w.states && w.states[n].backupEnabled
    requires InstanceContainer(n) in w.containers && w.containers[InstanceContainer(n)].running
    ensures Safe(w) ==> w.containers[InstanceContainer(n)].archive && w.containers[InstanceContainer(n)].repo == Some(n)
  {
    if Safe(w) {
      assert Attached(w, n);
    }
  }

  /** Removes the record and the configuration directory, in either order, possibly not both. */
  method RemoveStateDirectory(m: Machine, n: string) returns (ok: bool)
    requires m.Valid() && n in m.w.states && InstanceContainer(n) !in m.w.containers
    modifies m`w, m`history
    ensures m.Valid() && old(m.history) <= m.history
    ensures m.w == old(m.w).(states := m.w.states, confs := m.w.confs, halfDestroyed := m.w.halfDestroyed)
    ensures m.w.confs - {n} == old(m.w).confs - {n} && m.w.states - {n} == old(m.w).states - {n}
    ensures m.w.halfDestroyed - {n} == old(m.w).halfDestroyed - {n}
    ensures n in m.w.states ==>
      m.w.states[n] == old(m.w).states[n] && (n in m.w.halfDestroyed <==> n in old(m.w).halfDestroyed)
    ensures ok ==> n !in m.w.states && n !in m.w.confs
    ensures m.Sure(StateDirectory) ==> ok
    ensures m.faults == Only(StateDirectory) ==> !ok && m.w == old(m.w)
  {
    hide InstanceContainer, Safe, Sealed;
    var confFirst: bool := *;
    if confFirst {
      ConfRemovalKeeps(m.w, n);
      ok := m.Call(m.w.(confs := m.w.confs - {n}), StateDirectory);
      if !ok { return; }
    }
    StateRemovalKeeps(m.w, n);
    ok := m.Call(m.w.(states := m.w.states - {n}, halfDestroyed := m.w.halfDestroyed - {n}), StateDirectory);
    if ok && !confFirst {
      ConfRemovalKeeps(m.w, n);
      ok := m.Call(m.w.(confs := m.w.confs - {n}), StateDirectory);
    }
  }
}
