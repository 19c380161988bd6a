/** `pgforge upgrade`: move an instance to a new major version on a new volume. */
module UpgradeCommand {
  import opened Text
  import opened Naming
  import opened World
  import opened Engine
  import opened RotateCommand

  /** Runs the one-shot container. The script initialises an empty new volume and copies the
      old cluster into it; on anything but an empty volume it stops at once. It exits with 0
      only when the copy is complete. */
  method RunScript(m: Machine, uc: string, oldVolume: string, newVolume: string, from: nat, to: nat)
    returns (ok: bool, exitCode: int)
    requires m.Valid() && uc in m.w.containers && (m.unclashed ==> Unneeded(m.w, newVolume))
    requires oldVolume in m.w.volumes && newVolume in m.w.volumes
    modifies m`w, m`history
    ensures m.Valid() && old(m.history) <= m.history
    ensures uc in m.w.containers && newVolume in m.w.volumes
    ensures m.w == old(m.w).(containers := m.w.containers, volumes := m.w.volumes)
    ensures m.w.containers - {uc} == old(m.w).containers - {uc}
    ensures m.w.volumes - {newVolume} == old(m.w).volumes - {newVolume}
    ensures ok && exitCode == 0 ==>
      var data := old(m.w).volumes[oldVolume];
      RunsOn(data, from) && m.w.volumes[newVolume] == Cluster(to, data.content)
    ensures !old(m.w).volumes[newVolume].Blank? ==> m.w.volumes == old(m.w).volumes && exitCode != 0
    ensures m.faults.Never? ==> ok
    ensures m.faults.Never? && old(m.w).volumes[newVolume].Blank? && RunsOn(old(m.w).volumes[oldVolume], from) ==>
      exitCode == 0
  {
    hide Safe, Sealed;
    exitCode := -1;
    var source, target := m.w.volumes[oldVolume], m.w.volumes[newVolume];
    var completed := target.Blank? && RunsOn(source, from);
    if completed && !m.faults.Never? { completed := *; }
    if completed {
      target := Cluster(to, source.content);
    } else if target.Blank? {
      var begun: bool := *;
      if begun { target := Partial; }
    }
    var running: bool := *;
    VolumeKeeps(m.w, newVolume, target);
    var done := m.w.(volumes := m.w.volumes[newVolume := target]);
    RunningKeeps(done, uc);
    var k := done.containers[uc];
    k := if running then Booted(done, k) else Stopped(k);
    ok := m.Call(done.(containers := done.containers[uc := k]));       // start_container, and the script
    if !ok { return; }
    ok := m.Ask();                                                     // wait_for_container_exit
    if completed && m.faults.Never? {
      exitCode := 0;
    } else {
      exitCode := *;
      if !completed && exitCode == 0 { exitCode := 1; }
    }
  }

  /** What an upgrade keeps wherever it stops: everything filed elsewhere, every volume but
      the new one, and, from a safe host, the old volume of an instance that no destroy has
      begun on. */
  predicate Kept(w0: Host, w: Host, n: string, to: nat)
    requires n in w0.states
  {
    var oldVolume, newVolume := VolumeOf(n, w0.states[n]), VersionedVolume(n, to);
    && Frame(w0, w, n, {InstanceContainer(n), UpgradeContainer(n, to)}, {oldVolume, newVolume})
    && w.repos == w0.repos && w.halfDestroyed == w0.halfDestroyed
    && (Safe(w0) && n !in w0.halfDestroyed ==>
          oldVolume in w0.volumes && oldVolume in w.volumes && w.volumes[oldVolume] == w0.volumes[oldVolume])
  }

  function Switched(n: string, i: Instance, to: nat): Instance {
    i.(pgVersion := to, volumeOverride := Some(VersionedVolume(n, to)))
  }

  /** The record is the old one, or the switched one on a complete copy of the same data. */
  predicate OldOrSwitched(w0: Host, w: Host, n: string, to: nat)
    requires n in w0.states
  {
    && n in w.states
    && (w.states[n] == w0.states[n] || w.states[n] == Switched(n, w0.states[n], to))
    && (Safe(w0) && n !in w0.halfDestroyed ==>
          && HasData(w0, n) && HasData(w, n)
          && w.volumes[VolumeOf(n, w.states[n])].content == w0.volumes[VolumeOf(n, w0.states[n])].content)
  }

  lemma StartingPoint(w: Host, n: string, to: nat)
    requires n in w.states && to > w.states[n].pgVersion
    ensures Kept(w, w, n, to) && OldOrSwitched(w, w, n, to)
    ensures Safe(w) ==> VolumeOf(n, w.states[n]) != VersionedVolume(n, to)
    ensures InstanceContainer(n) != UpgradeContainer(n, to)
  {
    RecordedHasData(w, n);
    assert |InstanceContainer(n)| < |UpgradeContainer(n, to)|;
    if Safe(w) {
      assert OverrideOk(n, w.states[n]);
      assert |DataVolume(n)| < |VersionedVolume(n, to)|;
      if VersionedVolume(n, w.states[n].pgVersion) == VersionedVolume(n, to) {
        VersionedVolumeInjective(n, w.states[n].pgVersion, n, to);
      }
    }
  }

  /** Before the record is switched only containers and the two volumes change. */
  predicate Preparing(w0: Host, w: Host, n: string, to: nat)
    requires n in w0.states
  {
    w == w0.(containers := w.containers, volumes := w.volumes) && Kept(w0, w, n, to)
  }

  /** The new volume holds a complete copy in the new version. */
  predicate Converted(w0: Host, w: Host, n: string, to: nat)
    requires n in w0.states
  {
    var newVolume := VersionedVolume(n, to);
    && newVolume in w.volumes && RunsOn(w.volumes[newVolume], to)
    && (Safe(w0) && n !in w0.halfDestroyed ==>
          HasData(w0, n) && w.volumes[newVolume].content == w0.volumes[VolumeOf(n, w0.states[n])].content)
  }

  /** One more step that keeps to the upgrade's containers and volumes, and to the old volume. */
  lemma KeptSteps(w0: Host, w: Host, v: Host, n: string, to: nat, cs: set<string>, vs: set<string>)
    requires n in w0.states && Kept(w0, w, n, to) && Frame(w, v, n, cs, vs)
    requires cs <= {InstanceContainer(n), UpgradeContainer(n, to)}
    requires vs <= {VolumeOf(n, w0.states[n]), VersionedVolume(n, to)}
    requires v.repos == w.repos && v.halfDestroyed == w.halfDestroyed
    requires Safe(w0) && n !in w0.halfDestroyed ==>
      var o := VolumeOf(n, w0.states[n]); o in w.volumes && o in v.volumes && v.volumes[o] == w.volumes[o]
    ensures Kept(w0, v, n, to)
  {
    hide Safe;
    FrameSteps(w0, w, v, n, {InstanceContainer(n), UpgradeContainer(n, to)},
               {VolumeOf(n, w0.states[n]), VersionedVolume(n, to)}, cs, vs);
  }

  /** The same while preparing, where the record cannot change. */
  lemma PreparingSteps(w0: Host, w: Host, v: Host, n: string, to: nat, volumes: set<string>)
    requires n in w0.states && Preparing(w0, w, n, to) && OldOrSwitched(w0, w0, n, to)
    requires v == w.(containers := v.containers, volumes := v.volumes)
    requires v.containers - {UpgradeContainer(n, to)} == w.containers - {UpgradeContainer(n, to)}
    requires v.volumes - volumes == w.volumes - volumes
    requires volumes <= {VolumeOf(n, w0.states[n]), VersionedVolume(n, to)}
    requires Safe(w0) && n !in w0.halfDestroyed ==>
      var o := VolumeOf(n, w0.states[n]); o in w.volumes ==> o in v.volumes && v.volumes[o] == w.volumes[o]
    ensures Preparing(w0, v, n, to) && OldOrSwitched(w0, v, n, to)
  {
    CallFrames(w, v, n, UpgradeContainer(n, to), volumes);
    KeptSteps(w0, w, v, n, to, {UpgradeContainer(n, to)}, volumes);
    PreparingKeepsRecord(w0, v, n, to);
  }

  lemma PreparingKeepsRecord(w0: Host, w: Host, n: string, to: nat)
    requires n in w0.states && Preparing(w0, w, n, to) && OldOrSwitched(w0, w0, n, to)
    ensures OldOrSwitched(w0, w, n, to)
  {
    hide Safe;
  }

  /** The data is there, and neither the one-shot container nor data on the new volume is
      left over. */
  predicate Convertible(w: Host, n: string, to: nat) {
    && n in w.states && HasData(w, n)
    && UpgradeContainer(n, to) !in w.containers
    && VersionedVolume(n, to) != VolumeOf(n, w.states[n])
    && (VersionedVolume(n, to) in w.volumes ==> w.volumes[VersionedVolume(n, to)].Blank?)
  }

  /** A snapshot, if one is to be taken, finds the server running. */
  predicate Attemptable(w: Host, n: string) {
    n in w.states && (w.states[n].backupEnabled ==>
      InstanceContainer(n) in w.containers && w.containers[InstanceContainer(n)].running)
  }

  /** Nothing stands in the way. */
  predicate Upgradable(w: Host, n: string, to: nat, s3: bool) {
    && Convertible(w, n, to) && Attemptable(w, n) && to > w.states[n].pgVersion
    && (w.states[n].backupEnabled ==> s3)
  }

  // ---------- What a failed upgrade can cost ----------

  /** The new volume's name is that of a volume with something on it. */
  predicate Taken(w: Host, n: string, to: nat) {
    VersionedVolume(n, to) in w.volumes && !w.volumes[VersionedVolume(n, to)].Blank?
  }

  /** Every recorded instance that no destroy has begun on still has its data. */
  predicate Spared(w0: Host, w: Host) {
    forall m | m in w0.states && m !in w0.halfDestroyed :: m in w.states && HasData(w, m)
  }

  /** The upgrade gets as far as its one-shot container, and nothing but the instance's own
      container would keep Docker from removing the new volume afterwards. */
  predicate Exposed(w: Host, n: string, to: nat) {
    && Attemptable(w, n) && UpgradeContainer(n, to) !in w.containers
    && OnlyUser(w, InstanceContainer(n), VersionedVolume(n, to))
  }

  /** The new volume belongs to a recorded instance exactly when `<n>_v<to>` is recorded on
      its first volume. */
  lemma NeededIff(w: Host, n: string, to: nat)
    requires Safe(w) && n in w.states && to > w.states[n].pgVersion
    ensures var victim := Versioned(n, to);
      Unneeded(w, VersionedVolume(n, to)) <==>
      !(victim in w.states && victim !in w.halfDestroyed && w.states[victim].volumeOverride.None?)
  {
    hide VersionedVolume, Versioned, VolumeOf, VolumesOk, DataOk, AttachedOk, PortsOk;
    forall m | m in w.states
      ensures VolumeOf(m, w.states[m]) == VersionedVolume(n, to) <==>
        w.states[m].volumeOverride.None? && m == Versioned(n, to)
    {
      assert OverrideOk(m, w.states[m]);
      WhoseUpgradeVolume(m, w.states[m], n, to);
    }
  }

  lemma NeededIsTaken(w: Host, n: string, to: nat)
    requires Safe(w) && !Unneeded(w, VersionedVolume(n, to))
    ensures Taken(w, n, to)
  {
    var m :| m in w.states && m !in w.halfDestroyed && VolumeOf(m, w.states[m]) == VersionedVolume(n, to);
    assert HasData(w, m);
  }

  /** What an upgrade may do to a volume whose name it finds taken: leave it, or remove it. */
  predicate LeftOrGone(w0: Host, w: Host, n: string, to: nat) {
    Taken(w0, n, to) && VersionedVolume(n, to) in w.volumes ==>
      w.volumes[VersionedVolume(n, to)] == w0.volumes[VersionedVolume(n, to)]
  }

  lemma SparedIff(w0: Host, w: Host, n: string, to: nat)
    requires Safe(w0) && n in w0.states && to > w0.states[n].pgVersion
    requires Kept(w0, w, n, to) && OldOrSwitched(w0, w, n, to) && LeftOrGone(w0, w, n, to)
    ensures Spared(w0, w) <==> Unneeded(w0, VersionedVolume(n, to)) || VersionedVolume(n, to) in w.volumes
  {
    StartingPoint(w0, n, to);
    var oldVolume, newVolume := VolumeOf(n, w0.states[n]), VersionedVolume(n, to);
    hide InstanceContainer, UpgradeContainer, DataVolume, VersionedVolume;
    forall m | m in w0.states && m !in w0.halfDestroyed && m != n
      ensures m in w.states && (VolumeOf(m, w0.states[m]) != newVolume ==> HasData(w, m))
      ensures VolumeOf(m, w0.states[m]) == newVolume ==> (HasData(w, m) <==> newVolume in w.volumes)
    {
      SameOutside(w0.states, w.states, {n}, m);
      var v := VolumeOf(m, w0.states[m]);
      assert HasData(w0, m) && v != oldVolume;
      if v != newVolume {
        SameOutside(w0.volumes, w.volumes, {oldVolume, newVolume}, v);
      }
    }
    hide Safe;
  }

  // ---------- The command ----------

  /** `pgforge upgrade`. On success the record is switched and the container recreated;
      whatever happens, the recorded data stays the same data, on the old volume or on the
      new one, and nothing filed elsewhere changes, but for a volume whose name it takes for
      its own. Without faults it succeeds. */
  method Upgrade(m: Machine, n: string, to: nat, s3: bool) returns (ok: bool)
    requires m.Valid()
    modifies m`w, m`history, m`unclashed
    ensures m.Valid() && old(m.history) <= m.history
    ensures n !in old(m.w).states || to <= old(m.w).states[n].pgVersion ==>
      !ok && m.w == old(m.w) && m.unclashed == old(m.unclashed)
    ensures n in old(m.w).states && to > old(m.w).states[n].pgVersion ==>
      && m.unclashed == (old(m.unclashed) && UpgradeFree(old(m.w), n, to))
      && Kept(old(m.w), m.w, n, to) && OldOrSwitched(old(m.w), m.w, n, to)
    ensures ok ==> n in old(m.w).states && m.w.states[n] == Switched(n, old(m.w).states[n], to) && Serving(m.w, n)
    ensures m.faults.Never? && Upgradable(old(m.w), n, to, s3) ==> ok
    ensures Taken(old(m.w), n, to) ==> !ok && m.w.states == old(m.w).states
    ensures Safe(old(m.w)) && n in old(m.w).states && to > old(m.w).states[n].pgVersion ==>
      CostsOnly(old(m.w), m.w, n, to, m.faults)
  {
    hide InstanceContainer, UpgradeContainer, DataVolume, VersionedVolume, Safe, Sealed, OldOrSwitched, UpgradeFree;
    hide Kept, CostsOnly;
    if n !in m.w.states || to <= m.w.states[n].pgVersion { return false; }
    ghost var w0 := m.w;
    StartingPoint(w0, n, to);
    m.unclashed := m.unclashed && UpgradeFree(m.w, n, to);
    ok := Attempt(m, n, to, s3);
    CostsLemma(w0, m.w, n, to, m.faults);
  }

  /** When recorded data is lost: exactly when the new volume was another instance's and is
      gone; and without faults, exactly when it was and nothing kept it from being removed. */
  predicate CostsOnly(w0: Host, w: Host, n: string, to: nat, faults: Faults) {
    var newVolume := VersionedVolume(n, to);
    && (Spared(w0, w) <==> Unneeded(w0, newVolume) || newVolume in w.volumes)
    && (faults.Never? ==> (Spared(w0, w) <==> Unneeded(w0, newVolume) || !Exposed(w0, n, to)))
  }

  lemma CostsLemma(w0: Host, w: Host, n: string, to: nat, faults: Faults)
    requires n in w0.states && to > w0.states[n].pgVersion
    requires Kept(w0, w, n, to) && OldOrSwitched(w0, w, n, to) && LeftOrGone(w0, w, n, to)
    requires faults.Never? && Taken(w0, n, to) ==> (VersionedVolume(n, to) in w.volumes <==> !Exposed(w0, n, to))
    ensures Safe(w0) ==> CostsOnly(w0, w, n, to, faults)
  {
    hide InstanceContainer, UpgradeContainer, DataVolume, VersionedVolume, Kept, OldOrSwitched, LeftOrGone, Exposed;
    hide Safe, Spared, Unneeded, Taken;
    if Safe(w0) {
      SparedIff(w0, w, n, to);
      if !Unneeded(w0, VersionedVolume(n, to)) {
        NeededIsTaken(w0, n, to);
      }
    }
  }

  /** The steps of an upgrade to a greater version. */
  method Attempt(m: Machine, n: string, to: nat, s3: bool) returns (ok: bool)
    requires m.Valid() && n in m.w.states && to > m.w.states[n].pgVersion && (m.unclashed ==> UpgradeFree(m.w, n, to))
    modifies m`w, m`history
    ensures m.Valid() && old(m.history) <= m.history
    ensures Kept(old(m.w), m.w, n, to) && OldOrSwitched(old(m.w), m.w, n, to)
    ensures ok ==> m.w.states[n] == Switched(n, old(m.w).states[n], to) && Serving(m.w, n)
    ensures m.faults.Never? && Upgradable(old(m.w), n, to, s3) ==> ok
    ensures Taken(old(m.w), n, to) ==> !ok && m.w.states == old(m.w).states
    ensures LeftOrGone(old(m.w), m.w, n, to)
    ensures m.faults.Never? && Taken(old(m.w), n, to) ==>
      (VersionedVolume(n, to) in m.w.volumes <==> !Exposed(old(m.w), n, to))
  {
    hide InstanceContainer, UpgradeContainer, DataVolume, VersionedVolume, Safe, Sealed, OldOrSwitched, UpgradeFree, Kept;
    hide OnlyUser;
    var i := m.w.states[n];
    ghost var w0 := m.w;
    StartingPoint(w0, n, to);
    if i.backupEnabled {
      if InstanceContainer(n) !in m.w.containers || !m.w.containers[InstanceContainer(n)].running { return false; }
      ok := m.Ask();                                                   // pre-upgrade snapshot
      if !ok { return; }
    }
    ok := m.Ask();                                                     // upgrade image
    if !ok { return; }
    ok := m.StopAndRemove(InstanceContainer(n));
    WithoutOwn(w0, m.w, n, to);
    if !ok { return; }
    ok := m.Ask();                                                     // the script file
    if !ok { return; }
    ghost var w1 := m.w;
    ok := Convert(m, w0, n, to);
    if !ok { return; }
    ok := SwitchAndServe(m, w0, n, to, s3);
  }

  /** The instance's own container is gone, or on its way. */
  lemma WithoutOwn(w0: Host, w: Host, n: string, to: nat)
    requires n in w0.states && to > w0.states[n].pgVersion
    requires w == w0.(containers := w.containers)
    requires w.containers - {InstanceContainer(n)} == w0.containers - {InstanceContainer(n)}
    ensures Preparing(w0, w, n, to) && OldOrSwitched(w0, w, n, to) && OldOrSwitched(w0, w0, n, to)
    ensures UpgradeContainer(n, to) in w.containers <==> UpgradeContainer(n, to) in w0.containers
    ensures InstanceContainer(n) !in w.containers ==>
      (Unmounted(w, VersionedVolume(n, to)) <==> OnlyUser(w0, InstanceContainer(n), VersionedVolume(n, to)))
  {
    StartingPoint(w0, n, to);
    hide InstanceContainer, UpgradeContainer, DataVolume, VersionedVolume, Safe;
    CallFrames(w0, w, n, InstanceContainer(n), {});
    KeptSteps(w0, w0, w, n, to, {InstanceContainer(n)}, {});
    PreparingKeepsRecord(w0, w, n, to);
    hide Kept, OldOrSwitched, Frame;
    SameOutside(w0.containers, w.containers, {InstanceContainer(n)}, UpgradeContainer(n, to));
    if InstanceContainer(n) !in w.containers {
      assert forall c | c in w.containers :: c in w.containers - {InstanceContainer(n)};
      assert forall c | c in w0.containers && c != InstanceContainer(n) :: c in w0.containers - {InstanceContainer(n)};
    }
  }

  predicate Unmounted(w: Host, v: string) {
    forall c | c in w.containers :: v !in w.containers[c].volumes
  }

  /** Runs the conversion; a failed one removes its container and the new volume again. */
  method Convert(m: Machine, ghost w0: Host, n: string, to: nat) returns (ok: bool)
    requires m.Valid() && n in w0.states && to > w0.states[n].pgVersion
    requires m.unclashed ==> UpgradeFree(w0, n, to)
    requires Preparing(w0, m.w, n, to) && OldOrSwitched(w0, w0, n, to)
    requires InstanceContainer(n) !in m.w.containers
    modifies m`w, m`history
    ensures m.Valid() && old(m.history) <= m.history
    ensures Preparing(w0, m.w, n, to) && OldOrSwitched(w0, m.w, n, to)
    ensures InstanceContainer(n) !in m.w.containers
    ensures ok ==> Converted(w0, m.w, n, to)
    ensures m.faults.Never? && Convertible(old(m.w), n, to) ==> ok
    ensures Taken(old(m.w), n, to) ==> !ok && TakenAfter(m.faults, old(m.w), m.w, n, to)
  {
    hide InstanceContainer, UpgradeContainer, DataVolume, VersionedVolume, Safe, Sealed, UpgradeFree, Frame, Kept;
    hide OldOrSwitched, Converted, TakenAfter;
    StartingPoint(w0, n, to);
    ghost var w1 := m.w;
    var k := Container(false, {VolumeOf(n, m.w.states[n]), VersionedVolume(n, to)}, to, None, false, false, None);
    UpgradeMatches(m.w, w0, n, to, k);
    ok := m.CreateContainer(UpgradeContainer(n, to), k);
    CreatedSteps(w0, w1, m.w, n, to, k, m.faults, ok);
    if !ok { return; }
    ok := RunConversion(m, w0, n, to);
    TakenThrough(m.faults, w1, WithContainer(w1, UpgradeContainer(n, to), k), m.w, n, to, k);
  }

  /** What becomes of a taken volume: it is left or removed, and without faults removed
      exactly when the one-shot container was free and no other mounted it. */
  predicate TakenAfter(faults: Faults, w: Host, v: Host, n: string, to: nat) {
    var newVolume := VersionedVolume(n, to);
    && LeftOrGone(w, v, n, to)
    && (faults.Never? ==> (newVolume in v.volumes <==> UpgradeContainer(n, to) in w.containers || !Unmounted(w, newVolume)))
  }

  lemma UpgradeMatches(w: Host, w0: Host, n: string, to: nat, k: Container)
    requires w.states == w0.states && k.owner.None? && !k.withRepo
    ensures UpgradeFree(w0, n, to) ==> Matches(w, UpgradeContainer(n, to), k)
    ensures Wired(w, UpgradeContainer(n, to), k)
  {
    hide InstanceContainer, UpgradeContainer;
  }

  lemma CreatedSteps(w0: Host, w1: Host, w: Host, n: string, to: nat, k: Container, faults: Faults, created: bool)
    requires n in w0.states && Preparing(w0, w1, n, to) && OldOrSwitched(w0, w0, n, to)
    requires InstanceContainer(n) !in w1.containers && InstanceContainer(n) != UpgradeContainer(n, to)
    requires k.volumes == {VolumeOf(n, w0.states[n]), VersionedVolume(n, to)}
    requires w == w1 || (UpgradeContainer(n, to) !in w1.containers && w == WithContainer(w1, UpgradeContainer(n, to), k))
    requires faults.Never? && UpgradeContainer(n, to) !in w1.containers ==> created
    requires created ==> w != w1
    ensures Preparing(w0, w, n, to) && OldOrSwitched(w0, w, n, to) && InstanceContainer(n) !in w.containers
    ensures !created && Taken(w1, n, to) ==> TakenAfter(faults, w1, w, n, to)
    ensures created ==>
      && UpgradeContainer(n, to) in w.containers
      && VolumeOf(n, w0.states[n]) in w.volumes && VersionedVolume(n, to) in w.volumes
    ensures Taken(w1, n, to) ==> w.volumes[VersionedVolume(n, to)] == w1.volumes[VersionedVolume(n, to)]
  {
    hide InstanceContainer, UpgradeContainer, DataVolume, VersionedVolume, Safe, OldOrSwitched, Frame, Kept;
    PreparingSteps(w0, w1, w, n, to, k.volumes);
  }

  lemma TakenThrough(faults: Faults, w1: Host, w2: Host, w: Host, n: string, to: nat, k: Container)
    requires UpgradeContainer(n, to) !in w1.containers && w2 == WithContainer(w1, UpgradeContainer(n, to), k)
    requires Taken(w2, n, to) ==> LeftOrGone(w2, w, n, to)
    requires Taken(w2, n, to) && faults.Never? ==>
      (VersionedVolume(n, to) in w.volumes <==> !OnlyUser(w2, UpgradeContainer(n, to), VersionedVolume(n, to)))
    ensures Taken(w1, n, to) ==> Taken(w2, n, to) && TakenAfter(faults, w1, w, n, to)
  {
    hide UpgradeContainer, VersionedVolume;
    var uc, newVolume := UpgradeContainer(n, to), VersionedVolume(n, to);
    assert forall c | c in w1.containers :: c in w2.containers && w2.containers[c] == w1.containers[c] && c != uc;
    assert OnlyUser(w2, uc, newVolume) <==> Unmounted(w1, newVolume);
  }

  /** The one-shot container runs and is cleaned up after. */
  method RunConversion(m: Machine, ghost w0: Host, n: string, to: nat) returns (ok: bool)
    requires m.Valid() && n in w0.states && to > w0.states[n].pgVersion
    requires m.unclashed ==> UpgradeFree(w0, n, to)
    requires Preparing(w0, m.w, n, to) && OldOrSwitched(w0, w0, n, to)
    requires InstanceContainer(n) !in m.w.containers && UpgradeContainer(n, to) in m.w.containers
    requires VolumeOf(n, w0.states[n]) in m.w.volumes && VersionedVolume(n, to) in m.w.volumes
    modifies m`w, m`history
    ensures m.Valid() && old(m.history) <= m.history
    ensures Preparing(w0, m.w, n, to) && OldOrSwitched(w0, m.w, n, to)
    ensures InstanceContainer(n) !in m.w.containers
    ensures ok ==> Converted(w0, m.w, n, to)
    ensures m.faults.Never? && old(m.w).volumes[VersionedVolume(n, to)].Blank? ==>
      RunsOn(old(m.w).volumes[VolumeOf(n, w0.states[n])], w0.states[n].pgVersion) ==> ok
    ensures Taken(old(m.w), n, to) ==> !ok && LeftOrGone(old(m.w), m.w, n, to)
    ensures Taken(old(m.w), n, to) && m.faults.Never? ==>
      (VersionedVolume(n, to) in m.w.volumes <==> !OnlyUser(old(m.w), UpgradeContainer(n, to), VersionedVolume(n, to)))
  {
    hide InstanceContainer, UpgradeContainer, DataVolume, VersionedVolume, Safe, Sealed, Frame, Kept, OldOrSwitched;
    hide OnlyUser, UpgradeFree;
    StartingPoint(w0, n, to);
    FreeUnneeded(w0, m.w, n, to);
    ghost var w1 := m.w;
    var i := m.w.states[n];
    var exitCode: int;
    ok, exitCode := RunScript(m, UpgradeContainer(n, to), VolumeOf(n, i), VersionedVolume(n, to), i.pgVersion, to);
    ScriptSteps(w0, w1, m.w, n, to);
    ConvertedBy(w0, w1, m.w, n, to, ok && exitCode == 0);
    if !ok { return; }
    ghost var w2 := m.w;
    ok := CleanUp(m, w0, n, to, exitCode);
    SameUsers(w1, w2, n, to);
  }

  lemma FreeUnneeded(w0: Host, w: Host, n: string, to: nat)
    requires w.states == w0.states
    ensures UpgradeFree(w0, n, to) ==> Unneeded(w, VersionedVolume(n, to))
  {
    hide InstanceContainer, UpgradeContainer, VersionedVolume;
  }

  lemma ScriptSteps(w0: Host, w1: Host, w: Host, n: string, to: nat)
    requires n in w0.states && to > w0.states[n].pgVersion
    requires Preparing(w0, w1, n, to) && OldOrSwitched(w0, w0, n, to) && InstanceContainer(n) !in w1.containers
    requires w == w1.(containers := w.containers, volumes := w.volumes)
    requires w.containers - {UpgradeContainer(n, to)} == w1.containers - {UpgradeContainer(n, to)}
    requires w.volumes - {VersionedVolume(n, to)} == w1.volumes - {VersionedVolume(n, to)}
    ensures Preparing(w0, w, n, to) && OldOrSwitched(w0, w, n, to) && InstanceContainer(n) !in w.containers
  {
    hide InstanceContainer, UpgradeContainer, DataVolume, VersionedVolume, Safe, OldOrSwitched, Frame, Kept;
    StartingPoint(w0, n, to);
    var o := VolumeOf(n, w0.states[n]);
    if o != VersionedVolume(n, to) {
      SameOutside(w1.volumes, w.volumes, {VersionedVolume(n, to)}, o);
    }
    SameOutside(w1.containers, w.containers, {UpgradeContainer(n, to)}, InstanceContainer(n));
    PreparingSteps(w0, w1, w, n, to, {VersionedVolume(n, to)});
  }

  lemma ConvertedBy(w0: Host, w1: Host, w: Host, n: string, to: nat, done: bool)
    requires n in w0.states && Preparing(w0, w1, n, to) && OldOrSwitched(w0, w0, n, to)
    requires VolumeOf(n, w0.states[n]) in w1.volumes && VersionedVolume(n, to) in w.volumes
    requires done ==> var data := w1.volumes[VolumeOf(n, w0.states[n])];
      data.Cluster? && w.volumes[VersionedVolume(n, to)] == Cluster(to, data.content)
    ensures done ==> Converted(w0, w, n, to)
  {
    hide Safe;
  }

  lemma SameUsers(w1: Host, w2: Host, n: string, to: nat)
    requires w1.containers - {UpgradeContainer(n, to)} == w2.containers - {UpgradeContainer(n, to)}
    ensures OnlyUser(w1, UpgradeContainer(n, to), VersionedVolume(n, to)) == OnlyUser(w2, UpgradeContainer(n, to), VersionedVolume(n, to))
    ensures UpgradeContainer(n, to) !in w2.containers ==>
      (Unmounted(w2, VersionedVolume(n, to)) <==> OnlyUser(w1, UpgradeContainer(n, to), VersionedVolume(n, to)))
  {
    hide UpgradeContainer, VersionedVolume;
    var uc := UpgradeContainer(n, to);
    assert forall c | c in w1.containers && c != uc :: c in w1.containers - {uc} && (w1.containers - {uc})[c] == w1.containers[c];
    assert forall c | c in w2.containers && c != uc :: c in w2.containers - {uc} && (w2.containers - {uc})[c] == w2.containers[c];
  }

  /** Removes the one-shot container, and after a failure the new volume; without faults the
      container is gone, and the volume is unless another container mounts it. */
  method CleanUp(m: Machine, ghost w0: Host, n: string, to: nat, exitCode: int) returns (ok: bool)
    requires m.Valid() && n in w0.states && to > w0.states[n].pgVersion
    requires m.unclashed ==> Unneeded(m.w, VersionedVolume(n, to))
    requires Preparing(w0, m.w, n, to) && OldOrSwitched(w0, w0, n, to)
    requires InstanceContainer(n) !in m.w.containers && UpgradeContainer(n, to) in m.w.containers
    modifies m`w, m`history
    ensures m.Valid() && old(m.history) <= m.history
    ensures Preparing(w0, m.w, n, to) && OldOrSwitched(w0, m.w, n, to)
    ensures InstanceContainer(n) !in m.w.containers
    ensures ok == (exitCode == 0)
    ensures m.w.volumes == old(m.w).volumes || (!ok && m.w.volumes == old(m.w).volumes - {VersionedVolume(n, to)})
    ensures m.faults.Never? ==> UpgradeContainer(n, to) !in m.w.containers
    ensures m.faults.Never? && !ok ==>
      (VersionedVolume(n, to) in m.w.volumes <==>
        VersionedVolume(n, to) in old(m.w).volumes && !OnlyUser(old(m.w), UpgradeContainer(n, to), VersionedVolume(n, to)))
  {
    hide InstanceContainer, UpgradeContainer, DataVolume, VersionedVolume, Safe, Sealed, Kept, Frame, OldOrSwitched;
    var uc, newVolume := UpgradeContainer(n, to), VersionedVolume(n, to);
    ghost var w1 := m.w;
    var _ := m.RemoveContainer(uc);
    ScriptSteps(w0, w1, m.w, n, to);
    ok := exitCode == 0;
    if !ok {
      ghost var w2 := m.w;
      SameUsers(w1, w2, n, to);
      assert m.InUse(newVolume) <==> !Unmounted(m.w, newVolume);
      var _ := m.RemoveVolume(newVolume);                              // rollback
      assert m.w.volumes - {newVolume} == w2.volumes - {newVolume};
      ScriptSteps(w0, w2, m.w, n, to);
    }
  }

  /** Persists the switch, then recreates the regular container on the new volume. */
  method SwitchAndServe(m: Machine, ghost w0: Host, n: string, to: nat, s3: bool) returns (ok: bool)
    requires m.Valid() && n in w0.states && to > w0.states[n].pgVersion
    requires m.unclashed ==> UpgradeFree(w0, n, to)
    requires Preparing(w0, m.w, n, to) && OldOrSwitched(w0, m.w, n, to)
    requires InstanceContainer(n) !in m.w.containers && Converted(w0, m.w, n, to)
    modifies m`w, m`history
    ensures m.Valid() && old(m.history) <= m.history
    ensures Kept(w0, m.w, n, to) && OldOrSwitched(w0, m.w, n, to)
    ensures ok ==> m.w.states[n] == Switched(n, w0.states[n], to) && Serving(m.w, n)
    ensures m.faults.Never? && (w0.states[n].backupEnabled ==> s3) ==> ok
  {
    ghost var w1 := m.w;
    var i := Switched(n, m.w.states[n], to);
    SwitchFits(m.w, n, to);
    SameFree(w0, m.w, n, to);
    hide InstanceContainer, UpgradeContainer, DataVolume, VersionedVolume, Safe, Sealed, Frame, UpgradeFree;
    StateChangeKeeps(m.w, n, i);
    hide Fitting;
    ok := m.Call(m.w.(states := m.w.states[n := i]));                  // update_under
    CallFrames(w1, m.w, n, InstanceContainer(n), {});
    KeptSteps(w0, w1, m.w, n, to, {InstanceContainer(n)}, {});
    if !ok { return; }
    ghost var w2 := m.w;
    ok := Recreate(m, n, s3);
    KeptSteps(w0, w2, m.w, n, to, {InstanceContainer(n)}, {VersionedVolume(n, to)});
  }

  lemma SameFree(w0: Host, w: Host, n: string, to: nat)
    requires w.states == w0.states
    ensures UpgradeFree(w0, n, to) == UpgradeFree(w, n, to)
  {
  }

  lemma SwitchFits(w: Host, n: string, to: nat)
    requires n in w.states && InstanceContainer(n) !in w.containers
    requires VersionedVolume(n, to) in w.volumes && RunsOn(w.volumes[VersionedVolume(n, to)], to)
    ensures Safe(w) && UpgradeFree(w, n, to) ==> Fitting(w, n, Switched(n, w.states[n], to))
  {
    hide InstanceContainer, DataVolume, VersionedVolume;
  }
}
