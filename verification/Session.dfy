/** Any number of lifecycle commands, one after the other, on a host where every call may fail. */
module Session {
  import opened Text
  import opened Naming
  import opened World
  import opened Engine
  import opened RotateCommand
  import opened UpgradeCommand
  import opened Provision
  import opened DestroyCommand

  /** Each command finds its own S3 setting, port range and free ports. */
  datatype Command =
    | DoCreate(name: string, version: nat, noBackup: bool, passwordGiven: bool, settings: Settings)
    | DoClone(source: string, name: string, files: set<string>, settings: Settings)
    | DoRestore(source: string, name: string, targetValid: bool, files: set<string>, version: nat, content: int,
                settings: Settings)
    | DoRotate(name: string, s3: bool)
    | DoUpgrade(name: string, to: nat, s3: bool)
    | DoDestroy(name: string, deleteBackups: bool)
    | ContainerEvent(container: string, running: bool)      // a crash, a restart, an operator's start or stop
  {
    predicate Provisions() {
      DoCreate? || DoClone? || DoRestore?
    }
  }

  /** The command would use a volume or a container name that belongs to another record. */
  predicate Clashes(w: Host, c: Command) {
    || (c.Provisions() && c.name !in w.states && !VolumeFree(w, DataVolume(c.name)))
    || (c.DoUpgrade? && c.name in w.states && c.to > w.states[c.name].pgVersion && !UpgradeFree(w, c.name, c.to))
  }

  /** The command would write configuration files that an unrecorded container mounts. Create
      looks for the container first; clone and restore do not. */
  predicate Overwrites(w: Host, c: Command) {
    (c.DoClone? || c.DoRestore?) && c.name !in w.states && Mounted(w, c.name)
  }

  method Execute(m: Machine, command: Command)
    requires m.Valid()
    modifies m
    ensures m.Valid() && old(m.history) <= m.history
    ensures m.unclashed ==> old(m.unclashed)
    ensures old(m.unclashed) && !Clashes(old(m.w), command) ==> m.unclashed
    ensures old(m.unmixed) && !Overwrites(old(m.w), command) ==> m.unmixed
    ensures m.unclashed ==> command.ContainerEvent? || OnlyTouches(old(m.w), m.w, command.name)
    ensures forall n | n in m.w.states :: n in old(m.w).states || (command.Provisions() && n == command.name)
  {
    hide InstanceContainer, UpgradeContainer, DataVolume, VersionedVolume, Safe, Sealed, Frame, OnlyTouches, VolumeFree;
    hide UpgradeFree, Mounted, RestoredIff, DataSurvivesIff, UpWith, Chosen, Reverted, Serving, OldOrSwitched, HasPort;
    ghost var w0 := m.w;
    NothingTouched(w0);
    match command
    case DoCreate(n, version, noBackup, passwordGiven, settings) =>
      var _ := Create(m, n, version, noBackup, passwordGiven, settings);
      ProvisionTouchesNoOther(w0, m.w, n);
    case DoClone(source, n, files, settings) =>
      var _ := Clone(m, source, n, files, settings);
      ProvisionTouchesNoOther(w0, m.w, n);
    case DoRestore(source, n, targetValid, files, version, content, settings) =>
      var _ := Restore(m, source, n, targetValid, files, version, content, settings);
      ProvisionTouchesNoOther(w0, m.w, n);
    case DoRotate(n, s3) =>
      var _ := Rotate(m, n, s3);
      OwnTouchesNoOther(w0, m.w, n);
    case DoUpgrade(n, to, s3) =>
      var _ := Upgrade(m, n, to, s3);
      UpgradeTouchesNoOther(w0, m.w, n, to);
    case DoDestroy(n, deleteBackups) =>
      var _ := Destroy(m, n, deleteBackups);
      SameNames(w0, m.w, n);
      OwnTouchesNoOther(w0, m.w, n);
    case ContainerEvent(c, running) =>
      if c in m.w.containers {
        m.SetRunning(c, running);
      }
  }

  lemma NothingTouched(w: Host)
    ensures forall n :: OnlyTouches(w, w, n)
  {
  }

  lemma ProvisionTouchesNoOther(w: Host, v: Host, n: string)
    ensures v == w || (VolumeFree(w, DataVolume(n)) && Frame(w, v, n, {InstanceContainer(n)}, {DataVolume(n)})) ==>
      OnlyTouches(w, v, n)
    ensures n !in w.states && Frame(w, v, n, {InstanceContainer(n)}, {DataVolume(n)}) ==>
      forall m | m in v.states :: m in w.states || m == n
  {
    hide InstanceContainer, DataVolume, VersionedVolume;
    if v == w {
      NothingTouched(w);
    } else if Frame(w, v, n, {InstanceContainer(n)}, {DataVolume(n)}) {
      SameNames(w, v, n);
      if VolumeFree(w, DataVolume(n)) {
        OtherContainers(w, n);
        FrameTouchesNoOther(w, v, n, {InstanceContainer(n)}, {DataVolume(n)});
      }
    }
  }

  lemma SameNames(w: Host, v: Host, n: string)
    requires v.states - {n} == w.states - {n}
    ensures forall m | m in v.states :: m in w.states || m == n
  {
    forall m | m in v.states && m != n
      ensures m in w.states
    {
      assert m in v.states - {n};
    }
  }

  lemma OtherContainers(w: Host, n: string)
    ensures forall m | m in w.states && m != n :: InstanceContainer(m) != InstanceContainer(n)
  {
    forall m | m in w.states && m != n
      ensures InstanceContainer(m) != InstanceContainer(n)
    {
      if InstanceContainer(m) == InstanceContainer(n) {
        InstanceContainerInjective(m, n);
      }
    }
  }

  lemma OwnTouchesNoOther(w: Host, v: Host, n: string)
    ensures Safe(w) && (v == w || (n in w.states && Frame(w, v, n, {InstanceContainer(n)}, {VolumeOf(n, w.states[n])}))) ==>
      OnlyTouches(w, v, n)
  {
    hide InstanceContainer, DataVolume, VersionedVolume;
    if v == w {
      NothingTouched(w);
    } else if Safe(w) && n in w.states && Frame(w, v, n, {InstanceContainer(n)}, {VolumeOf(n, w.states[n])}) {
      OtherContainers(w, n);
      assert forall m | m in w.states && m != n :: VolumeOf(m, w.states[m]) != VolumeOf(n, w.states[n]);
      FrameTouchesNoOther(w, v, n, {InstanceContainer(n)}, {VolumeOf(n, w.states[n])});
    }
  }

  lemma UpgradeTouchesNoOther(w: Host, v: Host, n: string, to: nat)
    ensures Safe(w) && (v == w || (n in w.states && UpgradeFree(w, n, to) && Kept(w, v, n, to))) ==>
      OnlyTouches(w, v, n)
    ensures v == w || (n in w.states && Kept(w, v, n, to)) ==> forall m | m in v.states :: m in w.states
  {
    hide InstanceContainer, UpgradeContainer, DataVolume, VersionedVolume;
    if v == w {
      NothingTouched(w);
    } else if n in w.states && Kept(w, v, n, to) {
      SameNames(w, v, n);
      if Safe(w) && UpgradeFree(w, n, to) {
        OtherContainers(w, n);
        var cs, vs := {InstanceContainer(n), UpgradeContainer(n, to)}, {VolumeOf(n, w.states[n]), VersionedVolume(n, to)};
        assert forall m | m in w.states && m != n :: VolumeOf(m, w.states[m]) != VolumeOf(n, w.states[n]);
        FrameTouchesNoOther(w, v, n, cs, vs);
      }
    }
  }

  // ---------- Whole sessions ----------

  /** Where each command started in the history, in order, and where the last one ended. */
  ghost predicate Marks(history: seq<Host>, marks: seq<nat>, commands: seq<Command>) {
    && |marks| == |commands| + 1 && marks[|commands|] == |history| - 1
    && (forall k | 0 <= k < |marks| :: marks[k] < |history|)
    && (forall j, k | 0 <= j < k < |marks| :: marks[j] <= marks[k])
  }

  /** No command clashed on the host it found. */
  ghost predicate NeverClashes(history: seq<Host>, marks: seq<nat>, commands: seq<Command>) {
    Marks(history, marks, commands) && forall k | 0 <= k < |commands| :: !Clashes(history[marks[k]], commands[k])
  }

  ghost predicate NeverOverwrites(history: seq<Host>, marks: seq<nat>, commands: seq<Command>) {
    Marks(history, marks, commands) && forall k | 0 <= k < |commands| :: !Overwrites(history[marks[k]], commands[k])
  }

  /** One more command, ending where the history now ends. */
  lemma OneMore(history: seq<Host>, longer: seq<Host>, marks: seq<nat>, commands: seq<Command>, c: Command)
    requires Marks(history, marks, commands) && history <= longer
    ensures Marks(longer, marks + [|longer| - 1], commands + [c])
    ensures NeverClashes(longer, marks + [|longer| - 1], commands + [c]) <==>
      NeverClashes(history, marks, commands) && !Clashes(history[|history| - 1], c)
    ensures NeverOverwrites(longer, marks + [|longer| - 1], commands + [c]) <==>
      NeverOverwrites(history, marks, commands) && !Overwrites(history[|history| - 1], c)
  {
    hide Clashes, Overwrites;
    var all, ends := commands + [c], marks + [|longer| - 1];
    assert ends[|commands|] == |history| - 1 && all[|commands|] == c;
    assert forall k | 0 <= k < |commands| :: all[k] == commands[k] && longer[ends[k]] == history[marks[k]];
  }

  /** Every name ever recorded is one that no upgrade can make. */
  predicate PlainNames(w: Host, commands: seq<Command>) {
    && (forall n | n in w.states :: Plain(n))
    && (forall k | 0 <= k < |commands| && commands[k].Provisions() :: Plain(commands[k].name))
  }

  lemma PlainNeverClashes(w: Host, c: Command)
    requires Safe(w) && (forall n | n in w.states :: Plain(n)) && (c.Provisions() ==> Plain(c.name))
    ensures !Clashes(w, c)
  {
    hide Plain, UpgradeFree, VolumeFree, DataVolume;
    if c.Provisions() {
      PlainNamesNeverClash(w, c.name, 0);
    }
    if c.DoUpgrade? {
      PlainNamesNeverClash(w, c.name, c.to);
    }
  }

  /** At every point, each recorded instance that no destroy has begun on is one fault-free
      rotate away from service, with the data it has. */
  ghost predicate Recoverable(w: Host) {
    forall n | n in w.states && n !in w.halfDestroyed ::
      Serving(Rotated(w, n), n) && Rotated(w, n).states == w.states && Rotated(w, n).volumes == w.volumes
  }

  lemma SafeIsRecoverable(w: Host)
    requires Safe(w)
    ensures Recoverable(w)
  {
    hide Rotated, Serving, Safe;
    forall n | n in w.states && n !in w.halfDestroyed
      ensures Serving(Rotated(w, n), n) && Rotated(w, n).states == w.states && Rotated(w, n).volumes == w.volumes
    {
      RecordedHasData(w, n);
      RotatedServes(w, n);
    }
  }

  /** Main result: after any commands with any faults, at every point on the way: as long as
      no command clashed, the host is safe (overrides, recorded data, attachments, archiving
      of recorded instances, ports) and recoverable; as long as none wrote under an
      unrecorded container, no container archives into another's repository. */
  method RunSession(m: Machine, commands: seq<Command>) returns (ghost marks: seq<nat>)
    requires m.Valid() && m.unclashed && m.unmixed
    modifies m
    ensures m.Valid() && old(m.history) <= m.history
    ensures Marks(m.history, marks, commands) && marks[0] == |old(m.history)| - 1
    ensures NeverClashes(m.history, marks, commands) ==>
      forall k | 0 <= k < |m.history| :: Safe(m.history[k]) && Recoverable(m.history[k])
    ensures NeverOverwrites(m.history, marks, commands) ==> forall k | 0 <= k < |m.history| :: Sealed(m.history[k])
    ensures PlainNames(old(m.w), commands) ==> NeverClashes(m.history, marks, commands)
  {
    hide Safe, Sealed, Plain, OnlyTouches, Clashes, Overwrites, NeverClashes, NeverOverwrites, Recoverable;
    marks := [|m.history| - 1];
    NothingYet(m.history, marks);
    for k := 0 to |commands|
      invariant m.Valid() && old(m.history) <= m.history
      invariant Marks(m.history, marks, commands[..k]) && marks[0] == |old(m.history)| - 1
      invariant NeverClashes(m.history, marks, commands[..k]) ==> m.unclashed
      invariant NeverOverwrites(m.history, marks, commands[..k]) ==> m.unmixed
      invariant PlainNames(old(m.w), commands) ==>
        NeverClashes(m.history, marks, commands[..k]) && forall n | n in m.w.states :: Plain(n)
    {
      ghost var before := m.history;
      if PlainNames(old(m.w), commands) {
        PlainNeverClashes(m.w, commands[k]);
      }
      Execute(m, commands[k]);
      OneMore(before, m.history, marks, commands[..k], commands[k]);
      marks := marks + [|m.history| - 1];
      assert commands[..k + 1] == commands[..k] + [commands[k]];
    }
    assert commands[..|commands|] == commands;
    forall k | 0 <= k < |m.history| && Safe(m.history[k])
      ensures Recoverable(m.history[k])
    {
      SafeIsRecoverable(m.history[k]);
    }
  }

  lemma NothingYet(history: seq<Host>, marks: seq<nat>)
    requires history != [] && marks == [|history| - 1]
    ensures NeverClashes(history, marks, []) && NeverOverwrites(history, marks, [])
  {
  }

  /** Main result: a rotate without faults turns any safe host into exactly the one that
      serves the instance, with the data it had. By `RunSession` every host of a session
      without clashes, faults and all, is one to which this applies. */
  method Recover(before: Host, n: string, s3: bool) returns (recovered: bool, after: Host)
    requires Safe(before) && n in before.states && n !in before.halfDestroyed
    requires before.states[n].backupEnabled ==> s3
    ensures recovered && after == Rotated(before, n)
    ensures Serving(after, n) && after.states == before.states && after.volumes == before.volumes
  {
    hide Sealed;
    RecordedHasData(before, n);
    RotatedServes(before, n);
    hide Safe, Rotated, Serving;
    var m := new Machine(before, Never);
    recovered := Rotate(m, n, s3);
    after := m.w;
  }

  /** The two together: a session with faults, then a rotate without, on the host it left. */
  method RecoverAfterSession(m: Machine, commands: seq<Command>, n: string)
    returns (recovered: bool, after: Host, ghost marks: seq<nat>)
    requires m.Valid() && m.unclashed && m.unmixed
    modifies m
    ensures m.Valid() && old(m.history) <= m.history
    ensures Marks(m.history, marks, commands) && marks[0] == |old(m.history)| - 1
    ensures NeverClashes(m.history, marks, commands) && n in m.w.states && n !in m.w.halfDestroyed ==>
      recovered && after == Rotated(m.w, n) && Serving(after, n) && after.volumes == m.w.volumes
  {
    hide Safe, Sealed, Plain, Rotated, Serving, NeverClashes, NeverOverwrites, Clashes;
    marks := RunSession(m, commands);
    var sound := new Machine(m.w, Never);
    if n in m.w.states && n !in m.w.halfDestroyed {
      RecordedHasData(m.w, n);
      if Safe(m.w) { RotatedServes(m.w, n); }
    }
    recovered := Rotate(sound, n, true);
    after := sound.w;
  }
}
