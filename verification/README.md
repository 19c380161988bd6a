# pgforge, modelled and proved

pgforge runs Postgres instances in Docker containers on one host. This project models the
parts of it that are protocols, state machines or arithmetic, and proves what they keep.

- **Lifecycle** (`Naming`, `World`, `Engine`, `RotateCommand`, `UpgradeCommand`, `Ports`, `Provision`,
  `DestroyCommand`, `Session`, `Hazards`). A host has containers, volumes, configuration directories,
  state records and backup repositories. The commands are methods of ordered calls; on a faulty
  machine any call may fail, with or without having taken effect. A server reads its mounted
  configuration at every start. Two invariants are proved of every state the host passes through:
  - `World.Safe`, as long as no two names clash: the volume override is absent or names the volume of
    the recorded version, no two instances share a volume, the recorded volume holds data of the
    recorded version, a recorded instance's container and its files on disk agree with the record (so
    it archives exactly when backups are on, into its own repository), and host ports differ.
  - `World.Sealed`, as long as no clone or restore writes under an unrecorded container: no container
    archives, or would after a restart, into another instance's repository.
  Every host of a session without clashes is one fault-free rotate away from serving each recorded
  instance. `Hazards` runs the commands into what the conditions exclude, and says what it costs.
- **State files** (`Disk`, `SnapshotCommit`, `Store`). `Disk` is a directory that may lose power:
  unsynced bytes and unsynced directory changes may each be lost. `Store` interleaves any number of
  processes that load, change and save under the state-root lock, or die.
- **Scheduler** (`Scheduler`). Ticks over a nondecreasing clock with an arbitrary nondecreasing local
  date, manual snapshots at any time in between.
- **Dashboard** (`Dashboard`, `Ops`, `TextField`). The terminal interface's state and event loop, the
  string form of queued operations, and the UTF-8 text field.
- **Time** (`Calendar`, `Timestamp`, `Pitr`, `Dumps`). The calendar algorithm against a recursive
  Gregorian definition, timestamps in the form of section 5.6 of RFC 3339, the recovery window, and
  dump retention.
- **Containers** (`Entrypoints`, `Wait`). The clone and restore scripts under crashes and restarts,
  and the polling loops.

Code that changes things in steps is a class or a method with loops, proved against a specification;
code made of expressions is functions and lemmas. `Text` holds string helpers.

Assumptions about the outside: `create_container` fails on a duplicate name, removing an absent
volume succeeds, and an absent container is not running (src/docker/bollard_engine.rs:191-294,
326-340, 579-591); Docker refuses to remove a volume that a container mounts, and mounts the file a
bind names anew at each container start. Lifecycle commands run one after the other. The directory a
state file lives in is already durable.

## What the proofs turned up

- Names clash for exactly these cases: a new name `<m>_v<version of m>` for an upgraded `m`, and an
  upgrade of `n` to `v` while `<n>_v<v>` is recorded on its first volume or `upgrade_<n>_v<v>` is
  recorded (`World.NewVolumeFreeIff`, `World.UpgradeFreeIff`). A create under such a name that is rolled
  back takes the other instance's data with it when that instance's container is absent
  (`Hazards.LoseDataByName`); every rollback spares the recorded data exactly otherwise
  (`Provision.Provide`).
- An upgrade of `n` to `v` needs no fault to lose data: while `<n>_v<v>` is recorded on its first
  volume and no container mounts that volume, the conversion stops on the data it finds and the upgrade
  then removes the volume (`Hazards.LoseDataByUpgrade`). That is all a clash of an upgrade can cost: a
  mounted volume, or only the one-shot container's name taken, costs no recorded data
  (`UpgradeCommand.Upgrade`, `UpgradeCommand.NeededIff`, `Hazards.ClashWithoutLoss`).
- `dump --keep` looks for files that start with `<name>-`, so it also finds the dumps of an instance
  whose name goes on after that dash. It removes the named instance's oldest dumps and nothing else
  exactly when it removes nothing or no other file matches (`Dumps.RetentionIff`); otherwise it can
  remove the dump just taken (`Dumps.LoseOwnDump`).
- Clone and restore write the configuration before they find a container name taken; create looks
  first. Under a container left by an unsaved create they can turn archiving on with the source's
  repository, and the next start archives there (`Hazards.MisdirectOrphan`,
  `Hazards.MisdirectAfterUnsavedCreate`). Without such a write no container ever does
  (`Session.RunSession`). Recorded instances are never affected.
- A rollback restores the earlier host exactly when no leftover volume or configuration directory of
  that name was there (`Provision.Provide`).
- A destroy removes the recorded volume only. After an upgrade the first volume stays, so upgrade,
  destroy and create of one name meet a leftover: the hypothesis of the clean rollback and of the
  exact clone then fails (`DestroyCommand.Destroy`, `Hazards.UpgradeThenDestroy`).
- The entrypoint scripts are safe exactly when the copied data holds no marker of the same kind. A
  clone's data holds the clone marker and a restored instance's backup may hold the restore marker,
  so a crash and a restart while cloning a clone can boot a partial copy (`Entrypoints.SafeIff`). A
  single start never does (`Entrypoints.SingleStartIsHonest`).
- A reader that reads the snapshot list before the state may be told of a success its list lacks; in
  the other order it never is (`Store.OtherReadingOrderFails`, `Store.ReaderFindsItsSuccess`).
- A load-change-save may report an error although its change is in place: exactly when it failed past
  its save, as when only the last sync fails (`Store.ErrorHidesSaveIff`, `Store.ErrorMayHideSave`).
- A destroy that fails after its volume removal leaves a record without data
  (`Hazards.HalfDestroy`); such instances are exactly the `halfDestroyed` ones that the recovery
  results exclude (`DestroyCommand.Destroy`).
- A scheduled failure in the same second as a success does not read as failing
  (`Scheduler.FailingIff` says "later second").
- The calendar's 32-bit year and the four-digit timestamp each have an exact range
  (`Calendar.CivilFromDaysIsGregorian`, `Timestamp.RangeIsFourDigitYears`, `Timestamp.IsoOrderFailsOutside`).
- In the schedule editor right and left undo each other exactly while the hour shown is one of the day;
  a larger one read from a state file does not come back (`Dashboard.AppState.ArrowsUndoIff`).
- The comment above the restore picker's cap says "we don't cap" without recovery data; the code caps
  at the uptime, or at 0 (src/tui/app.rs:925-954). The model follows the code.

## Model

| member | source | states |
|---|---|---|
| World.VolumesDistinct | src/domain/instance.rs:84-88 | two recorded instances with names that do not end in `_v<digits>` never share a volume |
| World.ArchivingReposDistinct | src/pgbackrest/conf.rs:20-42 | no two running containers archive into one repository, where each archives into its own |
| World.NewVolumeFreeIff | src/domain/instance.rs:84-88 | a new name's volume belongs to no record exactly when it is not `<m>_v<version>` of an upgraded m |
| World.UpgradeFreeIff | src/commands/upgrade.rs:86-86 | an upgrade's volume and container belong to no record exactly when neither of the two clashing names is recorded |
| World.PlainNamesNeverClash | src/commands/upgrade.rs:86-86 | names that do not end in `_v<digits>` never clash |
| World.RunningKeeps | src/commands/restore.rs:98-122 | a start or stop, reading the files mounted now, keeps both invariants |
| World.ConfKeeps | src/commands/clone.rs:104-122 | rewriting a configuration keeps both while no container of the name mounts it |
| World.FrameTouchesNoOther | src/commands/destroy.rs:46-131 | a command that keeps to its own containers and volumes leaves every other instance's record, data, container, configuration and repository alone |
| Naming.VersionedVolumeInjective | src/commands/upgrade.rs:86-86 | an upgraded volume's name determines instance and version |
| Naming.VolumeCollision | src/domain/instance.rs:84-88 | a first volume and an upgraded volume have the same name exactly for the name `<m>_v<version>` |
| Naming.PlainAvoidsUpgrades | src/commands/upgrade.rs:137-137 | other names collide with no upgrade's volume or container |
| Engine.Machine.StopAndRemove | src/commands/upgrade.rs:116-121 | stop if running, remove if present: the container is gone on Ok, nothing else changes, the host stays safe |
| Engine.Machine.RemoveVolume | src/docker/bollard_engine.rs:579-591 | refused while a container mounts the volume; otherwise the volume is gone, and no recorded data with it |
| Engine.Machine.CreateContainer | src/docker/bollard_engine.rs:191-294 | fails on a taken name; else creates the container and its missing volumes, or nothing if the call fails |
| Engine.Machine.WriteConfigs | src/commands/rotate.rs:88-121 | writes only the instance's own configuration, with the archive flag and repository asked for |
| Engine.Machine.StartServer | src/docker/bollard_engine.rs:296-301 | starting reads the mounted configuration, initialises only an empty volume, leaves other data alone, and serves data of its own version |
| RotateCommand.Recreate | src/commands/upgrade.rs:227-358 | writes only its own configuration, attaches the recorded volume, serves the instance on Ok, and succeeds without faults |
| RotateCommand.Launch | src/commands/rotate.rs:126-205 | the created container has the recorded volume, version and repository, and no data is touched |
| RotateCommand.RotatedServes | src/commands/rotate.rs:62-73 | wherever the recorded data is there, the host a fault-free rotate leads to serves the instance, with records, data and repositories as they were |
| RotateCommand.Rotate | src/commands/rotate.rs:51-229 | never changes records, repositories or data; Ok means the instance runs on its recorded volume and version; without faults it is Ok and the host is exactly that one |
| UpgradeCommand.RunScript | src/commands/upgrade.rs:180-184 | also when the start is reported as failed the script may have run; exit code 0 means the new volume is a complete copy in the new version; the old volume is untouched |
| UpgradeCommand.Convert | src/commands/upgrade.rs:135-205 | whatever fails, the record and the old volume are as before; on Ok the new volume holds the same content |
| UpgradeCommand.RunConversion | src/commands/upgrade.rs:180-205 | a new volume that was not empty is never taken for a copy: the conversion fails, and the volume is left as it was or removed |
| UpgradeCommand.CleanUp | src/commands/upgrade.rs:186-205 | never the recorded data; without faults the one-shot container is gone, and after a failure the new volume too, unless another container mounts it |
| UpgradeCommand.NeededIff | src/commands/upgrade.rs:86-86 | the new volume is a recorded instance's exactly when `<n>_v<to>` is recorded on its first volume |
| UpgradeCommand.SparedIff | src/commands/upgrade.rs:186-205 | wherever an upgrade stops, every recorded instance still has its data exactly when the new volume was nobody's or is still there |
| UpgradeCommand.SwitchAndServe | src/commands/upgrade.rs:207-221 | switching the record keeps the data reachable wherever it stops; Ok means switched and serving |
| UpgradeCommand.Upgrade | src/commands/upgrade.rs:66-221 | at every fault point the record is the old one or the switched one on the same content, and the old volume survives; a refused version changes nothing; Ok means switched and serving; without faults it is Ok; other instances' data is lost exactly when the new volume was another's and is gone, without faults exactly when it was and nothing kept it from being removed |
| Ports.AllocatePort | src/ports.rs:23-38 | the first port of the range that is neither taken nor in use, or none if there is none |
| Provision.CleanupPartial | src/docker/cleanup.rs:10-37 | three independent removals that touch only the name's own container, volume and configuration, and all succeed without faults if no other container mounts the volume |
| Provision.Bootstrap | src/commands/create.rs:279-370 | on Ok the container runs on data of its version and the stanza exists; on failure only the name's own things changed |
| Provision.StartCopy | src/docker/clone_entrypoint.rs:35-51 | one run of the entrypoint script: on an empty volume the server comes up only on a complete copy |
| Provision.Record | src/commands/create.rs:262-273 | the record of a running new instance is written or nothing changes |
| Provision.Install | src/commands/create.rs:200-273 | a duplicate container name changes nothing; otherwise it is up as specified, or rolled back |
| Provision.Provide | src/commands/create.rs:119-273 | by outcome: refused without a record, rolled back, unsaved, or recorded and serving on a new port of the range that no one had; a clean rollback is the earlier host exactly when nothing of the name was left over, and spares every recorded instance's data exactly when the name is no upgraded instance's `<m>_v<version>` |
| Provision.Create | src/commands/create.rs:90-273 | for any name, a create meets that contract for a fresh cluster, never writes under a container, and without faults is Done |
| Provision.Clone | src/commands/clone.rs:58-262 | a clone meets it too, and on a fresh volume holds exactly the source's data |
| Provision.Restore | src/commands/restore.rs:62-257 | a restore meets it too, running with archiving off on a configuration that names the source's repository |
| DestroyCommand.Destroy | src/commands/destroy.rs:46-131 | Ok takes the container, record, configuration and the recorded volume and no other, so nothing of the name is left exactly when that was its only volume; a failure leaves the record with its data, or, exactly if the volume removal took effect, without; backups go only if asked, and first; without faults and hindrances it is Ok |
| DestroyCommand.OwnRepo | src/commands/destroy.rs:61-95 | the repository a recorded instance's server reads is its own |
| DestroyCommand.DeleteStanza | src/commands/destroy.rs:61-95 | needs the container running and removes only the instance's repository |
| DestroyCommand.RemoveStateDirectory | src/commands/destroy.rs:117-128 | record and configuration go in either order, possibly only one of them |
| Session.Execute | src/tui/ops.rs:13-79 | one command, with faults, keeps the host safe unless it clashes, sealed unless it overwrites, and touches no other instance |
| Session.RunSession | src/commands/upgrade.rs:184-220 | after any commands with any faults and settings, every state on the way is safe and recoverable if no command clashed on the host it found, and sealed if none overwrote; plain names never clash |
| Session.SafeIsRecoverable | src/commands/rotate.rs:62-73 | on a safe host each recorded instance that no destroy has begun on is one fault-free rotate away from service, with the data it has |
| Session.Recover | src/commands/rotate.rs:51-229 | that rotate is Ok and leads to exactly that host, from every safe host |
| Session.RecoverAfterSession | src/commands/rotate.rs:51-229 | the two in a row: a session with faults and no clash, then the rotate on the host it left |
| Hazards.LoseDataByName | src/docker/cleanup.rs:10-37 | a rolled-back create under a clashing name removes the other instance's data, from every host that lacks that instance's container |
| Hazards.LoseDataByUpgrade | src/commands/upgrade.rs:186-205 | an upgrade to a version whose volume another record uses fails and removes that instance's data, without any fault, from every host where no container mounts the volume |
| Hazards.ClashWithoutLoss | src/commands/upgrade.rs:137-205 | any other fault-free upgrade, clashing or not, costs no recorded instance its data |
| Hazards.HalfDestroy | src/commands/destroy.rs:114-128 | a destroy that fails at its last step leaves the record without its data |
| Hazards.MisdirectOrphan | src/commands/restore.rs:98-122 | from every sealed host where a clone may write under a mounted configuration, a restore, a clone and a restart archive into the source's repository |
| Hazards.MisdirectAfterUnsavedCreate | src/commands/create.rs:262-273 | the same from a host without such a container: an unsaved create leaves it |
| Hazards.UpgradeThenDestroy | src/commands/destroy.rs:115-116 | after an upgrade and a destroy the first volume is still there with its data |
| Disk.MayReadIsPowerLoss | src/util/fs.rs:45-57 | what may be read after a crash is exactly what some loss of unsynced data and directory entries leaves |
| Disk.PowerLossRecovers | src/util/fs.rs:45-57 | a crash leaves a usable directory and everything durable |
| Disk.CreateKeeps | src/util/fs.rs:19-22 | creating the temporary file shows no reader and no crash anything new |
| Disk.UnpublishedKeeps | src/util/fs.rs:23-31 | nor does writing and syncing it, however much of it was written |
| Disk.RenameKeeps | src/util/fs.rs:33-36 | renaming a synced file over the target lets readers and crashes see only the old or the new content |
| Disk.SyncDirectoryKeeps | src/util/fs.rs:48-57 | syncing the directory makes the renamed content durable |
| Disk.PowerLossLeavesOldOrNew | src/util/fs.rs:6-9 | after a crash at any point the target holds exactly the old or exactly the new bytes |
| Disk.DurableThroughOtherWrite | src/util/fs.rs:10-43 | writing one file keeps every other file durable |
| Disk.Drive.constructor | src/util/fs.rs:10-17 | an empty directory is a valid, durable start |
| Disk.Drive.AtomicWrite | src/util/fs.rs:10-43 | every state on the way is old-or-new; after Ok the new content is durable |
| SnapshotCommit.EveryViewIsBacked | src/commands/snapshot.rs:207-225 | in every consistent crash state a recorded success has a record with that time |
| SnapshotCommit.ListMayGrow | src/state/snapshots.rs:37-47 | extending the list keeps the two files consistent at every point of the write |
| SnapshotCommit.SaveState | src/state/instance.rs:28-38 | so does writing a state whose success every possible list contains |
| SnapshotCommit.UpdateState | src/state/instance.rs:92-104 | load, change, save keeps that at every crash point and is durable on Ok |
| SnapshotCommit.CommitSnapshot | src/commands/snapshot.rs:207-225 | list first, claim second: consistent at every crash point, both durable on Ok |
| Store.ChangesApplyInLockOrder | src/state/instance.rs:82-104 | in every interleaving the stored state is the saved changes in lock order, each change once, every Ok among them |
| Store.HourEditSurvives | src/state/instance.rs:92-104 | in any list of commits the last hour edit decides the hour; `Store.EditsSurviveRuns` applies it to runs |
| Store.UpgradeSurvives | src/commands/upgrade.rs:207-214 | in any list of commits the last upgrade decides version and override together; `Store.EditsSurviveRuns` applies it to runs |
| Store.EditsSurviveRuns | src/state/instance.rs:92-104 | after any interleaving the hour is that of the last hour edit saved, and version and volume those of the last upgrade saved |
| Store.SnapshotListIsSound | src/commands/snapshot.rs:170-216 | every differential backup has an earlier full one, no run appears twice, each Ok run appears |
| Store.ListOnlyGrows | src/state/snapshots.rs:21-47 | the list is only ever extended |
| Store.ReaderFindsItsSuccess | src/commands/snapshot.rs:207-225 | an unlocked reader of state then list finds every success it was told of |
| Store.OtherReadingOrderFails | src/commands/snapshot.rs:207-225 | in the other order there is a run in which it does not |
| Store.ErrorHidesSaveIff | src/state/instance.rs:92-104 | in any interleaving a process that ends with an error has its change in the file exactly when it was past its save |
| Store.ErrorMayHideSave | src/util/fs.rs:33-43 | there is a run in which that happens and the file has changed |
| Scheduler.DueIff | src/commands/snapshot.rs:70-106 | an attempt is due exactly when the hour has come, no success finished on today's date and nothing was recorded in the last hour |
| Scheduler.FailingIff | src/domain/instance.rs:94-103 | backups read as failing exactly when a scheduled attempt failed at a later second than every success |
| Scheduler.ScheduledDatesIncrease | src/commands/snapshot.rs:88-97 | scheduled successes of an instance finish on strictly increasing local dates |
| Scheduler.HistoryGrows | src/commands/snapshot.rs:70-106 | a due attempt keeps the whole history punctual, once per date and backing off by an hour |
| Scheduler.Agent.Record | src/commands/snapshot.rs:49-60 | a success is noted in both fields, a failure in one, and the stored fields show the history |
| Scheduler.Agent.SnapshotByHand | src/commands/snapshot.rs:207-225 | a manual success is recorded in both fields, a manual failure nowhere |
| Scheduler.Agent.Tend | src/commands/snapshot.rs:28-62 | an instance is snapshotted exactly when it is due, and recorded either way |
| Scheduler.Agent.RunDue | src/commands/snapshot.rs:22-64 | a tick keeps the history sound and returns the number of successes it added |
| Ops.RoundTrip | src/tui/ops.rs:13-99 | decoding an encoded operation gives back that operation, for all valid names and any target time |
| Ops.EncodingIsInjective | src/tui/app.rs:891-923 | no two operations share an encoding |
| Ops.RestoreRoundTrip | src/tui/ops.rs:91-99 | source, new name and target survive although the target holds colons |
| Ops.CloneRoundTripIff | src/tui/ops.rs:81-84 | a clone survives exactly when its source has no colon |
| TextFields.MovesKeepText | src/tui/events.rs:91-114 | moving the cursor keeps the text; typing then erasing is no change |
| TextFields.LastStartFound | src/tui/events.rs:97-102 | the character before the cursor is found from its bytes |
| TextFields.TextField.InsertChar | src/tui/events.rs:92-95 | inserts the character's bytes at the cursor and moves past them |
| TextFields.TextField.Backspace | src/tui/events.rs:97-102 | removes the character before the cursor, if there is one |
| TextFields.TextField.MoveLeft | src/tui/events.rs:104-108 | one character to the left, bytes unchanged |
| TextFields.TextField.MoveRight | src/tui/events.rs:110-114 | one character to the right, bytes unchanged |
| TextFields.TextField.InsertThenBackspace | src/tui/events.rs:92-102 | typing then erasing restores bytes and cursor |
| TextFields.EncodeInjective | src/tui/events.rs:88-89 | different texts have different bytes |
| TextFields.TextField.Edit | src/tui/events.rs:91-114 | after any keys the bytes are the encoding of the character list's text and the cursor is on a boundary |
| Dashboard.Position | src/tui/app.rs:100-110 | the first row of a name, or the length if there is none |
| Dashboard.AppState.CapIsSafe | src/tui/app.rs:946-964 | no number of minutes up to the cap reaches before the oldest backup or past the uptime |
| Dashboard.AppState.CapIsLargest | src/tui/app.rs:946-964 | and unless the window exceeds 2^32 minutes the cap is the largest such number |
| Dashboard.AppState.PickerStaysWithinCap | src/tui/app.rs:526-537 | every key in the minutes picker keeps the number within the cap |
| Dashboard.WizardStaysOk | src/tui/app.rs:557-648 | every key in the create wizard keeps the hour off or 0 to 23, the retention in 32 bits and the focus in range |
| Dashboard.AppState.PromisesSurviveKey | src/tui/app.rs:440-692 | through every key, an actions menu names the selected row, other modals a listed instance, and a picker stays within its cap |
| Dashboard.AppState.ArrowsUndoIff | src/tui/app.rs:656-676 | in the preset and hour fields right and left undo each other exactly when the hour shown is one of the day |
| Dashboard.AppState.SameInstance | src/tui/app.rs:440-692 | a modal only ever leads to a modal about the same instance |
| Dashboard.AppState.HandleKey | src/tui/app.rs:392-438 | without a modal a key moves the selection within range, opens something or leaves; with one the modal takes it |
| Dashboard.AppState.HandleModalKey | src/tui/app.rs:440-692 | which modal follows, what is queued, created, written or refused, and which toggles were counted |
| Dashboard.AppState.HandleMenuKey | src/tui/app.rs:445-465 | a listed key closes the menu and opens its form for the selected row; other keys leave it |
| Dashboard.AppState.HandleDestroyKey | src/tui/app.rs:468-494 | space toggles backup deletion, Enter goes on with what is shown, and toggles are counted |
| Dashboard.AppState.HandleConfirmKey | src/tui/app.rs:539-556 | y and Enter confirm, n cancels, D turns a destroy into one that deletes backups |
| Dashboard.AppState.SubmitDirectly | src/tui/app.rs:697-706 | a valid clone name queues the clone; a form that is not acceptable stays, with an error |
| Dashboard.AppState.SubmitRestore | src/tui/app.rs:738-769 | the confirmation carries no target for 0 minutes, else the instant that many minutes ago, never before the oldest backup |
| Dashboard.AppState.SubmitForConfirmation | src/tui/app.rs:707-736 | an upgrade is offered only to a greater version that is a byte, a resize only to another preset; otherwise the form stays with an error |
| Dashboard.AppState.ListInstances | src/tui/app.rs:99-143 | a new list keeps the selected name if it is there, else clamps, and closes a modal whose instance has gone |
| Dashboard.AppState.ApplyEvent | src/tui/app.rs:96-240 | every event keeps the invariant; only keys queue operations; a server seen going down raises an error |
| Dashboard.AppState.Drain | src/tui/mod.rs:60-123 | after each event every queue is handed over and emptied |
| Dashboard.AppState.DeedRunsAsConfirmed | src/tui/ops.rs:13-79 | what the runner decodes is the operation that was justified |
| Dashboard.AppState.TargetTextWithinBounds | src/tui/app.rs:738-769 | the text a started restore carries is absent exactly for 0 minutes and else, where written times read back, names an instant no earlier than the oldest backup and no further back than the uptime |
| Dashboard.AppState.RunLoop | src/tui/mod.rs:48-125 | over any run every started destructive operation came from a yes on a confirmation for a listed instance, deletes backups only after a toggle, and restores no earlier than the oldest backup; every creation request is valid |
| Calendar.CivilFromDaysIsGregorian | src/commands/snapshots.rs:132-144 | the algorithm gives the date a day-by-day Gregorian calendar reaches, for negative days too, exactly when its year fits 32 bits |
| Calendar.CivilFromDaysInverse | src/commands/snapshots.rs:132-144 | an explicit inverse undoes it on every valid date |
| Calendar.CivilFromDaysKeepsOrder | src/commands/snapshots.rs:132-144 | later days have later dates and conversely |
| Calendar.NextDayAdvances | src/commands/snapshots.rs:132-144 | the reference calendar's next day is one day later in the closed form |
| Timestamp.RangeIsFourDigitYears | src/commands/snapshots.rs:115-128 | the seconds with a four-digit year are exactly one interval |
| Timestamp.IsoRoundTrip | src/commands/snapshots.rs:115-128 | in it the timestamp has 20 characters and reads back as the same second |
| Timestamp.IsoOrder | src/domain/instance.rs:91-93 | and comparing the strings compares the times |
| Timestamp.IsoOrderFailsOutside | src/commands/snapshots.rs:115-128 | one second later it no longer does |
| Pitr.PitrWindow | src/commands/snapshots.rs:87-113 | each end of the window is there exactly when some backup has it, and is the extreme one |
| Dumps.NamesSortByTime | src/commands/dump.rs:15-35 | one instance's default dump names sort as the dumps were taken |
| Dumps.PathsSortByTime | src/commands/dump.rs:15-35 | and so do their default paths in one directory |
| Dumps.DumpsToPrune | src/commands/dump.rs:61-68 | sorts in place, keeps the multiset, and returns the excess over n, every name of it below every other one; 0 or few files prune nothing |
| Dumps.Sort | src/commands/dump.rs:65-65 | sorts in place by byte order, a permutation |
| Dumps.OldestArePruned | src/commands/dump.rs:61-68 | of one instance's dumps the excess is pruned, and each pruned one is older than each that stays |
| Dumps.ApplyRetention | src/commands/dump.rs:351-364 | the scan prunes the files that start with `<name>-` and end with `.dump` |
| Dumps.RetentionIff | src/commands/dump.rs:351-364 | what goes is the excess of the instance's own dumps and nothing else exactly when nothing goes or no other file matches |
| Dumps.LoseOwnDump | src/commands/dump.rs:351-364 | beside a dump of `<name>-<letter>...`, keeping one removes the dump just taken |
| Entrypoints.BootsOnlyFinishedCopies | src/docker/clone_entrypoint.rs:35-51 | through any crashes and restarts a marker means a finished copy and Postgres boots on nothing else, if the source holds no marker |
| Entrypoints.MarkedSourceMisboots | src/docker/clone_entrypoint.rs:35-51 | with a marker in the source, one crash during the copy and a restart boot an unfinished copy |
| Entrypoints.SafeIff | src/docker/restore_entrypoint.rs:43-59 | no run boots an unfinished copy exactly when the source holds no marker |
| Entrypoints.SingleStartIsHonest | src/docker/clone_entrypoint.rs:35-51 | with one start on a target without a marker, a server that boots does so on a finished copy, wherever the files came from |
| Entrypoints.QuietRestartBoots | src/docker/restore_entrypoint.rs:43-59 | after any crashes and restarts, one restart without faults boots on a finished copy |
| Wait.WaitForPgReady | src/docker/wait.rs:19-64 | Ok exactly when a ready poll precedes the deadline, five stopped reports in a row and any other error; at most seconds + 1 polls |
| Wait.CreateStanza | src/commands/create.rs:304-348 | created exactly when one of five attempts succeeds with only a busy lock before it |
| Text.ParseU8Decimal | src/tui/ops.rs:85-90 | a version written in decimal parses back as a byte |

## Left out

- Docker, tar, exec streaming, S3, `df`, systemd and self-update: foreign calls, present only as calls that may fail.
- Rendering, clipboard, command line, banners, flash texts and prompts: presentation.
- TOML, JSON and jiff: saving and loading is a faithful codec, `Timestamp.ParseIso` reads only the controller's own 20-character form, and the dashboard's time parser and printer are arbitrary functions.
- Configuration texts, Dockerfiles and init SQL: only the archive flag and the repository are kept. A Clone's replication role check and password file are calls without effect.
- An upgrade container still running after its one-hour wait: the model takes it as ended.
- `resize`, presets' memory figures, `ls`, disk and SMART health, CPU history: they would only add easy members.
- Provision.Clone: success without faults is not stated, nor for Provision.Restore: both depend on a server or a repository outside the host.
- A Postgres restart inside a running container, which re-reads postgresql.conf but keeps the mounted files: the model's starts are container starts.
- Concurrent lifecycle commands on the host; in `Store` the instance is live and no destroy interleaves.
- Mutual exclusion of dashboard operations on one instance: the code does not enforce it.
- The durability of a freshly created parent directory, which the code does not sync, and of file modes.
- A power loss while an entrypoint script runs: `Entrypoints` lets the container crash, not the disk.
- Entrypoints.BootsOnlyFinishedCopies: the scripts are a step function with a program counter rather than a method, since a crash may fall between any two effects; for a restore the target is not assumed to be refused when it is not empty.
- Scheduler.Agent.RunDue: state writes succeed, as the back-off needs its record; a failed manual snapshot records nothing.
- Dumps.ApplyRetention: every removal succeeds, and every file name is readable text.
- Engine.Machine.SetRunning: a start from outside, like Docker's restart policy, re-reads the mounted files but never runs the entrypoint of a clone, restore or upgrade container, so volumes do not change there; `Entrypoints` has those restarts.
- Dashboard.AppState.HandleModalKey: generated passwords, error texts and the retry for an unused random name are not modelled; the text fields in forms are the character lists that `TextFields.TextField` refines to.
- Calendar.CivilFromDaysIsGregorian: 64-bit overflow of the day count itself, which no caller reaches.
- Waiting for recovery to end (src/docker/wait.rs:70-110) is the same loop with fewer cases.
- Redaction and failure scanning of pgbackrest output, partial-file sweeping and free-space checks: line filters and thresholds.
