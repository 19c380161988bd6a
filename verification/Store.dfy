/** Processes that share one instance's files through the state-root lock.

    A command is a process with a program counter: it may look at the files without
    the lock, it may die at any step (which releases the lock), and a save may fail
    before or after the new file is in place. Any interleaving of steps is a run. */
module Store {
  import opened Text

  datatype Fields = Fields(
    snapshotHour: Option<nat>, preset: nat, pgVersion: nat, volume: Option<string>,
    lastOk: Option<int>, lastAttempt: Option<int>)

  /** The closures handed to the load-change-save primitive. */
  datatype Edit =
    | SetHour(hour: Option<nat>)
    | SetPreset(preset: nat)
    | FinishUpgrade(version: nat, volume: string)
    | SnapshotDone(at: int)
    | AttemptFailed(at: int)

  function Apply(f: Fields, e: Edit): Fields {
    match e
    case SetHour(h) => f.(snapshotHour := h)
    case SetPreset(p) => f.(preset := p)
    case FinishUpgrade(v, vol) => f.(pgVersion := v, volume := Some(vol))
    case SnapshotDone(t) => f.(lastOk := Some(t), lastAttempt := Some(t))
    case AttemptFailed(t) => f.(lastAttempt := Some(t))
  }

  datatype Kind = Full | Diff

  datatype Record = Record(run: nat, kind: Kind, takenAt: int)

  /** `onFullDay`: today is the instance's full-backup weekday. */
  datatype Program = Update(edit: Edit) | Snapshot(onFullDay: bool)

  datatype Counter =
    | Ready
    | Decided(kind: Kind)
    | Holding(choice: Option<Kind>)
    | ListRead(kind: Kind, copy: seq<Record>)
    | ListSaved(at: int)
    | Loaded(edit: Edit, fields: Fields)
    | Changed(edit: Edit, fields: Fields)
    | Published
    | Finished(ok: bool)

  /** A change that reached the file: whose it was and which lock acquisition it belongs to. */
  datatype Commit = Commit(turn: nat, run: nat, edit: Edit)

  datatype System = System(
    programs: map<nat, Program>,
    counters: map<nat, Counter>,
    lock: Option<nat>,
    fields: Fields,
    list: seq<Record>,
    acquired: seq<nat>,
    commits: seq<Commit>)

  /** `readable`: an unlocked look at the list succeeded; an unreadable one counts as empty. */
  datatype Choice = Die | Go(now: int, readable: bool)

  predicate HasFull(list: seq<Record>) {
    exists i | 0 <= i < |list| :: list[i].kind == Full
  }

  predicate HasTime(list: seq<Record>, t: int) {
    exists i | 0 <= i < |list| :: list[i].takenAt == t
  }

  function MoveTo(s: System, p: nat, c: Counter): System {
    s.(counters := s.counters[p := c])
  }

  function Acquire(s: System, p: nat, choice: Option<Kind>): System {
    if s.lock.Some? then s
    else MoveTo(s, p, Holding(choice)).(lock := Some(p), acquired := s.acquired + [p])
  }

  function Exit(s: System, p: nat, ok: bool): System {
    MoveTo(s, p, Finished(ok)).(lock := if s.lock == Some(p) then None else s.lock)
  }

  /** One step of process `p`. */
  function Next(s: System, p: nat, choice: Choice): System
    requires s.counters.Keys <= s.programs.Keys
  {
    if p !in s.counters || s.counters[p].Finished? then s
    else if choice.Die? then Exit(s, p, false)
    else
      match s.counters[p]
      case Ready =>
        if s.programs[p].Update? then Acquire(s, p, None)
        else MoveTo(s, p, Decided(if choice.readable && HasFull(s.list) && !s.programs[p].onFullDay then Diff else Full))
      case Decided(kind) => Acquire(s, p, Some(kind))
      case Holding(chosen) =>
        if chosen.Some? then MoveTo(s, p, ListRead(chosen.value, s.list))
        else if s.programs[p].Update? then MoveTo(s, p, Loaded(s.programs[p].edit, s.fields))
        else s
      case ListRead(kind, copy) =>
        MoveTo(s, p, ListSaved(choice.now)).(list := copy + [Record(p, kind, choice.now)])
      case ListSaved(at) => MoveTo(s, p, Loaded(SnapshotDone(at), s.fields))
      case Loaded(edit, fields) => MoveTo(s, p, Changed(edit, Apply(fields, edit)))
      case Changed(edit, fields) =>
        MoveTo(s, p, Published).(fields := fields, commits := s.commits + [Commit(|s.acquired|, p, edit)])
      case Published => Exit(s, p, true)
      case Finished(_) => s
  }

  datatype Action = Action(process: nat, choice: Choice)

  function Run(s: System, actions: seq<Action>): (r: System)
    requires s.counters.Keys <= s.programs.Keys
    ensures r.counters.Keys <= r.programs.Keys && r.programs == s.programs
  {
    if actions == [] then s
    else
      var before := Run(s, actions[..|actions| - 1]);
      var a := actions[|actions| - 1];
      Next(before, a.process, a.choice)
  }

  predicate Initial(s: System) {
    && s.counters.Keys == s.programs.Keys && s.lock.None? && s.acquired == [] && s.commits == []
    && (forall p | p in s.counters :: s.counters[p] == Ready)
    && (forall p | p in s.programs && s.programs[p].Update? :: !s.programs[p].edit.SnapshotDone?)
    && Seeded(s.list) && OneRecordPerRun(s.list)
    && (forall i | 0 <= i < |s.list| :: s.list[i].run !in s.programs)
    && (s.fields.lastOk.Some? ==> HasTime(s.list, s.fields.lastOk.value))
  }

  // ---------- What every interleaving keeps ----------

  /** Changes applied one after the other. */
  function Fold(f: Fields, commits: seq<Commit>): Fields {
    if commits == [] then f else Apply(Fold(f, commits[..|commits| - 1]), commits[|commits| - 1].edit)
  }

  /** Every differential backup has an earlier full one. */
  predicate Seeded(list: seq<Record>) {
    forall j | 0 <= j < |list| && list[j].kind == Diff :: HasFull(list[..j])
  }

  predicate OneRecordPerRun(list: seq<Record>) {
    forall i, j | 0 <= i < j < |list| :: list[i].run != list[j].run
  }

  predicate Recorded(list: seq<Record>, p: nat) {
    exists i | 0 <= i < |list| :: list[i].run == p
  }

  predicate InLock(c: Counter) {
    !c.Ready? && !c.Decided? && !c.Finished?
  }

  predicate CounterOk(s: System, p: nat)
    requires p in s.counters && p in s.programs
  {
    match s.counters[p]
    case Ready => p !in s.acquired && !Recorded(s.list, p)
    case Decided(k) => s.programs[p].Snapshot? && p !in s.acquired && !Recorded(s.list, p) && (k == Diff ==> HasFull(s.list))
    case Holding(k) =>
      && !Recorded(s.list, p)
      && (k.None? <==> s.programs[p].Update?)
      && (k == Some(Diff) ==> HasFull(s.list))
    case ListRead(k, copy) =>
      s.programs[p].Snapshot? && copy == s.list && !Recorded(s.list, p) && (k == Diff ==> HasFull(s.list))
    case ListSaved(at) => s.programs[p].Snapshot? && Recorded(s.list, p) && HasTime(s.list, at)
    case Loaded(e, f) => f == s.fields && EditOk(s, p, e)
    case Changed(e, f) => f == Apply(s.fields, e) && EditOk(s, p, e)
    case Published => Committed(s, p) && (s.programs[p].Snapshot? ==> Recorded(s.list, p))
    case Finished(ok) => ok ==> Committed(s, p) && (s.programs[p].Snapshot? ==> Recorded(s.list, p))
  }

  predicate EditOk(s: System, p: nat, e: Edit)
    requires p in s.programs
  {
    if s.programs[p].Update? then e == s.programs[p].edit && !e.SnapshotDone?
    else e.SnapshotDone? && Recorded(s.list, p) && HasTime(s.list, e.at)
  }

  predicate Committed(s: System, p: nat) {
    exists i | 0 <= i < |s.commits| :: s.commits[i].run == p
  }

  predicate LockOk(s: System) {
    && (forall p | p in s.counters && InLock(s.counters[p]) :: s.lock == Some(p))
    && (s.lock.Some? ==> s.lock.value in s.counters && InLock(s.counters[s.lock.value]))
    && (s.lock.Some? ==> s.acquired != [] && s.acquired[|s.acquired| - 1] == s.lock.value)
  }

  /** Commits carry the number of their acquisition, in increasing order, at most one each. */
  predicate LogOk(s: System) {
    && (forall i, j | 0 <= i < j < |s.acquired| :: s.acquired[i] != s.acquired[j])
    && (forall i, j | 0 <= i < j < |s.commits| :: s.commits[i].turn < s.commits[j].turn)
    && (forall i | 0 <= i < |s.commits| :: CommitOk(s, s.commits[i]))
    && (s.lock.Some? && s.lock.value in s.counters && !s.counters[s.lock.value].Published? ==>
        forall i | 0 <= i < |s.commits| :: s.commits[i].turn < |s.acquired|)
  }

  predicate CommitOk(s: System, c: Commit) {
    && 1 <= c.turn <= |s.acquired| && s.acquired[c.turn - 1] == c.run && c.run in s.programs
    && EditOk(s, c.run, c.edit)
  }

  predicate CountersOk(s: System) {
    && s.counters.Keys == s.programs.Keys
    && (forall p | p in s.programs && s.programs[p].Update? :: !s.programs[p].edit.SnapshotDone?)
    && (forall p | p in s.counters :: CounterOk(s, p))
  }

  predicate FilesOk(start: Fields, s: System) {
    && s.fields == Fold(start, s.commits)
    && Seeded(s.list) && OneRecordPerRun(s.list)
    && (s.fields.lastOk.Some? ==> HasTime(s.list, s.fields.lastOk.value))
  }

  predicate Invariant(start: Fields, s: System) {
    CountersOk(s) && LockOk(s) && LogOk(s) && FilesOk(start, s)
  }

  lemma InitialInvariant(s: System)
    requires Initial(s)
    ensures Invariant(s.fields, s)
  {
  }

  /** Moving a counter outside the shared files disturbs no other process. */
  lemma OthersUndisturbed(s: System, t: System, q: nat)
    requires q in s.counters && q in s.programs && s.programs == t.programs && CounterOk(s, q)
    requires q in t.counters && t.counters[q] == s.counters[q]
    requires s.list <= t.list && s.acquired <= t.acquired && s.commits <= t.commits
    requires InLock(s.counters[q]) ==> s.list == t.list && s.fields == t.fields
    requires !InLock(s.counters[q]) ==> (Recorded(t.list, q) ==> Recorded(s.list, q)) && (q in t.acquired ==> q in s.acquired)
    ensures CounterOk(t, q)
  {
    Grows(s.list, t.list);
    CommittedGrows(s, t, q);
  }

  lemma Grows(short: seq<Record>, long: seq<Record>)
    requires short <= long
    ensures HasFull(short) ==> HasFull(long)
    ensures forall t | HasTime(short, t) :: HasTime(long, t)
    ensures forall p | Recorded(short, p) :: Recorded(long, p)
  {
    assert forall i | 0 <= i < |short| :: short[i] == long[i];
  }

  lemma CommittedGrows(s: System, t: System, p: nat)
    requires s.commits <= t.commits
    ensures Committed(s, p) ==> Committed(t, p)
  {
    assert forall i | 0 <= i < |s.commits| :: s.commits[i] == t.commits[i];
  }

  /** Every process but `p` keeps its place, and `p` is in order: all counters are. */
  lemma CountersKeep(s: System, t: System, p: nat)
    requires CountersOk(s) && p in s.counters && s.programs == t.programs
    requires p in t.counters && t.counters == s.counters[p := t.counters[p]] && CounterOk(t, p)
    requires s.list <= t.list && s.acquired <= t.acquired && s.commits <= t.commits
    requires (s.list == t.list && s.fields == t.fields) || forall q | q in s.counters && q != p :: !InLock(s.counters[q])
    requires forall q | q != p :: Recorded(t.list, q) ==> Recorded(s.list, q)
    requires forall q | q != p && q in t.acquired :: q in s.acquired
    ensures CountersOk(t)
  {
    forall q | q in t.counters && q != p
      ensures CounterOk(t, q)
    {
      OthersUndisturbed(s, t, q);
    }
  }

  lemma CommitsKeep(s: System, t: System)
    requires LogOk(s) && s.programs == t.programs && s.list <= t.list && s.acquired <= t.acquired
    ensures forall i | 0 <= i < |s.commits| :: CommitOk(t, s.commits[i])
  {
    Grows(s.list, t.list);
    forall i | 0 <= i < |s.commits|
      ensures CommitOk(t, s.commits[i])
    {
      assert CommitOk(s, s.commits[i]);
    }
  }

  lemma AcquireKeeps(start: Fields, s: System, p: nat, choice: Option<Kind>)
    requires Invariant(start, s) && p in s.counters && s.lock.None?
    requires s.counters[p].Ready? || s.counters[p].Decided?
    requires choice.None? <==> s.programs[p].Update?
    requires choice == Some(Diff) ==> HasFull(s.list)
    ensures Invariant(start, Acquire(s, p, choice))
  {
    hide Seeded, OneRecordPerRun, HasFull, HasTime, Recorded, Committed;
    var t := Acquire(s, p, choice);
    assert CounterOk(s, p);
    CountersKeep(s, t, p);
    CommitsKeep(s, t);
    hide CounterOk, CommitOk;
  }

  lemma ExitKeeps(start: Fields, s: System, p: nat, ok: bool)
    requires Invariant(start, s) && p in s.counters && !s.counters[p].Finished?
    requires ok ==> s.counters[p].Published?
    ensures Invariant(start, Exit(s, p, ok))
  {
    hide Seeded, OneRecordPerRun, HasFull, HasTime, Recorded, Committed;
    var t := Exit(s, p, ok);
    assert CounterOk(s, p);
    CommittedGrows(s, t, p);
    CountersKeep(s, t, p);
    CommitsKeep(s, t);
    hide CounterOk, CommitOk;
  }

  /** A step that only moves one counter, staying inside or outside the lock. */
  lemma MoveKeeps(start: Fields, s: System, p: nat, c: Counter)
    requires Invariant(start, s) && p in s.counters
    requires InLock(c) == InLock(s.counters[p]) && !c.Published? && !s.counters[p].Published?
    requires CounterOk(MoveTo(s, p, c), p)
    ensures Invariant(start, MoveTo(s, p, c))
  {
    var t := MoveTo(s, p, c);
    hide Seeded, OneRecordPerRun, HasFull, HasTime, Recorded, Committed;
    CountersKeep(s, t, p);
    CommitsKeep(s, t);
    hide CounterOk, CommitOk;
  }

  /** The list is saved with one more record. */
  lemma RecordKeeps(start: Fields, s: System, p: nat, now: int)
    requires Invariant(start, s) && p in s.counters && s.counters[p].ListRead?
    ensures var c := s.counters[p];
      Invariant(start, MoveTo(s, p, ListSaved(now)).(list := c.copy + [Record(p, c.kind, now)]))
  {
    hide Seeded, OneRecordPerRun, HasFull, HasTime, Recorded, Committed;
    var c := s.counters[p];
    assert CounterOk(s, p);
    var r := Record(p, c.kind, now);
    var t := MoveTo(s, p, ListSaved(now)).(list := c.copy + [r]);
    ListExtended(s.list, r);
    Grows(s.list, t.list);
    CountersKeep(s, t, p);
    CommitsKeep(s, t);
    hide CounterOk, CommitOk;
  }

  lemma ListExtended(list: seq<Record>, r: Record)
    requires Seeded(list) && OneRecordPerRun(list) && !Recorded(list, r.run)
    requires r.kind == Diff ==> HasFull(list)
    ensures Seeded(list + [r]) && OneRecordPerRun(list + [r])
    ensures Recorded(list + [r], r.run) && HasTime(list + [r], r.takenAt)
    ensures forall q | q != r.run :: Recorded(list + [r], q) ==> Recorded(list, q)
  {
    var longer := list + [r];
    assert longer[|list|] == r;
    forall j | 0 <= j < |longer| && longer[j].kind == Diff
      ensures HasFull(longer[..j])
    {
      assert longer[..j] == list[..j];
      assert list[..|list|] == list;
    }
  }

  /** The changed state is saved: it is the present one with one more change. */
  lemma PublishKeeps(start: Fields, s: System, p: nat)
    requires Invariant(start, s) && p in s.counters && s.counters[p].Changed?
    ensures var c := s.counters[p];
      Invariant(start, MoveTo(s, p, Published).(fields := c.fields, commits := s.commits + [Commit(|s.acquired|, p, c.edit)]))
  {
    hide Seeded, OneRecordPerRun, HasFull, HasTime, Recorded;
    var c := s.counters[p];
    assert CounterOk(s, p);
    var entry := Commit(|s.acquired|, p, c.edit);
    var t := MoveTo(s, p, Published).(fields := c.fields, commits := s.commits + [entry]);
    assert t.commits[|s.commits|] == entry;
    assert t.commits[..|t.commits| - 1] == s.commits;
    CountersKeep(s, t, p);
    CommitsKeep(s, t);
    assert CommitOk(t, entry);
    hide CounterOk, CommitOk;
  }

  /** Steps that touch neither the lock nor the files. */
  lemma PrivateStepKeeps(start: Fields, s: System, p: nat, choice: Choice)
    requires Invariant(start, s) && p in s.counters && choice.Go?
    requires var c := s.counters[p];
      c.Holding? || c.ListSaved? || c.Loaded? || (c.Ready? && s.programs[p].Snapshot?)
    ensures Invariant(start, Next(s, p, choice)) && Next(s, p, choice).list == s.list
  {
    hide Seeded, OneRecordPerRun, LogOk, LockOk, HasTime;
    assert CounterOk(s, p);
    MoveKeeps(start, s, p, Next(s, p, choice).counters[p]);
  }

  lemma NextKeeps(start: Fields, s: System, p: nat, choice: Choice)
    requires Invariant(start, s)
    ensures Invariant(start, Next(s, p, choice))
    ensures s.list <= Next(s, p, choice).list
  {
    hide Seeded, OneRecordPerRun, LogOk, LockOk, HasTime;
    if p in s.counters && !s.counters[p].Finished? {
      assert CounterOk(s, p);
      if choice.Die? {
        ExitKeeps(start, s, p, false);
      } else {
        hide Invariant;
        match s.counters[p]
        case Ready =>
          if s.programs[p].Snapshot? {
            PrivateStepKeeps(start, s, p, choice);
          } else if s.lock.None? {
            AcquireKeeps(start, s, p, None);
          }
        case Decided(kind) =>
          if s.lock.None? {
            AcquireKeeps(start, s, p, Some(kind));
          }
        case ListRead(_, _) => RecordKeeps(start, s, p, choice.now);
        case Changed(_, _) => PublishKeeps(start, s, p);
        case Published => ExitKeeps(start, s, p, true);
        case _ => PrivateStepKeeps(start, s, p, choice);
      }
    }
  }

  lemma {:induction false} RunKeeps(s: System, actions: seq<Action>)
    requires Initial(s)
    ensures Invariant(s.fields, Run(s, actions))
  {
    if actions == [] {
      InitialInvariant(s);
    } else {
      RunKeeps(s, actions[..|actions| - 1]);
      var a := actions[|actions| - 1];
      NextKeeps(s.fields, Run(s, actions[..|actions| - 1]), a.process, a.choice);
    }
  }

  // ---------- Main results ----------

  /** In every interleaving the stored state is the saved changes in lock order: each is
      its command's own change, belongs to a different acquisition, later ones to later
      acquisitions, and every command that returned Ok is among them. */
  lemma ChangesApplyInLockOrder(s: System, actions: seq<Action>)
    requires Initial(s)
    ensures var r := Run(s, actions);
      && r.fields == Fold(s.fields, r.commits)
      && (forall i, j | 0 <= i < j < |r.commits| :: r.commits[i].turn < r.commits[j].turn && r.commits[i].run != r.commits[j].run)
      && (forall i | 0 <= i < |r.commits| ::
            1 <= r.commits[i].turn <= |r.acquired| && r.acquired[r.commits[i].turn - 1] == r.commits[i].run
            && r.commits[i].run in s.programs
            && (s.programs[r.commits[i].run].Update? ==> s.programs[r.commits[i].run] == Update(r.commits[i].edit))
            && (s.programs[r.commits[i].run].Snapshot? ==> r.commits[i].edit.SnapshotDone?))
      && (forall p | p in r.counters && r.counters[p] == Finished(true) :: Committed(r, p))
  {
    RunKeeps(s, actions);
    var r := Run(s, actions);
    assert forall p | p in r.counters :: CounterOk(r, p);
    assert forall i | 0 <= i < |r.commits| :: CommitOk(r, r.commits[i]);
  }

  predicate TouchesHour(e: Edit) {
    e.SetHour?
  }

  /** No field change is lost: the schedule hour is the last saved hour edit, however many
      snapshots and upgrades were saved after it from copies loaded under their own lock;
      with no such edit it is the original hour. */
  lemma {:induction false} HourEditSurvives(f: Fields, commits: seq<Commit>, i: int)
    requires -1 <= i < |commits|
    requires i >= 0 ==> commits[i].edit.SetHour?
    requires forall j | i < j < |commits| :: !TouchesHour(commits[j].edit)
    ensures Fold(f, commits).snapshotHour == if i < 0 then f.snapshotHour else commits[i].edit.hour
    decreases |commits|
  {
    if i == |commits| - 1 {
    } else {
      var front := commits[..|commits| - 1];
      assert !TouchesHour(commits[|commits| - 1].edit);
      assert forall j | i < j < |front| :: front[j] == commits[j];
      HourEditSurvives(f, front, i);
    }
  }

  /** The same for the two fields an upgrade switches, which always change together. */
  lemma {:induction false} UpgradeSurvives(f: Fields, commits: seq<Commit>, i: int)
    requires -1 <= i < |commits|
    requires i >= 0 ==> commits[i].edit.FinishUpgrade?
    requires forall j | i < j < |commits| :: !commits[j].edit.FinishUpgrade?
    ensures var r := Fold(f, commits);
      if i < 0 then r.pgVersion == f.pgVersion && r.volume == f.volume
      else r.pgVersion == commits[i].edit.version && r.volume == Some(commits[i].edit.volume)
    decreases |commits|
  {
    if i == |commits| - 1 {
    } else {
      UpgradeSurvives(f, commits[..|commits| - 1], i);
    }
  }

  /** Whose hour edit was the last to be saved, or -1. */
  function LastHourEdit(commits: seq<Commit>): (i: int)
    ensures -1 <= i < |commits|
    ensures i >= 0 ==> commits[i].edit.SetHour?
    ensures forall j | i < j < |commits| :: !TouchesHour(commits[j].edit)
  {
    if commits == [] then -1
    else if commits[|commits| - 1].edit.SetHour? then |commits| - 1
    else
      var front := commits[..|commits| - 1];
      assert forall j | 0 <= j < |front| :: front[j] == commits[j];
      LastHourEdit(front)
  }

  /** The last upgrade to be saved, or -1. */
  function LastUpgrade(commits: seq<Commit>): (i: int)
    ensures -1 <= i < |commits|
    ensures i >= 0 ==> commits[i].edit.FinishUpgrade?
    ensures forall j | i < j < |commits| :: !commits[j].edit.FinishUpgrade?
  {
    if commits == [] then -1
    else if commits[|commits| - 1].edit.FinishUpgrade? then |commits| - 1
    else
      var front := commits[..|commits| - 1];
      assert forall j | 0 <= j < |front| :: front[j] == commits[j];
      LastUpgrade(front)
  }

  /** Main result: in every interleaving the stored hour is that of the last hour edit saved
      and version and volume are those of the last upgrade saved, whatever snapshots and
      other edits ran or were saved around them; with none, they are the original ones. */
  lemma EditsSurviveRuns(s: System, actions: seq<Action>)
    requires Initial(s)
    ensures var r := Run(s, actions); var h, u := LastHourEdit(r.commits), LastUpgrade(r.commits);
      && r.fields.snapshotHour == (if h < 0 then s.fields.snapshotHour else r.commits[h].edit.hour)
      && r.fields.pgVersion == (if u < 0 then s.fields.pgVersion else r.commits[u].edit.version)
      && r.fields.volume == (if u < 0 then s.fields.volume else Some(r.commits[u].edit.volume))
  {
    ChangesApplyInLockOrder(s, actions);
    var commits := Run(s, actions).commits;
    HourEditSurvives(s.fields, commits, LastHourEdit(commits));
    UpgradeSurvives(s.fields, commits, LastUpgrade(commits));
  }

  /** Every differential backup has an earlier full one, every run appears at most once,
      and a snapshot that returned Ok appears (so exactly once). */
  lemma SnapshotListIsSound(s: System, actions: seq<Action>)
    requires Initial(s)
    ensures var r := Run(s, actions);
      && Seeded(r.list) && OneRecordPerRun(r.list)
      && (forall p | p in r.counters && s.programs[p].Snapshot? && r.counters[p] == Finished(true) :: Recorded(r.list, p))
  {
    hide Seeded, OneRecordPerRun, Recorded, HasFull, HasTime, LockOk, LogOk, Next;
    RunKeeps(s, actions);
    var r := Run(s, actions);
    assert forall p | p in r.counters :: CounterOk(r, p);
  }

  /** The list only grows. */
  lemma {:induction false} ListOnlyGrows(s: System, actions: seq<Action>, more: seq<Action>)
    requires Initial(s)
    ensures Run(s, actions).list <= Run(s, actions + more).list
  {
    if more == [] {
      assert actions + more == actions;
    } else {
      var all := actions + more;
      var a := all[|all| - 1];
      assert all[..|all| - 1] == actions + more[..|more| - 1];
      ListOnlyGrows(s, actions, more[..|more| - 1]);
      RunKeeps(s, all[..|all| - 1]);
      NextKeeps(s.fields, Run(s, all[..|all| - 1]), a.process, a.choice);
    }
  }

  /** A process that is not past its save has no change in the file. */
  lemma UnsavedUntilPublished(start: Fields, s: System, p: nat)
    requires Invariant(start, s) && p in s.counters
    requires !s.counters[p].Published? && !s.counters[p].Finished?
    ensures !Committed(s, p)
  {
    hide Seeded, OneRecordPerRun, HasFull, HasTime, Recorded, EditOk;
    assert CounterOk(s, p);
    forall i | 0 <= i < |s.commits|
      ensures s.commits[i].run != p
    {
      assert CommitOk(s, s.commits[i]);
    }
  }

  /** A command that ends with an error has changed the file exactly when it was past its
      save: the new file was in place, and only what follows it failed. */
  lemma ErrorHidesSaveIff(s: System, actions: seq<Action>, p: nat, choice: Choice)
    requires Initial(s) && p in Run(s, actions).counters && !Run(s, actions).counters[p].Finished?
    requires var t := Run(s, actions + [Action(p, choice)]); p in t.counters && t.counters[p] == Finished(false)
    ensures Committed(Run(s, actions + [Action(p, choice)]), p) <==> Run(s, actions).counters[p].Published?
  {
    RunKeeps(s, actions);
    var r := Run(s, actions);
    assert (actions + [Action(p, choice)])[..|actions|] == actions;
    assert Run(s, actions + [Action(p, choice)]) == Next(r, p, choice);
    assert CounterOk(r, p);
    if !r.counters[p].Published? {
      UnsavedUntilPublished(s.fields, r, p);
    }
  }

  /** And it happens: an hour edit alone, stopped after its save. */
  lemma ErrorMayHideSave()
    ensures exists s, actions, p :: Initial(s) && HidesSave(s, Run(s, actions), p)
  {
    var s := LoneEdit();
    assert Initial(s) && s.counters.Keys <= s.programs.Keys;
    RepeatedIsRun(s, 4);
    hide Run, Alone, Repeated, LoneEdit;
    EditAlone(s);
    var actions := Repeated(4) + [Action(0, Die)];
    StopAfter(s, Repeated(4));
    assert Initial(s) && HidesSave(s, Run(s, actions), 0);
  }

  /** `p` reported an error and is in the file, whose content it changed. */
  predicate HidesSave(s: System, r: System, p: nat) {
    p in r.counters && r.counters[p] == Finished(false) && Committed(r, p) && r.fields != s.fields
  }

  function LoneEdit(): System {
    System(map[0 := Update(SetHour(Some(3)))], map[0 := Ready], None, Fields(None, 0, 16, None, None, None), [], [], [])
  }

  lemma EditAlone(s: System)
    requires s == LoneEdit()
    ensures var r := Alone(s, 4);
      0 in r.counters && r.counters[0] == Published && Committed(r, 0) && r.fields != s.fields
  {
    var s1 := Next(s, 0, Go(7, true));
    assert Alone(s, 0) == s && Alone(s, 1) == s1 && s1.counters[0] == Holding(None);
    var s2 := Next(s1, 0, Go(7, true));
    assert Alone(s, 2) == s2 && s2.counters[0] == Loaded(SetHour(Some(3)), s.fields);
    var s3 := Next(s2, 0, Go(7, true));
    assert Alone(s, 3) == s3 && s3.counters[0].Changed? && s3.counters[0].fields.snapshotHour == Some(3);
    var s4 := Next(s3, 0, Go(7, true));
    assert Alone(s, 4) == s4 && s4.commits[|s3.commits|].run == 0;
  }

  lemma StopAfter(s: System, actions: seq<Action>)
    requires s.counters.Keys <= s.programs.Keys && 0 in Run(s, actions).counters && !Run(s, actions).counters[0].Finished?
    ensures var r, t := Run(s, actions), Run(s, actions + [Action(0, Die)]);
      0 in t.counters && t.counters[0] == Finished(false) && t.commits == r.commits && t.fields == r.fields
  {
    assert (actions + [Action(0, Die)])[..|actions|] == actions;
  }

  /** A reader without the lock that looks at the state first and at the list any time
      later finds every success it was told of. */
  lemma ReaderFindsItsSuccess(s: System, actions: seq<Action>, more: seq<Action>)
    requires Initial(s)
    ensures var seen := Run(s, actions).fields.lastOk;
      seen.Some? ==> HasTime(Run(s, actions + more).list, seen.value)
  {
    RunKeeps(s, actions);
    ListOnlyGrows(s, actions, more);
    Grows(Run(s, actions).list, Run(s, actions + more).list);
  }

  /** A reader that looks in the other order may be told of a success its list lacks. */
  lemma OtherReadingOrderFails()
    ensures exists s, more ::
      Initial(s) && Run(s, more).fields.lastOk.Some? && !HasTime(s.list, Run(s, more).fields.lastOk.value)
  {
    var s := LoneSnapshot();
    assert Initial(s) && !HasTime(s.list, 7) && s.counters.Keys <= s.programs.Keys;
    hide Run, Alone, Repeated, Initial, HasTime, LoneSnapshot;
    SnapshotAlone(s);
    RepeatedIsRun(s, 7);
    var more := Repeated(7);
    assert Initial(s) && Run(s, more).fields.lastOk.Some? && !HasTime(s.list, Run(s, more).fields.lastOk.value);
  }

  function LoneSnapshot(): System {
    System(map[0 := Snapshot(true)], map[0 := Ready], None, Fields(None, 0, 16, None, None, None), [], [], [])
  }

  /** `k` steps of process 0, all at time 7. */
  function Alone(s: System, k: nat): (r: System)
    requires s.counters.Keys <= s.programs.Keys
    ensures r.counters.Keys <= r.programs.Keys
  {
    if k == 0 then s else Next(Alone(s, k - 1), 0, Go(7, true))
  }

  function Repeated(k: nat): seq<Action> {
    if k == 0 then [] else Repeated(k - 1) + [Action(0, Go(7, true))]
  }

  lemma {:induction false} RepeatedIsRun(s: System, k: nat)
    requires s.counters.Keys <= s.programs.Keys
    ensures Run(s, Repeated(k)) == Alone(s, k)
  {
    hide Next;
    if k == 0 {
    } else {
      RepeatedIsRun(s, k - 1);
      assert Repeated(k)[..|Repeated(k)| - 1] == Repeated(k - 1);
    }
  }

  lemma {:induction false} AloneJoins(s: System, j: nat, k: nat)
    requires s.counters.Keys <= s.programs.Keys
    ensures Alone(s, j + k) == Alone(Alone(s, j), k)
  {
    if k == 0 {
    } else {
      AloneJoins(s, j, k - 1);
    }
  }

  lemma SnapshotAlone(s: System)
    requires s == LoneSnapshot()
    ensures Alone(s, 7).fields.lastOk == Some(7)
  {
    assert Alone(s, 1).counters[0] == Decided(Full);
    assert Alone(s, 2).counters[0] == Holding(Some(Full));
    AloneJoins(s, 2, 5);
    SnapshotCommits(Alone(s, 2));
  }

  lemma SnapshotCommits(s: System)
    requires s.counters.Keys <= s.programs.Keys && 0 in s.counters && s.counters[0] == Holding(Some(Full))
    ensures Alone(s, 5).fields.lastOk == Some(7)
  {
    var s1 := Next(s, 0, Go(7, true));
    assert Alone(s, 0) == s && Alone(s, 1) == s1 && s1.counters[0] == ListRead(Full, s.list);
    var s2 := Next(s1, 0, Go(7, true));
    assert Alone(s, 2) == s2 && s2.counters[0] == ListSaved(7);
    var s3 := Next(s2, 0, Go(7, true));
    assert Alone(s, 3) == s3 && s3.counters[0] == Loaded(SnapshotDone(7), s3.fields);
    var s4 := Next(s3, 0, Go(7, true));
    assert Alone(s, 4) == s4 && s4.counters[0].Changed? && s4.counters[0].fields.lastOk == Some(7);
  }
}
