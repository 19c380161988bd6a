/** The dashboard's single-owner state: rows, one modal at most, and queues that the
    main loop drains. Every event is applied by a method of `AppState`; what it may
    queue and which modal follows is stated separately, and the invariant `Valid`
    says what every open modal promises about the row and the times it shows. */
module Dashboard {
  import opened Text
  import F = TextFields
  import O = Ops

  const U32_LIMIT := 0x1_0000_0000
  const NANOS := 1_000_000_000
  const MINUTE := 60 * NANOS

  datatype Row = Row(name: string, pgVersion: nat, presetLabel: string)

  datatype Key = Char(c: char) | Enter | Esc | Tab | BackTab | Backspace | Left | Right | Up | Down | OtherKey

  datatype Wizard = Wizard(
    name: F.Zipper, appUser: F.Zipper, pgVersion: F.Zipper,
    preset: O.Preset, noBackup: bool, retainDays: nat, hour: Option<nat>, focus: nat)

  datatype Modal =
    | ActionsMenu(name: string)
    | CloneAs(name: string, input: F.Zipper)
    | UpgradeTo(name: string, input: F.Zipper)
    | RestoreAs(name: string, input: F.Zipper, minutes: nat, focus: nat,
                earliest: Option<string>, uptimeCap: Option<nat>)
    | Confirm(op: O.Operation)
    | Snapshots(name: string)
    | ErrorDetail
    | Create(wizard: Wizard)
    | CreatedSuccess(name: string)
    | ConnectionString(name: string)
    | Help
    | ResizeTo(name: string, current: O.Preset, new_: O.Preset)
    | ScheduleEdit(name: string, before: Option<nat>, after: Option<nat>)
    | DestroyOptions(name: string, deleteBackups: bool)
  {
    /** The instance the modal is about, if it is about one. */
    function Bound(): Option<string> {
      if Confirm? then Some(op.Instance())
      else if ErrorDetail? || Create? || Help? then None
      else Some(name)
    }
  }

  datatype CreateRequest = CreateRequest(
    name: string, appUser: string, pgVersion: nat, preset: O.Preset,
    noBackup: bool, retainDays: nat, hour: Option<nat>)

  /** What the world answers while an event is applied. `hour` is the stored snapshot
      hour, None when state.toml cannot be read; `saved` says whether a write succeeds, and
      `uriKnown` whether an instance's connection string can be built. */
  datatype Env = Env(now: int, hour: Option<Option<nat>>, saved: bool, freshName: string, uriKnown: bool)

  datatype Event =
    | Pressed(key: Key)
    | InstancesListed(rows: seq<Row>)
    | StatusRefreshed(name: string, running: bool, uptimeSeconds: Option<nat>)
    | SnapshotsRefreshed(name: string, earliest: Option<string>)
    | OpStarted(name: string, kind: O.OpKind)
    | OpFinished(name: string, kind: O.OpKind, ok: bool)
    | Tick

  /** What the open-methods look at. */
  datatype View = View(
    rows: seq<Row>, selected: nat, earliest: map<string, Option<string>>,
    uptimes: map<string, Option<nat>>, busy: set<string>)
  {
    predicate SelectionOk() {
      if rows == [] then selected == 0 else selected < |rows|
    }

    function SelectedName(): Option<string> {
      if selected < |rows| then Some(rows[selected].name) else None
    }
  }

  /** What was on screen when a restore was submitted, and the instant it meant. */
  datatype Pick = Pick(minutes: nat, earliest: Option<string>, uptimeCap: Option<nat>, target: int)

  predicate Listed(rows: seq<Row>, name: string) {
    exists i :: 0 <= i < |rows| && rows[i].name == name
  }

  function Position(rows: seq<Row>, name: string): (i: nat)
    ensures i <= |rows|
    ensures i < |rows| ==> rows[i].name == name && forall j | 0 <= j < i :: rows[j].name != name
    ensures i == |rows| <==> !Listed(rows, name)
  {
    if rows == [] then 0
    else if rows[0].name == name then 0
    else
      var rest := Position(rows[1..], name);
      assert forall j | 0 < j < |rows| :: rows[j] == rows[1..][j - 1];
      assert forall j | 0 <= j < |rows| - 1 :: rows[1..][j] == rows[j + 1];
      rest + 1
  }

  function VersionOf(rows: seq<Row>, name: string): nat {
    var i := Position(rows, name);
    if i < |rows| then rows[i].pgVersion else 0
  }

  // ---------- Editing inside a modal ----------

  function SatAdd(m: nat, n: nat): nat {
    if m + n < U32_LIMIT then m + n else U32_LIMIT - 1
  }

  function SatMul(m: nat, n: nat): nat {
    if m * n < U32_LIMIT then m * n else U32_LIMIT - 1
  }

  function Min(m: nat, n: nat): nat {
    if m <= n then m else n
  }

  predicate IsControl(c: char) {
    c as int < 0x20 || 0x7F <= c as int < 0xA0
  }

  predicate DigitKey(k: Key) {
    k.Char? && IsDigit(k.c)
  }

  function Digit(k: Key): (d: nat)
    requires DigitKey(k)
    ensures d < 10
  {
    (k.c - '0') as nat
  }

  function FieldKey(z: F.Zipper, k: Key): F.Zipper {
    match k
    case Char(c) => if IsControl(c) then z else z.Press(F.Type(c))
    case Backspace => z.Press(F.Erase)
    case Left => z.Press(F.GoLeft)
    case Right => z.Press(F.GoRight)
    case _ => z
  }

  predicate HourOk(h: Option<nat>) {
    h.Some? ==> h.value <= 23
  }

  /** Off, 0, 1, ..., 23 and round again; backwards when `forward` is false. */
  function BumpHour(h: Option<nat>, forward: bool): Option<nat> {
    if h.None? then Some(if forward then 0 else 23)
    else if forward then if h.value >= 23 then None else Some(h.value + 1)
    else if h.value == 0 then None else Some(h.value - 1)
  }

  function TypeHour(h: Option<nat>, digit: nat): Option<nat> {
    Some(Min((if h.Some? then h.value else 0) * 10 + digit, 23))
  }

  /** Hours step through a cycle of off and the 24 hours; an hour past 23 is not on it. */
  lemma HourCycleIff(h: Option<nat>)
    ensures (BumpHour(BumpHour(h, true), false) == h && BumpHour(BumpHour(h, false), true) == h) <==> HourOk(h)
  {
  }

  function NextPreset(p: O.Preset): O.Preset {
    match p
    case Tiny => O.Small
    case Small => O.Medium
    case Medium => O.Large
    case Large => O.Tiny
  }

  function PrevPreset(p: O.Preset): O.Preset {
    match p
    case Tiny => O.Large
    case Small => O.Tiny
    case Medium => O.Small
    case Large => O.Medium
  }

  lemma PresetCycle(p: O.Preset)
    ensures PrevPreset(NextPreset(p)) == p && NextPreset(PrevPreset(p)) == p
  {
  }

  /** The minutes picker: arrows, space, digits and backspace under a cap. */
  function MinutesKey(minutes: nat, k: Key, cap: nat): nat {
    if k == Left then if minutes == 0 then 0 else minutes - 1
    else if k == Right then Min(SatAdd(minutes, 1), cap)
    else if k == Char(' ') then Min(SatAdd(minutes, 5), cap)
    else if k == Backspace then minutes / 10
    else if DigitKey(k) then Min(SatAdd(SatMul(minutes, 10), Digit(k)), cap)
    else minutes
  }

  function WizardText(w: Wizard, k: Key): Wizard {
    match w.focus
    case 0 => w.(name := FieldKey(w.name, k))
    case 1 => w.(appUser := FieldKey(w.appUser, k))
    case 2 => w.(pgVersion := FieldKey(w.pgVersion, k))
    case _ => w
  }

  function RetainKey(days: nat, k: Key): nat {
    if k == Char(' ') || k == Right then SatAdd(days, 1)
    else if k == Left then if days == 0 then 0 else days - 1
    else if k == Backspace then days / 10
    else if DigitKey(k) then SatAdd(SatMul(days, 10), Digit(k))
    else days
  }

  function HourKey(h: Option<nat>, k: Key): Option<nat> {
    if k == Char(' ') || k == Right then BumpHour(h, true)
    else if k == Left then BumpHour(h, false)
    else if k == Backspace then None
    else if DigitKey(k) then TypeHour(h, Digit(k))
    else h
  }

  function WizardKey(w: Wizard, k: Key): Wizard {
    if k == Tab then w.(focus := (w.focus + 1) % 7)
    else if k == BackTab then w.(focus := (w.focus + 6) % 7)
    else match w.focus
      case 3 =>
        if k == Char(' ') || k == Right then w.(preset := NextPreset(w.preset))
        else if k == Left then w.(preset := PrevPreset(w.preset))
        else w
      case 4 => if k == Char(' ') then w.(noBackup := !w.noBackup) else w
      case 5 => w.(retainDays := RetainKey(w.retainDays, k))
      case 6 => w.(hour := HourKey(w.hour, k))
      case _ => WizardText(w, k)
  }

  predicate WizardOk(w: Wizard) {
    w.focus < 7 && w.retainDays < U32_LIMIT && HourOk(w.hour)
  }

  lemma WizardStaysOk(w: Wizard, k: Key)
    requires WizardOk(w)
    ensures WizardOk(WizardKey(w, k))
  {
  }

  predicate AppUserOk(s: string) {
    s != [] && forall i | 0 <= i < |s| ::
      'a' <= s[i] <= 'z' || 'A' <= s[i] <= 'Z' || IsDigit(s[i]) || s[i] == '_'
  }

  predicate Acceptable(w: Wizard) {
    ValidName(w.name.Text())
    && ParseU8(w.pgVersion.Text()).Some? && ParseU8(w.pgVersion.Text()).value > 0
    && AppUserOk(w.appUser.Text())
  }

  function Request(w: Wizard): CreateRequest
    requires Acceptable(w)
  {
    CreateRequest(w.name.Text(), w.appUser.Text(), ParseU8(w.pgVersion.Text()).value,
                  w.preset, w.noBackup, w.retainDays, w.hour)
  }

  const MENU_KEYS := "scRptrdue"

  // ---------- What a key in a modal queues ----------

  function Queued(m: Option<Modal>, k: Key, busy: set<string>): Option<O.Operation> {
    if m.None? then None
    else match m.value
      case ActionsMenu(name) => if k == Char('s') && name !in busy then Some(O.Snapshot(name)) else None
      case CloneAs(name, input) =>
        if k == Enter && ValidName(input.Text()) then Some(O.Clone(name, input.Text())) else None
      case Confirm(op) => if k == Enter || k == Char('y') then Some(op) else None
      case _ => None
  }

  function Encoded(op: Option<O.Operation>): seq<(string, O.OpKind)> {
    if op.Some? then [O.Encode(op.value)] else []
  }

  function Requested(m: Option<Modal>, k: Key): seq<CreateRequest> {
    if m.Some? && m.value.Create? && k == Enter && Acceptable(m.value.wizard)
    then [Request(m.value.wizard)] else []
  }

  /** The schedule change written to state.toml. */
  function Written(m: Option<Modal>, k: Key): seq<(string, Option<nat>)> {
    if m.Some? && m.value.ScheduleEdit? && k == Enter && m.value.before != m.value.after
    then [(m.value.name, m.value.after)] else []
  }

  /** Explicit yeses to deleting backups since the destroy dialogue was opened. */
  function Toggled(m: Option<Modal>, k: Key, presses: nat): nat {
    if m.None? then presses
    else match m.value
      case ActionsMenu(_) => if k == Char('d') then 0 else presses
      case DestroyOptions(_, _) => if k == Char(' ') then presses + 1 else presses
      case Confirm(op) => if k == Char('D') && op.Destroy? && !op.deleteBackups then presses + 1 else presses
      case _ => presses
  }

  class AppState {
    const parse: string -> Option<int>
    const render: int -> string

    var instances: seq<Row>
    var selected: nat
    var earliest: map<string, Option<string>>
    var uptimes: map<string, Option<nat>>
    var up: map<string, bool>
    var inProgress: map<string, O.OpKind>
    var modal: Option<Modal>
    var lastError: Option<string>
    var shouldQuit: bool
    var pendingOps: seq<(string, O.OpKind)>
    var pendingCreates: seq<CreateRequest>
    var pendingClipboard: seq<string>
    var pendingShowCreated: seq<string>
    var refreshRequests: seq<string>
    var writes: seq<(string, Option<nat>)>

    ghost var clock: int
    ghost var presses: nat
    ghost var pick: Option<Pick>

    constructor (parse: string -> Option<int>, render: int -> string)
      ensures Valid() && fresh(this) && this.parse == parse && this.render == render
      ensures modal.None? && pendingOps == [] && pendingCreates == [] && instances == []
    {
      this.parse, this.render := parse, render;
      instances, selected, earliest, uptimes, up, inProgress := [], 0, map[], map[], map[], map[];
      modal, lastError, shouldQuit := None, None, false;
      pendingOps, pendingCreates, pendingClipboard := [], [], [];
      pendingShowCreated, refreshRequests, writes := [], [], [];
      clock, presses, pick := 0, 0, None;
    }

    ghost function Look(): View
      reads `instances, `selected, `earliest, `uptimes, `inProgress
    {
      View(instances, selected, earliest, uptimes, inProgress.Keys)
    }

    // ---------- The restore picker's cap ----------

    function PitrMax(from: Option<string>, now: int): Option<nat> {
      if from.None? || parse(from.value).None? then None
      else
        var gap := now - parse(from.value).value;
        if gap < NANOS then Some(0) else Some(gap / NANOS / 60 % U32_LIMIT)
    }

    function EffectiveCap(from: Option<string>, uptime: Option<nat>, now: int): nat {
      match (PitrMax(from, now), uptime)
      case (Some(a), Some(b)) => Min(a, b)
      case (Some(a), None) => a
      case (None, Some(b)) => b
      case (None, None) => 0
    }

    /** Going back `minutes` stays at or after the oldest backup and within the uptime. */
    predicate WithinCap(minutes: nat, from: Option<string>, uptime: Option<nat>, now: int) {
      minutes > 0 ==>
        && (from.Some? && parse(from.value).Some? ==> parse(from.value).value + minutes * MINUTE <= now)
        && (uptime.Some? ==> minutes <= uptime.value)
        && (uptime.Some? || (from.Some? && parse(from.value).Some?))
    }

    /** The picker's cap is safe: no number up to it reaches before the oldest backup. */
    lemma CapIsSafe(minutes: nat, from: Option<string>, uptime: Option<nat>, now: int)
      requires minutes <= EffectiveCap(from, uptime, now)
      ensures WithinCap(minutes, from, uptime, now)
    {
      if minutes > 0 && from.Some? && parse(from.value).Some? {
        var gap := now - parse(from.value).value;
        assert minutes <= gap / NANOS / 60;
      }
    }

    /** And it is the largest such number, unless the window exceeds 2^32 minutes and wraps. */
    lemma CapIsLargest(minutes: nat, from: Option<string>, uptime: Option<nat>, now: int)
      requires minutes < U32_LIMIT && (uptime.Some? ==> uptime.value < U32_LIMIT)
      requires from.Some? && parse(from.value).Some? ==> now - parse(from.value).value < U32_LIMIT * MINUTE
      ensures minutes <= EffectiveCap(from, uptime, now) <==> WithinCap(minutes, from, uptime, now)
    {
      if minutes <= EffectiveCap(from, uptime, now) {
        CapIsSafe(minutes, from, uptime, now);
      } else if from.Some? && parse(from.value).Some? {
        var gap := now - parse(from.value).value;
        if gap >= NANOS {
          assert gap / NANOS / 60 == gap / MINUTE < U32_LIMIT;
          assert minutes * MINUTE <= gap ==> minutes <= gap / MINUTE;
        }
      }
    }

    /** Every key in the picker keeps it within the cap. */
    lemma PickerStaysWithinCap(minutes: nat, k: Key, from: Option<string>, uptime: Option<nat>, now: int)
      requires WithinCap(minutes, from, uptime, now)
      ensures WithinCap(MinutesKey(minutes, k, EffectiveCap(from, uptime, now)), from, uptime, now)
    {
      var next := MinutesKey(minutes, k, EffectiveCap(from, uptime, now));
      if next <= minutes {
        assert next * MINUTE <= minutes * MINUTE;
      } else {
        CapIsSafe(next, from, uptime, now);
      }
    }

    predicate PickOk(p: Pick) {
      p.minutes > 0 ==>
        && (p.earliest.Some? && parse(p.earliest.value).Some? ==> parse(p.earliest.value).value <= p.target)
        && (p.uptimeCap.Some? ==> p.minutes <= p.uptimeCap.value)
    }

    lemma PickIsSound(minutes: nat, from: Option<string>, uptime: Option<nat>, now: int)
      requires WithinCap(minutes, from, uptime, now)
      ensures PickOk(Pick(minutes, from, uptime, now - minutes * MINUTE))
    {
    }

    function TargetText(p: Pick): Option<string> {
      if p.minutes == 0 then None else Some(render(p.target))
    }

    // ---------- The invariant ----------

    /** What an open modal promises. Modals opened by the main loop may name an instance
        that has just gone. */
    ghost predicate ModalOk(m: Modal, v: View, at: int) {
      match m
      case ActionsMenu(name) => v.SelectedName() == Some(name)
      case CreatedSuccess(_) => true
      case ConnectionString(_) => true
      case ErrorDetail => true
      case Help => true
      case Create(w) => WizardOk(w)
      case RestoreAs(name, _, minutes, focus, from, uptime) =>
        Listed(v.rows, name) && focus < 2 && WithinCap(minutes, from, uptime, at)
      case ScheduleEdit(name, before, after) => Listed(v.rows, name) && (HourOk(before) ==> HourOk(after))
      case Confirm(op) => Listed(v.rows, op.Instance()) && op.Destructive()
      case _ => Listed(v.rows, m.name)
    }

    /** What the modal owes to the keys pressed: deleting backups was toggled on, and a
        restore's target is the instant that was picked. */
    ghost predicate Earned(m: Modal)
      reads this`presses, this`pick
    {
      match m
      case DestroyOptions(_, deleteBackups) => deleteBackups == (presses % 2 == 1)
      case Confirm(op) =>
        && (op.Destroy? && op.deleteBackups ==> presses > 0)
        && (op.Restore? ==>
            ValidName(op.as_) && pick.Some? && PickOk(pick.value) && op.target == TargetText(pick.value))
        && (op.Upgrade? ==> op.to <= 255)
      case _ => true
    }

    ghost predicate Valid()
      reads this
    {
      Look().SelectionOk() && (modal.Some? ==> ModalOk(modal.value, Look(), clock) && Earned(modal.value))
    }

    // ---------- Which modal follows ----------

    /** A key that edits what the modal shows. */
    function Edited(m: Modal, k: Key, now: int): Modal {
      match m
      case CloneAs(name, input) => CloneAs(name, FieldKey(input, k))
      case UpgradeTo(name, input) => UpgradeTo(name, FieldKey(input, k))
      case RestoreAs(name, input, minutes, focus, from, uptime) =>
        if k == Tab then RestoreAs(name, input, minutes, (focus + 1) % 2, from, uptime)
        else if focus == 0 then RestoreAs(name, FieldKey(input, k), minutes, focus, from, uptime)
        else
          var next := MinutesKey(minutes, k, EffectiveCap(from, uptime, now));
          RestoreAs(name, input, next, focus, from, uptime)
      case Confirm(op) =>
        if k == Char('D') && op.Destroy? then Confirm(O.Destroy(op.name, true)) else m
      case Create(w) => Create(WizardKey(w, k))
      case ResizeTo(name, current, p) =>
        if k == Char(' ') || k == Right then ResizeTo(name, current, NextPreset(p))
        else if k == Left then ResizeTo(name, current, PrevPreset(p))
        else m
      case ScheduleEdit(name, before, h) => ScheduleEdit(name, before, HourKey(h, k))
      case DestroyOptions(name, d) => if k == Char(' ') then DestroyOptions(name, !d) else m
      case _ => m
    }

    /** In the fields that arrows step through, right and left undo each other exactly as
        long as an hour shown is one of the day. */
    lemma ArrowsUndoIff(m: Modal, now: int)
      requires m.ResizeTo? || m.ScheduleEdit? || (m.Create? && (m.wizard.focus == 3 || m.wizard.focus == 6))
      ensures (Edited(Edited(m, Right, now), Left, now) == m && Edited(Edited(m, Left, now), Right, now) == m) <==>
        (m.ScheduleEdit? ==> HourOk(m.after)) && (m.Create? && m.wizard.focus == 6 ==> HourOk(m.wizard.hour))
    {
      hide BumpHour, NextPreset, PrevPreset;
      match m
      case ResizeTo(_, _, p) => PresetCycle(p);
      case ScheduleEdit(_, _, h) => HourCycleIff(h);
      case Create(w) => PresetCycle(w.preset); HourCycleIff(w.hour);
      case _ =>
    }

    /** The operation a form puts up for confirmation. */
    function Offered(m: Modal, k: Key, rows: seq<Row>, now: int): Option<O.Operation> {
      if k != Enter then None
      else match m
        case DestroyOptions(name, d) => Some(O.Destroy(name, d))
        case UpgradeTo(name, input) =>
          var to := ParseU8(input.Text());
          if to.Some? && to.value > VersionOf(rows, name) then Some(O.Upgrade(name, to.value)) else None
        case RestoreAs(name, input, minutes, _, from, uptime) =>
          if ValidName(input.Text())
          then Some(O.Restore(name, input.Text(), TargetText(Pick(minutes, from, uptime, now - minutes * MINUTE))))
          else None
        case ResizeTo(name, before, after) => if before != after then Some(O.Resize(name, after)) else None
        case _ => None
    }

    /** Submitting the restore wizard fixes the instant meant, with the bounds it was picked under. */
    static function Picked(m: Modal, k: Key, now: int, before: Option<Pick>): Option<Pick> {
      if m.RestoreAs? && k == Enter && ValidName(m.input.Text())
      then Some(Pick(m.minutes, m.earliest, m.uptimeCap, now - m.minutes * MINUTE))
      else before
    }

    /** The modal a key opens from the actions menu on the selected row. */
    function Opened(k: Key, v: View, env: Env): Option<Modal> {
      if v.SelectedName().None? then None else
      var name := v.rows[v.selected].name;
      if k == Char('c') then Some(CloneAs(name, F.EMPTY_FIELD))
      else if k == Char('R') then Some(Confirm(O.Rotate(name)))
      else if k == Char('p') then
        var p := O.ParsePreset(v.rows[v.selected].presetLabel);
        if p.Some? then Some(ResizeTo(name, p.value, NextPreset(p.value))) else None
      else if k == Char('t') then
        if env.hour.Some? then Some(ScheduleEdit(name, env.hour.value, env.hour.value)) else None
      else if k == Char('r') then
        Some(RestoreAs(name, F.EMPTY_FIELD, 0, 0, OldestOf(v, name), UptimeCapOf(v, name)))
      else if k == Char('d') then Some(DestroyOptions(name, false))
      else if k == Char('u') then Some(UpgradeTo(name, F.EMPTY_FIELD))
      else if k == Char('e') then
        if name in v.earliest then Some(Snapshots(name)) else None
      else if k == Char('s') then None
      else Some(ActionsMenu(name))
    }

    static function OldestOf(v: View, name: string): Option<string> {
      if name in v.earliest then v.earliest[name] else None
    }

    static function UptimeCapOf(v: View, name: string): Option<nat> {
      if name in v.uptimes && v.uptimes[name].Some? then Some(v.uptimes[name].value / 60 % U32_LIMIT) else None
    }

    predicate Closes(m: Modal, k: Key) {
      || k == Esc
      || (m.Confirm? && (k == Enter || k == Char('y') || k == Char('n')))
      || (m.ScheduleEdit? && k == Enter)
      || (m.CloneAs? && k == Enter && ValidName(m.input.Text()))
      || (m.Create? && k == Enter && Acceptable(m.wizard))
      || (m.Help? && k == Char('?'))
    }

    /** The modal after a key in a modal: closed, put up for confirmation, opened from
        the menu, or edited. */
    function After(m: Modal, k: Key, v: View, env: Env): Option<Modal> {
      if Closes(m, k) then None
      else if m.ActionsMenu? then Opened(k, v, env)
      else if Offered(m, k, v.rows, env.now).Some? then Some(Confirm(Offered(m, k, v.rows, env.now).value))
      else if k == Enter then Some(m)
      else Some(Edited(m, k, env.now))
    }

    /** The instance an error is reported for when a submission is refused. */
    function Refused(m: Modal, k: Key, v: View, env: Env): Option<string> {
      if k != Enter then None
      else match m
        case CloneAs(name, input) => if ValidName(input.Text()) then None else Some(name)
        case UpgradeTo(name, _) => if Offered(m, k, v.rows, env.now).Some? then None else Some(name)
        case RestoreAs(name, input, _, _, _, _) => if ValidName(input.Text()) then None else Some(name)
        case Create(w) => if Acceptable(w) then None else Some("create wizard")
        case ResizeTo(name, before, after) => if before != after then None else Some(name)
        case ScheduleEdit(name, before, after) => if before == after || env.saved then None else Some(name)
        case _ => None
    }

    /** Main step lemma: the promises an open modal makes survive every key. */
    lemma PromisesSurviveKey(m: Modal, k: Key, v: View, env: Env)
      requires v.SelectionOk() && ModalOk(m, v, env.now)
      ensures After(m, k, v, env).Some? ==> ModalOk(After(m, k, v, env).value, v, env.now)
    {
      hide WizardKey, FieldKey, MinutesKey, EffectiveCap, ValidName, Acceptable, ParseU8, VersionOf, TargetText, WizardOk, NextPreset;
      match m
      case RestoreAs(_, _, minutes, _, from, uptime) => PickerStaysWithinCap(minutes, k, from, uptime, env.now);
      case Create(w) => WizardStaysOk(w, k);
      case ActionsMenu(name) => assert v.rows[v.selected].name == name;
      case _ =>
    }

    /** While a modal leads to another, it stays about the same instance. */
    lemma SameInstance(m: Modal, k: Key, v: View, env: Env)
      requires v.SelectionOk() && ModalOk(m, v, env.now)
      ensures After(m, k, v, env).Some? ==> After(m, k, v, env).value.Bound() == m.Bound()
    {
    }

    // ---------- Opening from the menu ----------

    method OpenSnapshotForSelected()
      modifies `pendingOps
      ensures pendingOps == old(pendingOps) +
        if selected < |instances| && instances[selected].name !in inProgress
        then [(instances[selected].name, O.SnapshotKind)] else []
    {
      if selected < |instances| && instances[selected].name !in inProgress {
        pendingOps := pendingOps + [(instances[selected].name, O.SnapshotKind)];
      }
    }

    method OpenCloneForSelected(env: Env)
      requires modal.None?
      modifies `modal
      ensures modal == Opened(Char('c'), Look(), env)
    {
      if selected < |instances| {
        modal := Some(CloneAs(instances[selected].name, F.EMPTY_FIELD));
      }
    }

    method OpenTimeForSelected(env: Env)
      requires modal.None?
      modifies `modal
      ensures modal == Opened(Char('t'), Look(), env)
    {
      if selected < |instances| && env.hour.Some? {
        modal := Some(ScheduleEdit(instances[selected].name, env.hour.value, env.hour.value));
      }
    }

    method OpenPresetForSelected(env: Env)
      requires modal.None?
      modifies `modal
      ensures modal == Opened(Char('p'), Look(), env)
    {
      if selected < |instances| {
        var row := instances[selected];
        var cur := O.ParsePreset(row.presetLabel);
        if cur.Some? {
          modal := Some(ResizeTo(row.name, cur.value, NextPreset(cur.value)));
        }
      }
    }

    method OpenRestoreForSelected(env: Env)
      requires modal.None?
      modifies `modal
      ensures modal == Opened(Char('r'), Look(), env)
    {
      if selected < |instances| {
        var name := instances[selected].name;
        var oldest := if name in earliest then earliest[name] else None;
        var cap := None;
        if name in uptimes && uptimes[name].Some? {
          cap := Some(uptimes[name].value / 60 % U32_LIMIT);
        }
        modal := Some(RestoreAs(name, F.EMPTY_FIELD, 0, 0, oldest, cap));
      }
    }

    method OpenRotateForSelected(env: Env)
      requires modal.None?
      modifies `modal
      ensures modal == Opened(Char('R'), Look(), env)
    {
      if selected < |instances| {
        modal := Some(Confirm(O.Rotate(instances[selected].name)));
      }
    }

    method OpenDestroyForSelected(env: Env)
      requires modal.None?
      modifies `modal, `presses
      ensures modal == Opened(Char('d'), Look(), env) && presses == 0
    {
      presses := 0;
      if selected < |instances| {
        modal := Some(DestroyOptions(instances[selected].name, false));
      }
    }

    method OpenUpgradeForSelected(env: Env)
      requires modal.None?
      modifies `modal
      ensures modal == Opened(Char('u'), Look(), env)
    {
      if selected < |instances| {
        modal := Some(UpgradeTo(instances[selected].name, F.EMPTY_FIELD));
      }
    }

    method OpenSnapshotsHistoryForSelected(env: Env)
      requires modal.None?
      modifies `modal
      ensures modal == Opened(Char('e'), Look(), env)
    {
      if selected < |instances| && instances[selected].name in earliest {
        modal := Some(Snapshots(instances[selected].name));
      }
    }

    method OpenCreateWizard(env: Env)
      modifies `modal
      ensures modal == Some(Create(FreshWizard(env.freshName)))
    {
      modal := Some(Create(FreshWizard(env.freshName)));
    }

    // ---------- Keys ----------

    /** What any key does: in a modal the modal takes it, and with none open it moves the
        selection, opens something, or leaves. */
    twostate predicate KeyTook(k: Key, env: Env)
      reads this
    {
      && pendingOps == old(pendingOps) + Encoded(Queued(old(modal), k, inProgress.Keys))
      && pendingCreates == old(pendingCreates) + Requested(old(modal), k)
      && writes == old(writes) + Written(old(modal), k)
      && presses == Toggled(old(modal), k, old(presses))
      && (if old(modal).Some? then
            && modal == After(old(modal).value, k, Look(), env)
            && lastError == Or(Refused(old(modal).value, k, Look(), env), old(lastError))
            && pick == Picked(old(modal).value, k, env.now, old(pick))
            && selected == old(selected) && pendingClipboard == old(pendingClipboard) && shouldQuit == old(shouldQuit)
          else GlobalTook(k, env))
    }

    twostate predicate GlobalTook(k: Key, env: Env)
      reads this
    {
      && modal == Launched(k, old(Look()), old(lastError).Some?, env)
      && lastError == (if k == Esc then None else old(lastError))
      && selected == MovedSelection(k, old(Look()))
      && shouldQuit == (old(shouldQuit) || k == Char('q'))
      && pendingClipboard == old(pendingClipboard) +
          if k == Enter && selected < |instances| then [instances[selected].name] else []
    }

    /** The modal a key opens when none is open. */
    static function Launched(k: Key, v: View, failed: bool, env: Env): Option<Modal> {
      if k == Char('?') then Some(if failed then ErrorDetail else Help)
      else if k == Char('n') then Some(Create(FreshWizard(env.freshName)))
      else if k == Char('a') && v.SelectedName().Some? then Some(ActionsMenu(v.SelectedName().value))
      else None
    }

    lemma LaunchedIsSound(k: Key, v: View, failed: bool, env: Env)
      ensures var m := Launched(k, v, failed, env);
        m.Some? ==> ModalOk(m.value, v, clock) && Earned(m.value)
      ensures !(k == Char('?') || k == Char('n') || k == Char('a')) ==> Launched(k, v, failed, env).None?
    {
    }

    static function FreshWizard(name: string): Wizard {
      Wizard(F.Zipper("", name), F.Zipper("", "app"), F.Zipper("", "18"), O.Small, true, 30, Some(3), 0)
    }

    method HandleKey(k: Key, env: Env)
      requires Valid() && env.now == clock
      modifies `selected, `modal, `lastError, `shouldQuit, `pendingOps, `pendingCreates, `pendingClipboard,
        `writes, `presses, `pick
      ensures Valid() && KeyTook(k, env)
    {
      if modal.Some? {
        hide Queued, Requested, Written, Toggled, After, Refused, Encoded, ModalOk, Earned;
        HandleModalKey(k, env);
      } else {
        HandleGlobalKey(k, env);
      }
    }

    method HandleGlobalKey(k: Key, env: Env)
      requires Valid() && modal.None?
      modifies `selected, `modal, `lastError, `shouldQuit, `pendingClipboard
      ensures Valid() && GlobalTook(k, env)
    {
      hide ModalOk, Earned, Launched, FreshWizard;
      LaunchedIsSound(k, Look(), lastError.Some?, env);
      if k == Down || k == Char('j') {
        SelectNext();
      } else if k == Up || k == Char('k') {
        selected := if selected == 0 then 0 else selected - 1;
      } else if k == Char('?') || k == Char('n') || k == Char('a') {
        LaunchModal(k, env);
      } else if k == Char('q') {
        shouldQuit := true;
      } else if k == Esc {
        lastError := None;
      } else if k == Enter {
        if selected < |instances| {
          pendingClipboard := pendingClipboard + [instances[selected].name];
        }
      }
    }

    method LaunchModal(k: Key, env: Env)
      requires modal.None? && (k == Char('?') || k == Char('n') || k == Char('a'))
      modifies `modal
      ensures modal == Launched(k, Look(), lastError.Some?, env)
    {
      if k == Char('?') {
        modal := Some(if lastError.Some? then ErrorDetail else Help);
      } else if k == Char('n') {
        OpenCreateWizard(env);
      } else if selected < |instances| {
        modal := Some(ActionsMenu(instances[selected].name));
      }
    }

    static function MovedSelection(k: Key, v: View): nat {
      if k == Down || k == Char('j') then if v.selected + 1 < |v.rows| then v.selected + 1 else v.selected
      else if k == Up || k == Char('k') then if v.selected > 0 then v.selected - 1 else 0
      else v.selected
    }

    method SelectNext()
      modifies `selected
      ensures selected == MovedSelection(Down, old(Look()))
    {
      if selected + 1 < |instances| {
        selected := selected + 1;
      }
    }

    /** What a key in a modal does to everything it may touch. */
    twostate predicate Took(k: Key, env: Env)
      requires old(modal).Some?
      reads this
    {
      && modal == After(old(modal).value, k, Look(), env)
      && pendingOps == old(pendingOps) + Encoded(Queued(old(modal), k, inProgress.Keys))
      && pendingCreates == old(pendingCreates) + Requested(old(modal), k)
      && writes == old(writes) + Written(old(modal), k)
      && presses == Toggled(old(modal), k, old(presses))
      && lastError == Or(Refused(old(modal).value, k, Look(), env), old(lastError))
      && pick == Picked(old(modal).value, k, env.now, old(pick))
      && (modal.Some? ==> Earned(modal.value))
    }

    static function Or(o: Option<string>, otherwise: Option<string>): Option<string> {
      if o.Some? then o else otherwise
    }

    method HandleModalKey(k: Key, env: Env)
      requires Valid() && env.now == clock && modal.Some?
      modifies `modal, `lastError, `pendingOps, `pendingCreates, `writes, `presses, `pick
      ensures Valid() && Took(k, env)
    {
      hide ModalOk, Earned, After, Queued, Encoded, Requested, Written, Toggled, Refused, Picked;
      PromisesSurviveKey(modal.value, k, Look(), env);
      if k == Esc {
        CloseModal(env);
      } else if modal.value.ActionsMenu? {
        HandleMenuKey(k, env);
      } else if modal.value.DestroyOptions? {
        HandleDestroyKey(k, env);
      } else if modal.value.Confirm? {
        HandleConfirmKey(k, env);
      } else if IsForm(modal.value) && k == Enter {
        SubmitModal(env);
      } else {
        HandleFormKey(k, env);
      }
    }

    method CloseModal(env: Env)
      requires modal.Some?
      modifies `modal
      ensures Took(Esc, env)
    {
      modal := None;
    }

    /** First step of destroy: space toggles, Enter goes on to the confirmation. */
    method HandleDestroyKey(k: Key, env: Env)
      requires modal.Some? && modal.value.DestroyOptions? && Earned(modal.value) && k != Esc
      modifies `modal, `presses
      ensures Took(k, env)
    {
      var name, deleteBackups := modal.value.name, modal.value.deleteBackups;
      if k == Char(' ') {
        modal := Some(DestroyOptions(name, !deleteBackups));
        presses := presses + 1;
      } else if k == Enter {
        modal := Some(Confirm(O.Destroy(name, deleteBackups)));
      }
    }

    method HandleConfirmKey(k: Key, env: Env)
      requires modal.Some? && modal.value.Confirm? && Earned(modal.value) && k != Esc
      modifies `modal, `pendingOps, `presses
      ensures Took(k, env)
    {
      hide ValidName, PickOk, TargetText, O.Encode;
      var op := modal.value.op;
      if k == Enter || k == Char('y') {
        ConfirmModal(true);
      } else if k == Char('n') {
        ConfirmModal(false);
      } else if k == Char('D') {
        if op.Destroy? && !op.deleteBackups {
          modal := Some(Confirm(O.Destroy(op.name, true)));
          presses := presses + 1;
        }
      }
    }

    method HandleFormKey(k: Key, env: Env)
      requires Valid() && env.now == clock && modal.Some? && k != Esc
      requires !modal.value.ActionsMenu? && !modal.value.DestroyOptions? && !modal.value.Confirm?
      requires IsForm(modal.value) ==> k != Enter
      modifies `modal
      ensures Took(k, env)
    {
      hide ModalOk, Edited, After, Queued, Refused, Requested, Written, Toggled, Picked;
      var m := modal.value;
      FormKeyOnlyEdits(m, k, Look(), env, presses, inProgress.Keys, pick);
      EditKeepsKind(m, k, env.now);
      if m.Help? && k == Char('?') {
        modal := None;
      } else if k != Enter {
        modal := Some(Edited(m, k, env.now));
      }
    }

    /** A key that neither submits nor confirms edits the modal and does nothing else. */
    lemma FormKeyOnlyEdits(m: Modal, k: Key, v: View, env: Env, presses: nat, busy: set<string>, pick: Option<Pick>)
      requires !m.ActionsMenu? && !m.DestroyOptions? && !m.Confirm? && k != Esc && (IsForm(m) ==> k != Enter)
      ensures After(m, k, v, env) ==
        if m.Help? && k == Char('?') then None else if k == Enter then Some(m) else Some(Edited(m, k, env.now))
      ensures Queued(Some(m), k, busy).None? && Refused(m, k, v, env).None? && Toggled(Some(m), k, presses) == presses
      ensures Requested(Some(m), k) == [] && Written(Some(m), k) == [] && Picked(m, k, env.now, pick) == pick
    {
      hide Edited, Opened;
    }

    lemma EditKeepsKind(m: Modal, k: Key, now: int)
      ensures var e := Edited(m, k, now);
        && (e.Confirm? <==> m.Confirm?) && (e.DestroyOptions? <==> m.DestroyOptions?)
        && e.Bound() == m.Bound()
    {
    }

    static predicate IsForm(m: Modal) {
      m.CloneAs? || m.UpgradeTo? || m.RestoreAs? || m.Create? || m.ScheduleEdit? || m.ResizeTo?
    }

    /** Each listed key closes the menu first, then opens what it stands for. */
    method HandleMenuKey(k: Key, env: Env)
      requires Valid() && modal.Some? && modal.value.ActionsMenu? && k != Esc
      modifies `modal, `pendingOps, `presses
      ensures Took(k, env)
    {
      hide Opened, Earned, ModalOk, After, Refused, Requested, Written, Picked;
      MenuNamesSelected(modal.value, Look(), clock);
      MenuKeyOnlyOpens(modal.value, k, Look(), env, pick);
      if k.Char? && k.c in MENU_KEYS {
        modal := None;
        OpenFor(k.c, env);
      }
    }

    lemma OtherKeysKeepMenu(k: Key, v: View, env: Env)
      requires v.SelectedName().Some?
      ensures !(k.Char? && k.c in MENU_KEYS) ==> Opened(k, v, env) == Some(ActionsMenu(v.SelectedName().value))
    {
    }

    lemma MenuNamesSelected(m: Modal, v: View, at: int)
      requires m.ActionsMenu? && ModalOk(m, v, at)
      ensures v.SelectedName() == Some(m.name)
    {
    }

    /** From the menu a key opens what it stands for, and nothing is submitted. */
    lemma MenuKeyOnlyOpens(m: Modal, k: Key, v: View, env: Env, pick: Option<Pick>)
      requires m.ActionsMenu? && v.SelectedName() == Some(m.name) && k != Esc
      ensures After(m, k, v, env) == Opened(k, v, env)
      ensures !(k.Char? && k.c in MENU_KEYS) ==> Opened(k, v, env) == Some(m)
      ensures Refused(m, k, v, env).None? && Requested(Some(m), k) == [] && Written(Some(m), k) == []
      ensures Picked(m, k, env.now, pick) == pick
    {
      OtherKeysKeepMenu(k, v, env);
    }

    method OpenFor(c: char, env: Env)
      requires modal.None? && c in MENU_KEYS
      modifies `modal, `pendingOps, `presses
      ensures modal == Opened(Char(c), Look(), env)
      ensures c != 's' || selected >= |instances| ==> pendingOps == old(pendingOps)
      ensures c == 's' && selected < |instances| ==>
        pendingOps == old(pendingOps) + Encoded(Queued(Some(ActionsMenu(instances[selected].name)), Char('s'), inProgress.Keys))
      ensures presses == if c == 'd' then 0 else old(presses)
      ensures modal.Some? ==> Earned(modal.value)
    {
      hide O.ParsePreset, NextPreset, OldestOf, UptimeCapOf, ValidName;
      match c {
        case 's' => OpenSnapshotForSelected();
        case 'c' => OpenCloneForSelected(env);
        case 'R' => OpenRotateForSelected(env);
        case 'p' => OpenPresetForSelected(env);
        case 't' => OpenTimeForSelected(env);
        case 'r' => OpenRestoreForSelected(env);
        case 'd' => OpenDestroyForSelected(env);
        case 'u' => OpenUpgradeForSelected(env);
        case _ => OpenSnapshotsHistoryForSelected(env);
      }
    }

    /** Enter in a form: queue it, put it up for confirmation, or refuse it and keep it open. */
    method SubmitModal(env: Env)
      requires modal.Some? && IsForm(modal.value)
      requires Earned(modal.value) && ModalOk(modal.value, Look(), env.now)
      modifies `modal, `lastError, `pendingOps, `pendingCreates, `writes, `pick
      ensures Took(Enter, env)
    {
      if modal.value.RestoreAs? {
        SubmitRestore(env);
      } else if modal.value.UpgradeTo? || modal.value.ResizeTo? {
        SubmitForConfirmation(env);
      } else {
        SubmitDirectly(env);
      }
    }

    method SubmitForConfirmation(env: Env)
      requires modal.Some? && (modal.value.UpgradeTo? || modal.value.ResizeTo?)
      modifies `modal, `lastError
      ensures Took(Enter, env)
    {
      hide Opened, Edited, VersionOf, ParseU8;
      match modal.value {
        case UpgradeTo(name, input) =>
          var current := VersionOf(instances, name);
          var to := ParseU8(input.Text());
          if to.Some? && to.value > current {
            modal := Some(Confirm(O.Upgrade(name, to.value)));
          } else {
            lastError := Some(name);
          }
        case ResizeTo(name, before, after) =>
          if before == after {
            lastError := Some(name);
          } else {
            modal := Some(Confirm(O.Resize(name, after)));
          }
      }
    }

    /** The restore wizard: zero minutes means the latest archived WAL, anything else an instant. */
    method SubmitRestore(env: Env)
      requires modal.Some? && modal.value.RestoreAs? && ModalOk(modal.value, Look(), env.now)
      modifies `modal, `lastError, `pick
      ensures Took(Enter, env)
    {
      var m := modal.value;
      var as_, at := m.input.Text(), env.now - m.minutes * MINUTE;
      PickIsSound(m.minutes, m.earliest, m.uptimeCap, env.now);
      hide ModalOk, PickOk, Opened, Edited, ValidName;
      if !ValidName(as_) {
        lastError := Some(m.name);
        return;
      }
      var target := None;
      if m.minutes != 0 {
        target := Some(render(at));
      }
      pick := Some(Pick(m.minutes, m.earliest, m.uptimeCap, at));
      modal := Some(Confirm(O.Restore(m.name, as_, target)));
    }

    method SubmitDirectly(env: Env)
      requires modal.Some? && (modal.value.CloneAs? || modal.value.Create? || modal.value.ScheduleEdit?)
      modifies `modal, `lastError, `pendingOps, `pendingCreates, `writes
      ensures Took(Enter, env)
    {
      hide Opened, Edited, ValidName, Acceptable, Request, O.Encode;
      match modal.value {
        case CloneAs(name, input) =>
          if ValidName(input.Text()) {
            pendingOps := pendingOps + [O.Encode(O.Clone(name, input.Text()))];
            modal := None;
          } else {
            lastError := Some(name);
          }
        case Create(w) =>
          if Acceptable(w) {
            pendingCreates := pendingCreates + [Request(w)];
            modal := None;
          } else {
            lastError := Some("create wizard");
          }
        case ScheduleEdit(name, before, after) =>
          if before != after {
            writes := writes + [(name, after)];
            if !env.saved {
              lastError := Some(name);
            }
          }
          modal := None;
      }
    }

    method ConfirmModal(yes: bool)
      requires modal.Some? && modal.value.Confirm?
      modifies `modal, `pendingOps
      ensures modal.None?
      ensures pendingOps == old(pendingOps) + if yes then [O.Encode(old(modal).value.op)] else []
    {
      if yes {
        pendingOps := pendingOps + [O.Encode(modal.value.op)];
      }
      modal := None;
    }

    // ---------- Events ----------

    lemma PromisesSurviveTime(m: Modal, v: View, at: int, later: int)
      requires ModalOk(m, v, at) && at <= later
      ensures ModalOk(m, v, later)
    {
    }

    /** A new list: stay on the same name if it is still there, else clamp; and close a
        modal whose instance has gone. */
    method ListInstances(rows: seq<Row>)
      requires Valid()
      modifies `instances, `selected, `modal
      ensures Valid() && instances == rows && selected == Reanchored(old(Look()), rows)
      ensures modal == if old(modal).Some? && Gone(old(modal).value, rows) then None else old(modal)
    {
      var previous := None;
      if selected < |instances| {
        previous := Some(instances[selected].name);
      }
      instances := rows;
      if previous.Some? && Position(rows, previous.value) < |rows| {
        selected := Position(rows, previous.value);
      } else if rows == [] {
        selected := 0;
      } else if selected >= |rows| {
        selected := |rows| - 1;
      }
      if modal.Some? && Gone(modal.value, rows) {
        modal := None;
      }
    }

    static function Reanchored(v: View, rows: seq<Row>): nat {
      if v.SelectedName().Some? && Listed(rows, v.SelectedName().value)
      then Position(rows, v.SelectedName().value)
      else if rows == [] then 0
      else Min(v.selected, |rows| - 1)
    }

    static predicate Gone(m: Modal, rows: seq<Row>) {
      m.Bound().Some? && Position(rows, m.Bound().value) == |rows|
    }

    method ApplyEvent(ev: Event, env: Env)
      requires Valid() && clock <= env.now
      modifies this
      ensures Valid() && clock == env.now
      ensures ev.Pressed? ==> KeyTook(ev.key, env) && instances == old(instances) && inProgress == old(inProgress)
      ensures !ev.Pressed? ==> Reported(ev)
    {
      if modal.Some? {
        PromisesSurviveTime(modal.value, Look(), clock, env.now);
      }
      clock := env.now;
      hide ModalOk, Earned, KeyTook, Reported;
      match ev {
        case Pressed(k) => HandleKey(k, env);
        case _ => ApplyReport(ev);
      }
    }

    /** What an event other than a key does: it queues no operation, and only a new list
        can move the selection or close a modal. */
    twostate predicate Reported(ev: Event)
      reads this
    {
      && pendingOps == old(pendingOps) && pendingCreates == old(pendingCreates) && writes == old(writes)
      && presses == old(presses) && pick == old(pick) && shouldQuit == old(shouldQuit)
      && modal == (if ev.InstancesListed? && old(modal).Some? && Gone(old(modal).value, ev.rows)
                   then None else old(modal))
      && (if ev.InstancesListed?
          then instances == ev.rows && selected == Reanchored(old(Look()), ev.rows)
          else instances == old(instances) && selected == old(selected))
      && inProgress == (match ev
                        case OpStarted(name, kind) => old(inProgress)[name := kind]
                        case OpFinished(name, _, _) => old(inProgress) - {name}
                        case _ => old(inProgress))
      && (ev.StatusRefreshed? ==>
          && uptimes == old(uptimes)[ev.name := ev.uptimeSeconds] && up == old(up)[ev.name := ev.running]
          && lastError == (if WentDown(old(up), ev.name, ev.running) then Some(ev.name) else old(lastError)))
      && (ev.OpFinished? ==>
          && refreshRequests == old(refreshRequests) +
              (if ev.ok && ev.kind != O.DestroyKind then [ev.name] else [])
          && pendingShowCreated == old(pendingShowCreated) +
              (if ev.ok && ev.kind == O.CreateKind then [ev.name] else [])
          && lastError == (if ev.ok then old(lastError) else Some(ev.name)))
    }

    method ApplyReport(ev: Event)
      requires Valid() && !ev.Pressed?
      modifies this
      ensures Valid() && clock == old(clock) && Reported(ev)
    {
      hide ModalOk, Earned, Gone, Reanchored, WentDown;
      ghost var before := Look();
      if ev.InstancesListed? {
        ListInstances(ev.rows);
      } else {
        ApplyUpdate(ev);
        if modal.Some? {
          PromisesNeedOnlyRows(modal.value, before, Look(), clock);
        }
      }
    }

    /** News about one instance. */
    method ApplyUpdate(ev: Event)
      requires !ev.Pressed? && !ev.InstancesListed?
      modifies `uptimes, `up, `lastError, `earliest, `inProgress, `refreshRequests, `pendingShowCreated
      ensures Reported(ev)
    {
      hide Gone, Reanchored, WentDown;
      match ev {
        case StatusRefreshed(name, running, uptimeSeconds) => RefreshStatus(name, running, uptimeSeconds);
        case SnapshotsRefreshed(name, oldest) => earliest := earliest[name := oldest];
        case OpStarted(name, kind) => inProgress := inProgress[name := kind];
        case OpFinished(name, kind, ok) => FinishOp(name, kind, ok);
        case Tick =>
      }
    }

    static predicate WentDown(up: map<string, bool>, name: string, running: bool) {
      name in up && up[name] && !running
    }

    /** A server that was up at the last refresh and is not any more raises an error. */
    method RefreshStatus(name: string, running: bool, uptimeSeconds: Option<nat>)
      modifies `uptimes, `up, `lastError
      ensures uptimes == old(uptimes)[name := uptimeSeconds] && up == old(up)[name := running]
      ensures lastError == if WentDown(old(up), name, running) then Some(name) else old(lastError)
    {
      if WentDown(up, name, running) {
        lastError := Some(name);
      }
      uptimes, up := uptimes[name := uptimeSeconds], up[name := running];
    }

    method FinishOp(name: string, kind: O.OpKind, ok: bool)
      modifies `inProgress, `refreshRequests, `pendingShowCreated, `lastError
      ensures inProgress == old(inProgress) - {name}
      ensures refreshRequests == old(refreshRequests) + if ok && kind != O.DestroyKind then [name] else []
      ensures pendingShowCreated == old(pendingShowCreated) + if ok && kind == O.CreateKind then [name] else []
      ensures lastError == if ok then old(lastError) else Some(name)
    {
      inProgress := inProgress - {name};
      if ok {
        if kind != O.DestroyKind {
          refreshRequests := refreshRequests + [name];
        }
        if kind == O.CreateKind {
          pendingShowCreated := pendingShowCreated + [name];
        }
      } else {
        lastError := Some(name);
      }
    }

    lemma PromisesNeedOnlyRows(m: Modal, v: View, w: View, at: int)
      requires ModalOk(m, v, at) && w.rows == v.rows && w.selected == v.selected
      ensures ModalOk(m, w, at)
    {
    }

    // ---------- The main loop ----------

    /** Why an operation was started: the modal and key that queued it, with the rows,
        the toggles and the restore pick of that moment. */
    ghost predicate Justified(d: Deed) {
      && Listed(d.rows, d.op.Instance())
      && (d.op.Destructive() ==> d.via == Confirm(d.op) && (d.key == Enter || d.key == Char('y')))
      && (d.op.Destroy? && d.op.deleteBackups ==> d.presses > 0)
      && (d.op.Upgrade? ==> d.op.to <= 255)
      && (d.op.Restore? ==>
          && ValidName(d.op.as_) && d.pick.Some? && PickOk(d.pick.value)
          && d.op.target == TargetText(d.pick.value))
      && (d.op.Clone? ==> ValidName(d.op.as_) && d.via.CloneAs? && d.via.name == d.op.source && d.key == Enter)
      && (d.op.Snapshot? ==> d.via == ActionsMenu(d.op.name) && d.key == Char('s'))
    }

    ghost function DeedOf(m: Option<Modal>, k: Key): seq<Deed>
      reads `instances, `inProgress, `presses, `pick
    {
      var op := Queued(m, k, inProgress.Keys);
      if op.Some? then [Deed(op.value, m.value, k, instances, presses, pick)] else []
    }

    lemma QueuedIsJustified(m: Modal, k: Key)
      requires ModalOk(m, Look(), clock) && Earned(m)
      ensures forall d | d in DeedOf(Some(m), k) :: Justified(d)
    {
    }

    lemma RequestedIsSound(m: Modal, k: Key)
      requires ModalOk(m, Look(), clock)
      ensures forall r | r in Requested(Some(m), k) :: RequestOk(r)
    {
    }

    /** What was started is what was justified, whatever the names and times look like. */
    lemma DeedRunsAsConfirmed(d: Deed)
      requires Justified(d) && forall i | 0 <= i < |d.rows| :: ValidName(d.rows[i].name)
      ensures O.Decode(O.Encode(d.op).0, O.Encode(d.op).1) == Some(d.op)
    {
      O.RoundTrip(d.op);
    }

    /** The text a started restore carries: none exactly when no minutes were picked. One
        that a reader of timestamps reads back as written names an instant no earlier than the
        oldest backup, and no further back than the uptime. */
    lemma TargetTextWithinBounds(d: Deed)
      requires Justified(d) && d.op.Restore?
      requires d.pick.value.minutes > 0 ==> parse(render(d.pick.value.target)) == Some(d.pick.value.target)
      ensures d.op.target.None? <==> d.pick.value.minutes == 0
      ensures d.op.target.Some? ==>
        && parse(d.op.target.value).Some?
        && var at, p := parse(d.op.target.value).value, d.pick.value;
        && (p.earliest.Some? && parse(p.earliest.value).Some? ==> parse(p.earliest.value).value <= at)
        && (p.uptimeCap.Some? ==> p.target + p.minutes * MINUTE - p.uptimeCap.value * MINUTE <= at)
    {
      var p := d.pick.value;
      if p.uptimeCap.Some? && p.minutes > 0 {
        assert p.minutes * MINUTE <= p.uptimeCap.value * MINUTE;
      }
    }

    /** Connection strings asked for with Enter are shown in a modal; the last one stays. */
    method ShowConnections(env: Env)
      modifies `modal, `lastError, `pendingClipboard
      ensures pendingClipboard == []
      ensures modal == if old(pendingClipboard) == [] || !env.uriKnown then old(modal)
        else Some(ConnectionString(old(pendingClipboard)[|old(pendingClipboard)| - 1]))
    {
      var names := pendingClipboard;
      pendingClipboard := [];
      for i := 0 to |names|
        invariant pendingClipboard == []
        invariant modal == if i == 0 || !env.uriKnown then old(modal) else Some(ConnectionString(names[i - 1]))
      {
        if env.uriKnown {
          modal := Some(ConnectionString(names[i]));
        } else {
          lastError := Some(names[i]);
        }
      }
    }

    method ShowCreated(env: Env)
      modifies `modal, `pendingShowCreated
      ensures pendingShowCreated == []
      ensures modal == if old(pendingShowCreated) == [] || !env.uriKnown then old(modal)
        else Some(CreatedSuccess(old(pendingShowCreated)[|old(pendingShowCreated)| - 1]))
    {
      var names := pendingShowCreated;
      pendingShowCreated := [];
      for i := 0 to |names|
        invariant pendingShowCreated == []
        invariant modal == if i == 0 || !env.uriKnown then old(modal) else Some(CreatedSuccess(names[i - 1]))
      {
        if env.uriKnown {
          modal := Some(CreatedSuccess(names[i]));
        }
      }
    }

    /** After each event the loop empties every queue. */
    method Drain(env: Env) returns (ops: seq<(string, O.OpKind)>, creates: seq<CreateRequest>)
      requires Valid()
      modifies `modal, `lastError, `pendingOps, `pendingCreates, `pendingClipboard, `pendingShowCreated,
        `refreshRequests
      ensures Valid() && ops == old(pendingOps) && creates == old(pendingCreates)
      ensures pendingOps == [] && pendingCreates == [] && pendingClipboard == [] && pendingShowCreated == []
    {
      ShownIsSound();
      hide ModalOk, Earned;
      ops, creates := pendingOps, pendingCreates;
      pendingOps, pendingCreates, refreshRequests := [], [], [];
      ShowConnections(env);
      ShowCreated(env);
    }

    lemma ShownIsSound()
      ensures forall name, v, at :: ModalOk(ConnectionString(name), v, at) && ModalOk(CreatedSuccess(name), v, at)
      ensures forall name :: Earned(ConnectionString(name)) && Earned(CreatedSuccess(name))
    {
    }

    /** One turn of the loop: apply an event and hand over what it queued. */
    method Turn(ev: Event, env: Env)
      returns (ops: seq<(string, O.OpKind)>, creates: seq<CreateRequest>, ghost deeds: seq<Deed>)
      requires Valid() && clock <= env.now && pendingOps == [] && pendingCreates == []
      modifies this
      ensures Valid() && clock == env.now && pendingOps == [] && pendingCreates == []
      ensures |ops| == |deeds| && forall i | 0 <= i < |deeds| :: ops[i] == O.Encode(deeds[i].op)
      ensures forall d | d in deeds :: Justified(d)
      ensures forall r | r in creates :: RequestOk(r)
    {
      deeds := [];
      if modal.Some? && ev.Pressed? {
        Evidence(modal.value, ev.key, env.now);
        deeds := DeedOf(modal, ev.key);
      }
      hide ModalOk, Earned, Justified, RequestOk, After, Refused, Written, Toggled, GlobalTook, O.Encode;
      ApplyEvent(ev, env);
      ops, creates := Drain(env);
    }

    lemma Evidence(m: Modal, k: Key, later: int)
      requires ModalOk(m, Look(), clock) && Earned(m) && clock <= later
      ensures forall d | d in DeedOf(Some(m), k) :: Justified(d)
      ensures forall r | r in Requested(Some(m), k) :: RequestOk(r)
    {
      QueuedIsJustified(m, k);
      RequestedIsSound(m, k);
    }

    /** Main result: over any run, every started operation was justified by a key at a
        modal, and every creation request is one `create` accepts. */
    method RunLoop(events: seq<(Event, Env)>)
      returns (started: seq<(string, O.OpKind)>, creates: seq<CreateRequest>, ghost deeds: seq<Deed>)
      requires Valid() && pendingOps == [] && pendingCreates == []
      requires forall i | 0 <= i < |events| :: clock <= events[i].1.now
      requires forall i, j | 0 <= i < j < |events| :: events[i].1.now <= events[j].1.now
      modifies this
      ensures Valid()
      ensures |started| == |deeds| && forall i | 0 <= i < |deeds| :: started[i] == O.Encode(deeds[i].op)
      ensures forall d | d in deeds :: Justified(d)
      ensures forall r | r in creates :: RequestOk(r)
    {
      hide Valid, Justified, RequestOk;
      started, creates, deeds := [], [], [];
      var i := 0;
      while i < |events| && !shouldQuit
        invariant 0 <= i <= |events|
        invariant Valid() && pendingOps == [] && pendingCreates == []
        invariant forall j | i <= j < |events| :: clock <= events[j].1.now
        invariant |started| == |deeds| && forall j | 0 <= j < |deeds| :: started[j] == O.Encode(deeds[j].op)
        invariant forall d | d in deeds :: Justified(d)
        invariant forall r | r in creates :: RequestOk(r)
      {
        var ops, requests;
        ghost var more;
        ops, requests, more := Turn(events[i].0, events[i].1);
        started, creates, deeds := started + ops, creates + requests, deeds + more;
        i := i + 1;
      }
    }
  }

  datatype Deed = Deed(op: O.Operation, via: Modal, key: Key, rows: seq<Row>, presses: nat, pick: Option<Pick>)

  predicate RequestOk(r: CreateRequest) {
    ValidName(r.name) && 1 <= r.pgVersion <= 255 && AppUserOk(r.appUser) && HourOk(r.hour) && r.retainDays < U32_LIMIT
  }
}
