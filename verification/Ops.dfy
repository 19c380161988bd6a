/** Queued operations: how the dashboard writes one as a string, and how the
    runner takes the string apart again. */
module Ops {
  import opened Text

  datatype OpKind =
    | SnapshotKind | CloneKind | RotateKind | UpgradeKind | RestoreKind | DestroyKind | ResizeKind | CreateKind

  datatype Preset = Tiny | Small | Medium | Large

  datatype Operation =
    | Snapshot(name: string)
    | Clone(source: string, as_: string)
    | Rotate(name: string)
    | Upgrade(name: string, to: nat)
    | Restore(source: string, as_: string, target: Option<string>)
    | Destroy(name: string, deleteBackups: bool)
    | Resize(name: string, preset: Preset)
  {
    /** The instance the operation works on. */
    function Instance(): string {
      if Clone? || Restore? then source else name
    }

    /** The dashboard queues these only after a confirmation. */
    predicate Destructive() {
      Rotate? || Upgrade? || Restore? || Destroy? || Resize?
    }

    predicate WellNamed() {
      ValidName(Instance())
      && (Clone? || Restore? ==> ValidName(as_))
      && (Upgrade? ==> to <= 255)
    }
  }

  // ---------- Writing ----------

  function PresetName(p: Preset): string {
    match p
    case Tiny => "tiny"
    case Small => "small"
    case Medium => "medium"
    case Large => "large"
  }

  function Encode(op: Operation): (string, OpKind) {
    match op
    case Snapshot(name) => (name, SnapshotKind)
    case Clone(source, as_) => (source + ":" + as_, CloneKind)
    case Rotate(name) => (name, RotateKind)
    case Upgrade(name, to) => (name + "@" + Decimal(to), UpgradeKind)
    case Restore(source, as_, target) =>
      (if target.Some? then source + ":" + as_ + "@" + target.value else source + ":" + as_, RestoreKind)
    case Destroy(name, deleteBackups) => (if deleteBackups then name + "@delete" else name, DestroyKind)
    case Resize(name, preset) => (name + "@" + PresetName(preset), ResizeKind)
  }

  // ---------- Reading ----------

  function LowerChar(c: char): char {
    if 'A' <= c <= 'Z' then 'a' + (c - 'A') else c
  }

  function Lower(s: string): (r: string)
    ensures |r| == |s|
  {
    if s == [] then [] else [LowerChar(s[0])] + Lower(s[1..])
  }

  /** Preset names are matched without regard to ASCII case. */
  function ParsePreset(s: string): Option<Preset> {
    var l := Lower(s);
    if l == "tiny" then Some(Tiny)
    else if l == "small" then Some(Small)
    else if l == "medium" then Some(Medium)
    else if l == "large" then Some(Large)
    else None
  }

  function OrElse<T>(o: Option<T>, default: T): T {
    if o.Some? then o.value else default
  }

  function ParseAt(s: string): (string, nat) {
    var (name, suffix) := SplitAt(s, '@');
    (name, if suffix.Some? then OrElse(ParseU8(suffix.value), 0) else 0)
  }

  function ParseColon(s: string): (string, string) {
    var (left, right) := SplitAt(s, ':');
    (left, OrElse(right, ""))
  }

  function ParseColonAt(s: string): (string, string, Option<string>) {
    var (left, right) := ParseColon(s);
    var (as_, target) := SplitAt(right, '@');
    (left, as_, target)
  }

  /** What the runner starts; None when it reports an unreadable preset instead, and
      for creations, which travel in a queue of their own. */
  function Decode(encoded: string, kind: OpKind): Option<Operation> {
    match kind
    case SnapshotKind => Some(Snapshot(encoded))
    case RotateKind => Some(Rotate(encoded))
    case UpgradeKind => var (name, to) := ParseAt(encoded); Some(Upgrade(name, to))
    case CloneKind => var (source, as_) := ParseColon(encoded); Some(Clone(source, as_))
    case RestoreKind =>
      var (source, as_, target) := ParseColonAt(encoded);
      Some(Restore(source, as_, target))
    case DestroyKind =>
      var (name, suffix) := SplitAt(encoded, '@');
      Some(Destroy(name, OrElse(suffix, "") == "delete"))
    case ResizeKind =>
      var (name, suffix) := SplitAt(encoded, '@');
      var preset := ParsePreset(OrElse(suffix, ""));
      if preset.Some? then Some(Resize(name, preset.value)) else None
    case CreateKind => None
  }

  // ---------- Proofs ----------

  lemma {:induction false} LowerOfLower(s: string)
    requires forall i | 0 <= i < |s| :: !('A' <= s[i] <= 'Z')
    ensures Lower(s) == s
  {
    if s == [] {
    } else {
      LowerOfLower(s[1..]);
      assert s == [s[0]] + s[1..];
    }
  }

  lemma PresetRoundTrip(p: Preset)
    ensures ParsePreset(PresetName(p)) == Some(p)
  {
    LowerOfLower(PresetName(p));
  }

  lemma RestoreRoundTrip(source: string, as_: string, target: Option<string>)
    requires ':' !in source && '@' !in as_
    ensures ParseColonAt(Encode(Restore(source, as_, target)).0) == (source, as_, target)
  {
    var right := if target.Some? then as_ + "@" + target.value else as_;
    assert Encode(Restore(source, as_, target)).0 == source + ":" + right;
    SplitJoined(source, ':', right);
    if target.Some? {
      SplitJoined(as_, '@', target.value);
    } else {
      SplitAbsent(as_, '@');
    }
  }

  lemma DestroyRoundTrip(name: string, deleteBackups: bool)
    requires '@' !in name
    ensures Decode(Encode(Destroy(name, deleteBackups)).0, DestroyKind) == Some(Destroy(name, deleteBackups))
  {
    SplitAbsent(name, '@');
    SplitJoined(name, '@', "delete");
    assert name + "@delete" == name + ['@'] + "delete";
  }

  /** Main result: what was confirmed is what is run. The target time may hold any
      characters, the two separators included. */
  lemma RoundTrip(op: Operation)
    requires op.WellNamed()
    ensures Decode(Encode(op).0, Encode(op).1) == Some(op)
  {
    match op
    case Snapshot(_) =>
    case Rotate(_) =>
    case Clone(source, as_) => SplitJoined(source, ':', as_);
    case Upgrade(name, to) =>
      SplitJoined(name, '@', Decimal(to));
      ParseU8Decimal(to);
    case Restore(source, as_, target) => RestoreRoundTrip(source, as_, target);
    case Destroy(name, deleteBackups) => DestroyRoundTrip(name, deleteBackups);
    case Resize(name, preset) =>
      SplitJoined(name, '@', PresetName(preset));
      PresetRoundTrip(preset);
  }

  /** So no two operations share an encoding. */
  lemma EncodingIsInjective(a: Operation, b: Operation)
    requires a.WellNamed() && b.WellNamed() && Encode(a) == Encode(b)
    ensures a == b
  {
    RoundTrip(a);
    RoundTrip(b);
  }

  /** Exactly which clones survive the trip: those whose source has no colon. */
  lemma CloneRoundTripIff(source: string, as_: string)
    ensures Decode(Encode(Clone(source, as_)).0, CloneKind) == Some(Clone(source, as_)) <==> ':' !in source
  {
    if ':' !in source {
      SplitJoined(source, ':', as_);
    }
  }
}
