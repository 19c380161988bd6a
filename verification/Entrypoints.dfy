/** The entrypoint scripts of a clone and of a restore: clear, copy, mark, boot, with a
    crash possible between any two effects and any number of restarts on the same volume. */
module Entrypoints {

  datatype Kind = Cloning | Restoring

  /** The file whose presence skips the copy. */
  function Marker(kind: Kind): string {
    if kind.Cloning? then ".pgforge-clone-complete" else ".pgforge-restore-complete"
  }

  datatype Step = Clear | MakeDirectory | Own | OpenTarget | Copy | Mark | OwnMarker

  /** The guarded part of each script, in its own order. Opening the target is the copy
      tool's first act: `pg_basebackup` refuses a directory that is not empty. */
  function Script(kind: Kind): seq<Step> {
    if kind.Cloning?
    then [Clear, MakeDirectory, Own, OpenTarget, Copy, Mark, OwnMarker]
    else [MakeDirectory, Own, Clear, OpenTarget, Copy, Mark, OwnMarker]
  }

  datatype Pc = Down | Checking | At(i: nat) | Running

  /** `copied`: a copy returned success and nothing was cleared since.
      `misbooted`: Postgres was started once when that was not so. */
  datatype State = State(files: set<string>, copied: bool, pc: Pc, misbooted: bool)

  datatype Choice = Crash | Restart | CopyFile(f: string) | Finish(ok: bool, removed: set<string>) | Serve(files: set<string>)

  const BLANK := State({}, false, Down, false)

  function Boot(s: State): State {
    s.(pc := Running, misbooted := s.misbooted || !s.copied)
  }

  /** One effect of the script. Every failure ends it, except clearing: `|| true`. */
  function Do(kind: Kind, source: set<string>, s: State, i: nat, c: Choice): State
    requires i < |Script(kind)|
  {
    var step := Script(kind)[i];
    if step.Copy? && c.CopyFile? then
      if c.f in source then s.(files := s.files + {c.f}) else s
    else if step.Clear? then
      var left := if c.Finish? && !c.ok then s.files - c.removed else {};
      s.(files := left, copied := false, pc := At(i + 1))
    else if !c.Finish? || !c.ok then s.(pc := Down)
    else match step
      case OpenTarget => if kind.Cloning? && s.files != {} then s.(pc := Down) else s.(pc := At(i + 1))
      case Copy => if source <= s.files then s.(copied := true, pc := At(i + 1)) else s.(pc := Down)
      case Mark => s.(files := s.files + {Marker(kind)}, pc := At(i + 1))
      case OwnMarker => Boot(s)
      case _ => s.(pc := At(i + 1))
  }

  function Next(kind: Kind, source: set<string>, s: State, c: Choice): State {
    if s.pc.Down? then if c.Restart? then s.(pc := Checking) else s
    else if c.Crash? then s.(pc := Down)
    else match s.pc
      case Checking => if Marker(kind) in s.files then Boot(s) else s.(pc := At(0))
      case At(i) => if i < |Script(kind)| then Do(kind, source, s, i, c) else s
      case _ =>
        // The server writes whatever it likes, but has no business with the marker.
        if c.Serve? then s.(files := c.files - {Marker(kind)} + s.files * {Marker(kind)}) else s
  }

  function Run(kind: Kind, source: set<string>, s: State, choices: seq<Choice>): State {
    if choices == [] then s
    else Next(kind, source, Run(kind, source, s, choices[..|choices| - 1]), choices[|choices| - 1])
  }

  lemma {:induction false} RunJoins(kind: Kind, source: set<string>, s: State, a: seq<Choice>, b: seq<Choice>)
    ensures Run(kind, source, s, a + b) == Run(kind, source, Run(kind, source, s, a), b)
  {
    if b == [] {
      assert a + b == a;
    } else {
      assert (a + b)[..|a + b| - 1] == a + b[..|b| - 1];
      RunJoins(kind, source, s, a, b[..|b| - 1]);
    }
  }

  /** A marker means a finished copy; so does every point past the copy; and before the
      marker is set, none is there. */
  predicate Sound(kind: Kind, source: set<string>, s: State) {
    && (Marker(kind) in s.files ==> s.copied)
    && (s.pc.At? ==> s.pc.i < |Script(kind)|)
    && (s.pc.At? && s.pc.i <= 4 ==> Marker(kind) !in s.files)
    && (s.pc.At? && s.pc.i > 4 ==> s.copied && source <= s.files)
    && (s.pc.At? && s.pc.i == 4 && kind.Cloning? ==> s.files <= source)
    && (s.pc.At? && s.pc.i == 5 && kind.Cloning? ==> s.files == source)
    && (s.pc.Running? ==> s.copied)
    && !s.misbooted
  }

  lemma NextIsSound(kind: Kind, source: set<string>, s: State, c: Choice)
    requires Marker(kind) !in source && Sound(kind, source, s)
    ensures Sound(kind, source, Next(kind, source, s, c))
  {
  }

  /** Main result: from a blank volume, through any crashes and restarts, a marker means
      the copy finished, Postgres only boots on a finished copy, and a clone that is about
      to be marked holds exactly the source's files. */
  lemma {:induction false} BootsOnlyFinishedCopies(kind: Kind, source: set<string>, choices: seq<Choice>)
    requires Marker(kind) !in source
    ensures Sound(kind, source, Run(kind, source, BLANK, choices))
  {
    if choices == [] {
    } else {
      BootsOnlyFinishedCopies(kind, source, choices[..|choices| - 1]);
      NextIsSound(kind, source, Run(kind, source, BLANK, choices[..|choices| - 1]), choices[|choices| - 1]);
    }
  }

  const FINE := Finish(true, {})

  /** A crash just after the marker itself was copied, and a restart. */
  function Unlucky(kind: Kind): seq<Choice> {
    TO_COPY + [CopyFile(Marker(kind)), Crash, Restart, FINE]
  }

  lemma MarkedSourceMisboots(kind: Kind, source: set<string>)
    requires Marker(kind) in source
    ensures Run(kind, source, BLANK, Unlucky(kind)).misbooted
  {
    RunJoins(kind, source, BLANK, TO_COPY, [CopyFile(Marker(kind)), Crash, Restart, FINE]);
    ReachCopy(kind, source, BLANK);
    CopyMarkerAndCrash(kind, source, State({}, false, At(4), false));
  }

  const TO_COPY := [Restart, FINE, FINE, FINE, FINE, FINE]

  /** Six quiet choices take a stopped container without a marker to an empty target. */
  lemma ReachCopy(kind: Kind, source: set<string>, s: State)
    requires s.pc.Down? && Marker(kind) !in s.files
    ensures Run(kind, source, s, TO_COPY) == State({}, false, At(4), s.misbooted)
  {
    var r := TO_COPY;
    assert r[..5] == [Restart, FINE, FINE, FINE, FINE] && r[..5][..4] == [Restart, FINE, FINE, FINE];
    assert r[..5][..4][..3] == [Restart, FINE, FINE] && r[..5][..4][..3][..2] == [Restart, FINE];
    assert [Restart, FINE][..1] == [Restart] && [Restart][..0] == [];
    assert Run(kind, source, s, [Restart]) == s.(pc := Checking);
    assert Run(kind, source, s, [Restart, FINE]) == s.(pc := At(0));
    var s1 := Run(kind, source, s, [Restart, FINE, FINE]);
    assert s1 == if kind.Cloning? then State({}, false, At(1), s.misbooted) else s.(pc := At(1));
    var s2 := Run(kind, source, s, [Restart, FINE, FINE, FINE]);
    assert s2 == if kind.Cloning? then State({}, false, At(2), s.misbooted) else s.(pc := At(2));
    assert Run(kind, source, s, [Restart, FINE, FINE, FINE, FINE]) == State({}, false, At(3), s.misbooted);
  }

  lemma CopyMarkerAndCrash(kind: Kind, source: set<string>, s: State)
    requires Marker(kind) in source && s == State({}, false, At(4), false)
    ensures Run(kind, source, s, [CopyFile(Marker(kind)), Crash, Restart, FINE]).misbooted
  {
    var r := [CopyFile(Marker(kind)), Crash, Restart, FINE];
    assert r[..3] == [CopyFile(Marker(kind)), Crash, Restart] && r[..3][..2] == [CopyFile(Marker(kind)), Crash];
    assert r[..3][..2][..1] == [CopyFile(Marker(kind))] && [CopyFile(Marker(kind))][..0] == [];
    assert Run(kind, source, s, [CopyFile(Marker(kind))]) == s.(files := {Marker(kind)});
    assert Run(kind, source, s, [CopyFile(Marker(kind)), Crash]) == s.(files := {Marker(kind)}, pc := Down);
  }

  /** So the scripts are safe exactly for sources that hold no marker. A clone's or a
      restored instance's own data does hold one. */
  lemma SafeIff(kind: Kind, source: set<string>)
    ensures (forall choices: seq<Choice> :: !Run(kind, source, BLANK, choices).misbooted) <==> Marker(kind) !in source
  {
    if Marker(kind) in source {
      MarkedSourceMisboots(kind, source);
    } else {
      forall choices: seq<Choice>
        ensures !Run(kind, source, BLANK, choices).misbooted
      {
        BootsOnlyFinishedCopies(kind, source, choices);
      }
    }
  }

  // ---------- A single start ----------

  predicate NoRestart(choices: seq<Choice>) {
    forall i | 0 <= i < |choices| :: !choices[i].Restart?
  }

  /** What one start of a stopped container without a marker goes through. */
  predicate Honest(kind: Kind, s: State) {
    && (s.pc.Checking? ==> Marker(kind) !in s.files)
    && (s.pc.At? ==> s.pc.i < |Script(kind)| && (s.pc.i > 4 ==> s.copied))
    && (s.pc.Running? ==> s.copied)
  }

  lemma HonestNext(kind: Kind, source: set<string>, s: State, c: Choice)
    requires Honest(kind, s) && (s.pc.Down? && c.Restart? ==> Marker(kind) !in s.files)
    ensures Honest(kind, Next(kind, source, s, c))
  {
  }

  /** Without a second start the marker is never trusted wrongly, wherever the copied files
      came from: a server that boots does so on a finished copy. */
  lemma {:induction false} SingleStartIsHonest(kind: Kind, source: set<string>, s: State, choices: seq<Choice>)
    requires s.pc.Down? && Marker(kind) !in s.files && NoRestart(choices)
    ensures Honest(kind, Run(kind, source, s, [Restart] + choices))
  {
    var all := [Restart] + choices;
    if choices == [] {
      assert all[..0] == [] && Run(kind, source, s, all[..0]) == s;
      HonestNext(kind, source, s, Restart);
    } else {
      var front, last := choices[..|choices| - 1], choices[|choices| - 1];
      assert all[..|all| - 1] == [Restart] + front && all[|all| - 1] == last;
      SingleStartIsHonest(kind, source, s, front);
      HonestNext(kind, source, Run(kind, source, s, [Restart] + front), last);
      hide Honest, Next;
    }
  }

  lemma {:induction false} CopiesAll(kind: Kind, source: set<string>, s: State, copy: seq<Choice>)
    requires s.pc == At(4) && forall i | 0 <= i < |copy| :: copy[i].CopyFile?
    ensures Run(kind, source, s, copy).pc == At(4)
    ensures forall f | f in source && CopyFile(f) in copy :: f in Run(kind, source, s, copy).files
  {
    if copy == [] {
    } else {
      var front := copy[..|copy| - 1];
      CopiesAll(kind, source, s, front);
      assert copy == front + [copy[|copy| - 1]];
    }
  }

  function Quiet(copy: seq<Choice>): seq<Choice> {
    TO_COPY + (copy + [FINE, FINE, FINE])
  }

  /** A server that is up stays up while nothing crashes. */
  lemma {:induction false} StaysUp(kind: Kind, source: set<string>, s: State, choices: seq<Choice>)
    requires s.pc.Running? && forall i | 0 <= i < |choices| :: choices[i].CopyFile? || choices[i].Finish?
    ensures Run(kind, source, s, choices) == s
  {
    if choices == [] {
    } else {
      StaysUp(kind, source, s, choices[..|choices| - 1]);
    }
  }

  /** After any crashes and restarts, one restart without faults boots on a finished copy,
      whatever the earlier attempts left behind. */
  lemma QuietRestartBoots(kind: Kind, source: set<string>, before: seq<Choice>, copy: seq<Choice>)
    requires Marker(kind) !in source && Run(kind, source, BLANK, before).pc.Down?
    requires forall f | f in source :: CopyFile(f) in copy
    requires forall i | 0 <= i < |copy| :: copy[i].CopyFile?
    ensures var r := Run(kind, source, BLANK, before + Quiet(copy));
      r.pc.Running? && r.copied && !r.misbooted
  {
    BootsOnlyFinishedCopies(kind, source, before + Quiet(copy));
    var s := Run(kind, source, BLANK, before);
    RunJoins(kind, source, BLANK, before, Quiet(copy));
    if Marker(kind) in s.files {
      var rest := [FINE, FINE, FINE, FINE] + (copy + [FINE, FINE, FINE]);
      assert Quiet(copy) == [Restart, FINE] + rest;
      RunJoins(kind, source, s, [Restart, FINE], rest);
      assert [Restart, FINE][..1] == [Restart] && [Restart][..0] == [];
      assert Run(kind, source, s, [Restart]) == s.(pc := Checking);
      assert Run(kind, source, s, [Restart, FINE]) == Boot(s.(pc := Checking));
      StaysUp(kind, source, Run(kind, source, s, [Restart, FINE]), rest);
    } else {
      UnmarkedRestartBoots(kind, source, s, copy);
    }
  }

  lemma UnmarkedRestartBoots(kind: Kind, source: set<string>, s: State, copy: seq<Choice>)
    requires Marker(kind) !in s.files && s.pc.Down?
    requires forall f | f in source :: CopyFile(f) in copy
    requires forall i | 0 <= i < |copy| :: copy[i].CopyFile?
    ensures Run(kind, source, s, Quiet(copy)).pc.Running? && Run(kind, source, s, Quiet(copy)).copied
  {
    ReachCopy(kind, source, s);
    var empty := State({}, false, At(4), s.misbooted);
    RunJoins(kind, source, s, TO_COPY, copy + [FINE, FINE, FINE]);
    RunJoins(kind, source, empty, copy, [FINE, FINE, FINE]);
    CopiesAll(kind, source, empty, copy);
    var full := Run(kind, source, empty, copy);
    assert [FINE, FINE, FINE][..2] == [FINE, FINE] && [FINE, FINE][..1] == [FINE] && [FINE][..0] == [];
    assert Run(kind, source, full, [FINE]).pc == At(5);
    assert Run(kind, source, full, [FINE, FINE]).pc == At(6);
  }
}
