/** Polling a container until Postgres answers, and creating its backup stanza while an
    archive push may hold the lock: which answers end the loop, and how. */
module Wait {
  import opened Text

  const NANOS := 1_000_000_000

  /** One `pg_isready`: it ran and exited, or Docker refused with a message. */
  datatype Poll = Exit(code: int) | Refused(message: string)

  datatype Verdict = Ready | Crashed | TimedOut | Failed(message: string)

  // ---------- What a poll means ----------

  predicate IsReady(p: Poll) {
    p.Exit? && p.code == 0
  }

  predicate Flapping(p: Poll) {
    p.Refused? && (Contains(p.message, "is restarting") || Contains(p.message, "status code 409"))
  }

  predicate Stopped(p: Poll) {
    p.Refused? && !Flapping(p) && Contains(p.message, "is not running")
  }

  predicate Fatal(p: Poll) {
    p.Refused? && !Flapping(p) && !Stopped(p)
  }

  const GIVE_UP := 5

  /** Polls `i - 4` to `i` all reported a stopped container. */
  predicate FiveStopped(poll: nat -> Poll, i: nat) {
    i >= GIVE_UP - 1 && forall k | i - (GIVE_UP - 1) <= k <= i :: Stopped(poll(k))
  }

  /** Something other than a ready answer ends the wait at poll `i`. */
  predicate GivesUp(poll: nat -> Poll, at: nat -> int, deadline: int, i: nat) {
    Fatal(poll(i)) || FiveStopped(poll, i) || at(i) >= deadline
  }

  function Deadline(start: int, seconds: nat): int {
    start + seconds * NANOS
  }

  /** Poll `i` is ready and nothing ended the wait before it. */
  predicate ReadyFirst(poll: nat -> Poll, at: nat -> int, deadline: int, i: nat) {
    IsReady(poll(i)) && forall j: nat | j < i :: !GivesUp(poll, at, deadline, j)
  }

  /** Readings one round apart are at least a second apart. */
  ghost predicate Paced(at: nat -> int, start: int) {
    at(0) >= start && forall i: nat, j: nat :: j == i + 1 ==> at(j) >= at(i) + NANOS
  }

  lemma {:induction false} PacedBound(at: nat -> int, start: int, i: nat)
    requires Paced(at, start)
    ensures at(i) >= start + i * NANOS
  {
    if i == 0 {
    } else {
      PacedBound(at, start, i - 1);
      assert at(i) >= at(i - 1) + NANOS;
    }
  }

  /** Main result: Ready exactly when a ready poll comes before the deadline, five stopped
      reports in a row, and any other error; and at most one poll a second, plus one. */
  method WaitForPgReady(seconds: nat, start: int, poll: nat -> Poll, at: nat -> int) returns (v: Verdict, polls: nat)
    requires Paced(at, start)
    ensures 1 <= polls <= seconds + 1
    ensures forall j: nat | j < polls - 1 ::
      !IsReady(poll(j)) && !GivesUp(poll, at, Deadline(start, seconds), j)
    ensures v == Ready <==> IsReady(poll(polls - 1))
    ensures v == Crashed <==> FiveStopped(poll, polls - 1)
    ensures v.Failed? <==> Fatal(poll(polls - 1))
    ensures v == TimedOut ==> at(polls - 1) >= Deadline(start, seconds)
    ensures v == Ready <==> exists i: nat :: ReadyFirst(poll, at, Deadline(start, seconds), i)
  {
    var deadline := Deadline(start, seconds);
    v, polls := PollUntil(seconds, deadline, start, poll, at);
    if v == Ready {
      assert ReadyFirst(poll, at, deadline, polls - 1);
    } else {
      assert GivesUp(poll, at, deadline, polls - 1);
    }
  }

  method PollUntil(seconds: nat, deadline: int, start: int, poll: nat -> Poll, at: nat -> int)
    returns (v: Verdict, polls: nat)
    requires Paced(at, start) && deadline == Deadline(start, seconds)
    ensures 1 <= polls <= seconds + 1
    ensures forall j: nat | j < polls - 1 :: !IsReady(poll(j)) && !GivesUp(poll, at, deadline, j)
    ensures v == Ready <==> IsReady(poll(polls - 1))
    ensures v == Crashed <==> FiveStopped(poll, polls - 1)
    ensures v.Failed? <==> Fatal(poll(polls - 1))
    ensures v == TimedOut ==> at(polls - 1) >= deadline
  {
    hide Contains, Paced;
    var stopped := 0;
    polls := 0;
    while true
      invariant polls <= seconds
      invariant forall j: nat | j < polls :: !IsReady(poll(j)) && !GivesUp(poll, at, deadline, j)
      invariant stopped <= polls && stopped < GIVE_UP
      invariant forall k | polls - stopped <= k < polls :: Stopped(poll(k))
      invariant stopped < polls ==> !Stopped(poll(polls - stopped - 1))
      decreases seconds - polls
    {
      var answer := poll(polls);
      polls := polls + 1;
      match answer {
        case Exit(code) =>
          if code == 0 {
            return Ready, polls;
          }
          stopped := 0;
        case Refused(message) =>
          if Contains(message, "is restarting") || Contains(message, "status code 409") {
            stopped := 0;
          } else if Contains(message, "is not running") {
            stopped := stopped + 1;
            if stopped >= GIVE_UP {
              return Crashed, polls;
            }
          } else {
            return Failed(message), polls;
          }
      }
      PacedBound(at, start, polls - 1);
      if at(polls - 1) >= deadline {
        return TimedOut, polls;
      }
    }
  }

  // ---------- Creating the stanza ----------

  /** One `stanza-create`: Docker failed, or it exited, perhaps saying the lock was busy. */
  datatype Stanza = Broken | Ended(code: int, lockBusy: bool)

  predicate Busy(s: Stanza) {
    s.Ended? && s.code != 0 && s.lockBusy
  }

  const ATTEMPTS := 5

  predicate CreatedAt(attempt: nat -> Stanza, i: nat) {
    attempt(i).Ended? && attempt(i).code == 0 && forall j: nat | j < i :: Busy(attempt(j))
  }

  /** Created exactly when one of the first five attempts succeeds and only a busy lock
      came before it; nothing else is retried. */
  method CreateStanza(attempt: nat -> Stanza) returns (ok: bool, tries: nat)
    ensures 1 <= tries <= ATTEMPTS && forall j: nat | j < tries - 1 :: Busy(attempt(j))
    ensures !ok && tries < ATTEMPTS ==> !Busy(attempt(tries - 1))
    ensures ok <==> exists i: nat :: i < ATTEMPTS && CreatedAt(attempt, i)
  {
    tries, ok := 0, false;
    while tries < ATTEMPTS
      invariant tries <= ATTEMPTS && !ok && forall j: nat | j < tries :: Busy(attempt(j))
    {
      var stanza := attempt(tries);
      tries := tries + 1;
      if stanza.Broken? {
        return;
      }
      if stanza.code == 0 {
        assert CreatedAt(attempt, tries - 1);
        ok := true;
        return;
      }
      if !stanza.lockBusy {
        return;
      }
    }
  }
}
