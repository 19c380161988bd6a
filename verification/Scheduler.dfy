/** The snapshot scheduler over a nondecreasing clock: which instances a tick
    snapshots, what it records, and what that means over all ticks together. */
module Scheduler {
  import opened Text
  import T = Timestamp

  const HOUR := 3600

  /** What state.toml says about an instance's snapshots. */
  datatype Plan = Plan(enabled: bool, hour: Option<nat>, ok: Option<string>, attempt: Option<string>)

  /** One recorded attempt. A scheduled one is decided on at `decided`, when `seen`
      entries were there, and starts at `start`. */
  datatype Entry = Entry(
    name: string, scheduled: bool, hour: nat, decided: int, start: int, finish: int, success: bool, seen: nat)

  function Iso(t: int): (s: string)
    requires T.InRange(t)
    ensures T.ParseIso(s) == Some(t)
  {
    T.IsoRoundTrip(t);
    T.EpochToIso(t)
  }

  // ---------- The decision ----------

  /** `zoned` is the reading the local date and hour come from, `now` the later one the
      back-off is measured with. */
  predicate IsSnapshotDue(hour: nat, ok: Option<string>, attempt: Option<string>,
                          date: int -> int, secondOfDay: int -> nat, zoned: int, now: int) {
    && secondOfDay(zoned) >= hour * HOUR
    && (ok.Some? ==> T.ParseIso(ok.value).Some? && date(T.ParseIso(ok.value).value) != date(zoned))
    && (attempt.Some? && T.ParseIso(attempt.value).Some? ==>
        var age := now - T.ParseIso(attempt.value).value;
        (if age > 0 then age else 0) >= HOUR)
  }

  /** An attempt is newer than the last success, by comparing the strings. */
  predicate BackupFailing(p: Plan) {
    p.enabled && p.attempt.Some? && (p.ok.Some? ==> Less(p.ok.value, p.attempt.value))
  }

  // ---------- The history of an instance ----------

  predicate Matches(e: Entry, name: string, successOnly: bool) {
    e.name == name && (successOnly ==> e.success)
  }

  function Last(log: seq<Entry>, name: string, successOnly: bool): (t: Option<int>)
    ensures t.None? <==> forall i | 0 <= i < |log| :: !Matches(log[i], name, successOnly)
    ensures t.Some? ==> exists i :: 0 <= i < |log| && Matches(log[i], name, successOnly) && log[i].finish == t.value
  {
    if log == [] then None
    else if Matches(log[|log| - 1], name, successOnly) then Some(log[|log| - 1].finish)
    else
      assert forall i | 0 <= i < |log| - 1 :: log[..|log| - 1][i] == log[i];
      Last(log[..|log| - 1], name, successOnly)
  }

  predicate InOrder(log: seq<Entry>, clock: int) {
    && (forall i | 0 <= i < |log| ::
          log[i].decided <= log[i].start <= log[i].finish <= clock && T.InRange(log[i].finish) && log[i].seen <= i)
    && (forall i, j | 0 <= i < j < |log| :: log[i].finish <= log[j].finish)
    && (forall i | 0 <= i < |log| :: log[i].scheduled || log[i].success)
    && (forall i, j | 0 <= i < j < |log| && log[i].scheduled && log[j].scheduled :: i < log[j].seen)
  }

  /** The stored strings show the last success and the last recorded attempt. */
  predicate Shows(log: seq<Entry>, name: string, p: Plan) {
    && ShowsTime(p.ok, Last(log, name, true))
    && ShowsTime(p.attempt, Last(log, name, false))
  }

  predicate ShowsTime(s: Option<string>, t: Option<int>) {
    (s.Some? <==> t.Some?) && (s.Some? ==> T.InRange(t.value) && s.value == Iso(t.value))
  }

  ghost predicate Monotone(date: int -> int) {
    forall s: int, t: int :: s <= t ==> date(s) <= date(t)
  }

  lemma {:induction false} LastIsLatest(log: seq<Entry>, name: string, successOnly: bool, clock: int, i: nat)
    requires InOrder(log, clock) && i < |log| && Matches(log[i], name, successOnly)
    ensures Last(log, name, successOnly).Some? && log[i].finish <= Last(log, name, successOnly).value <= clock
  {
    if Matches(log[|log| - 1], name, successOnly) {
    } else {
      var front := log[..|log| - 1];
      assert forall j | 0 <= j < |front| :: front[j] == log[j];
      assert InOrder(front, clock);
      LastIsLatest(front, name, successOnly, clock, i);
    }
  }

  /** An attempt is due exactly when the hour has come, no success has finished on
      today's date, and nothing was recorded within the last hour. */
  lemma DueIff(log: seq<Entry>, name: string, p: Plan, hour: nat, clock: int,
               date: int -> int, secondOfDay: int -> nat, zoned: int, now: int)
    requires InOrder(log, clock) && Shows(log, name, p) && Monotone(date) && clock <= zoned <= now
    ensures IsSnapshotDue(hour, p.ok, p.attempt, date, secondOfDay, zoned, now) <==>
      && secondOfDay(zoned) >= hour * HOUR
      && (forall i | 0 <= i < |log| && Matches(log[i], name, true) :: date(log[i].finish) < date(zoned))
      && (forall i | 0 <= i < |log| && Matches(log[i], name, false) :: log[i].finish + HOUR <= now)
  {
    hide T.ParseIso, T.InRange, Iso;
    forall i | 0 <= i < |log| && Matches(log[i], name, true)
      ensures Last(log, name, true).Some? && date(log[i].finish) <= date(Last(log, name, true).value) <= date(zoned)
    {
      LastIsLatest(log, name, true, clock, i);
    }
    forall i | 0 <= i < |log| && Matches(log[i], name, false)
      ensures Last(log, name, false).Some? && log[i].finish <= Last(log, name, false).value
    {
      LastIsLatest(log, name, false, clock, i);
    }
    hide InOrder;
  }

  /** Entry `i` is a failed scheduled attempt, at a later second than every success. */
  predicate FailedSince(log: seq<Entry>, name: string, i: int) {
    && 0 <= i < |log| && log[i].name == name && log[i].scheduled && !log[i].success
    && forall j | 0 <= j < |log| && Matches(log[j], name, true) :: log[j].finish < log[i].finish
  }

  /** Main result: an instance with backups on reads as failing exactly when a scheduled
      attempt failed at a later second than every success. */
  lemma FailingIff(log: seq<Entry>, name: string, p: Plan, clock: int)
    requires InOrder(log, clock) && Shows(log, name, p) && p.enabled
    ensures BackupFailing(p) <==> exists i :: FailedSince(log, name, i)
  {
    var ok, attempt := Last(log, name, true), Last(log, name, false);
    if ok.Some? && attempt.Some? {
      T.IsoOrder(ok.value, attempt.value);
    }
    if BackupFailing(p) {
      var i :| 0 <= i < |log| && Matches(log[i], name, false) && log[i].finish == attempt.value;
      forall j | 0 <= j < |log| && Matches(log[j], name, true)
        ensures log[j].finish < log[i].finish
      {
        LastIsLatest(log, name, true, clock, j);
      }
      assert !Matches(log[i], name, true);
      assert FailedSince(log, name, i);
    }
    if i :| FailedSince(log, name, i) {
      assert Matches(log[i], name, false);
      LastIsLatest(log, name, false, clock, i);
    }
  }

  // ---------- What holds over all ticks ----------

  /** No scheduled attempt is made before its hour. */
  predicate Punctual(log: seq<Entry>, secondOfDay: int -> nat) {
    forall i | 0 <= i < |log| && log[i].scheduled :: secondOfDay(log[i].decided) >= log[i].hour * HOUR
  }

  /** A scheduled attempt is made on a later local date than any success it could see... */
  predicate OncePerDate(log: seq<Entry>, date: int -> int) {
    forall i, j | 0 <= i < j < |log| && log[j].scheduled && i < log[j].seen
      && log[i].name == log[j].name && log[i].success :: date(log[i].finish) < date(log[j].decided)
  }

  /** ...and starts at least an hour after anything recorded before. */
  predicate BacksOff(log: seq<Entry>) {
    forall i, j | 0 <= i < j < |log| && log[j].scheduled && i < log[j].seen
      && log[i].name == log[j].name :: log[i].finish + HOUR <= log[j].start
  }

  /** Scheduled successes of an instance finish on strictly increasing local dates. */
  lemma ScheduledDatesIncrease(log: seq<Entry>, clock: int, date: int -> int, i: nat, j: nat)
    requires InOrder(log, clock) && OncePerDate(log, date) && Monotone(date) && i < j < |log|
    requires log[i].scheduled && log[i].success && log[j].scheduled && log[i].name == log[j].name
    ensures date(log[i].finish) < date(log[j].finish)
  {
    assert date(log[j].decided) <= date(log[j].finish);
  }

  // ---------- One more entry ----------

  predicate History(log: seq<Entry>, clock: int, date: int -> int, secondOfDay: int -> nat) {
    InOrder(log, clock) && Punctual(log, secondOfDay) && OncePerDate(log, date) && BacksOff(log)
  }

  /** The entry may come next: it ends now or later, and if it was scheduled, it was due
      at what it had seen, which includes every scheduled entry. */
  predicate MayFollow(e: Entry, log: seq<Entry>, clock: int, date: int -> int, secondOfDay: int -> nat) {
    && e.decided <= e.start <= e.finish && clock <= e.finish && T.InRange(e.finish)
    && e.seen <= |log| && (e.scheduled || e.success)
    && (e.scheduled ==>
        && secondOfDay(e.decided) >= e.hour * HOUR
        && (forall i | 0 <= i < |log| && log[i].scheduled :: i < e.seen)
        && (forall i | 0 <= i < e.seen && Matches(log[i], e.name, true) :: date(log[i].finish) < date(e.decided))
        && (forall i | 0 <= i < e.seen && Matches(log[i], e.name, false) :: log[i].finish + HOUR <= e.start))
  }

  lemma HistoryGrows(log: seq<Entry>, e: Entry, clock: int, date: int -> int, secondOfDay: int -> nat)
    requires History(log, clock, date, secondOfDay) && MayFollow(e, log, clock, date, secondOfDay)
    ensures History(log + [e], e.finish, date, secondOfDay)
  {
    hide T.InRange;
  }

  /** A success is noted in both fields, a failure in the second. */
  function Noted(p: Plan, finish: int, success: bool): Plan
    requires T.InRange(finish)
  {
    if success then p.(ok := Some(Iso(finish)), attempt := Some(Iso(finish)))
    else p.(attempt := Some(Iso(finish)))
  }

  lemma ShowsGrows(log: seq<Entry>, e: Entry, name: string, p: Plan)
    requires Shows(log, name, p) && T.InRange(e.finish)
    ensures Shows(log + [e], name, if name == e.name then Noted(p, e.finish, e.success) else p)
  {
    hide T.InRange, Iso;
    assert (log + [e])[..|log|] == log;
  }

  lemma EveryPlanShows(plans: map<string, Plan>, log: seq<Entry>, e: Entry)
    requires T.InRange(e.finish) && e.name in plans
    requires forall name | name in plans :: Shows(log, name, plans[name])
    ensures var next := plans[e.name := Noted(plans[e.name], e.finish, e.success)];
      forall name | name in next :: Shows(log + [e], name, next[name])
  {
    hide T.InRange, Iso, Shows, Noted;
    var next := plans[e.name := Noted(plans[e.name], e.finish, e.success)];
    forall name | name in next
      ensures Shows(log + [e], name, next[name])
    {
      ShowsGrows(log, e, name, plans[name]);
    }
  }

  /** What one instance's turn in a tick meets: the two clock readings of the decision,
      snapshots taken by hand while the scheduled one runs, its end, and its outcome. */
  datatype Visit = Visit(zoned: int, now: int, byHand: seq<(string, int)>, finish: int, ok: bool)

  predicate Plausible(v: Visit, clock: int) {
    && clock <= v.zoned <= v.now <= v.finish
    && (forall i | 0 <= i < |v.byHand| :: v.now <= v.byHand[i].1 <= v.finish && T.InRange(v.byHand[i].1))
    && (forall i, j | 0 <= i < j < |v.byHand| :: v.byHand[i].1 <= v.byHand[j].1)
    && T.InRange(v.finish)
  }

  function Successes(log: seq<Entry>): nat {
    if log == [] then 0
    else Successes(log[..|log| - 1]) + if log[|log| - 1].scheduled && log[|log| - 1].success then 1 else 0
  }

  lemma {:induction false} OnlyScheduledCount(log: seq<Entry>, more: seq<Entry>)
    requires forall i | 0 <= i < |more| :: !more[i].scheduled
    ensures Successes(log + more) == Successes(log)
  {
    if more == [] {
      assert log + more == log;
    } else {
      OnlyScheduledCount(log, more[..|more| - 1]);
      assert (log + more)[..|log + more| - 1] == log + more[..|more| - 1];
    }
  }

  lemma ScheduledCounts(seen: seq<Entry>, later: seq<Entry>, e: Entry)
    requires seen <= later && e.scheduled && forall i | |seen| <= i < |later| :: !later[i].scheduled
    ensures Successes(later + [e]) == Successes(seen) + if e.success then 1 else 0
  {
    OnlyScheduledCount(seen, later[|seen|..]);
    assert seen + later[|seen|..] == later;
    assert (later + [e])[..|later|] == later;
  }

  class Agent {
    const date: int -> int
    const secondOfDay: int -> nat

    var plans: map<string, Plan>

    ghost var log: seq<Entry>
    ghost var clock: int

    ghost predicate Valid()
      reads this
    {
      && History(log, clock, date, secondOfDay) && Monotone(date)
      && forall name | name in plans :: Shows(log, name, plans[name])
    }

    constructor (date: int -> int, secondOfDay: int -> nat)
      requires Monotone(date)
      ensures Valid() && fresh(this) && log == [] && plans == map[]
      ensures this.date == date && this.secondOfDay == secondOfDay
    {
      this.date, this.secondOfDay := date, secondOfDay;
      plans, log, clock := map[], [], 0;
    }

    /** Adding an instance never snapshotted before, or changing whether and when it is. */
    method Configure(name: string, enabled: bool, hour: Option<nat>)
      requires Valid() && (name !in plans ==> forall i | 0 <= i < |log| :: log[i].name != name)
      modifies `plans
      ensures Valid() && plans.Keys == old(plans).Keys + {name}
      ensures forall other | other in old(plans) && other != name :: plans[other] == old(plans)[other]
      ensures plans[name].enabled == enabled && plans[name].hour == hour
    {
      hide History;
      if name in plans {
        plans := plans[name := plans[name].(enabled := enabled, hour := hour)];
      } else {
        plans := plans[name := Plan(enabled, hour, None, None)];
      }
    }

    /** Record an attempt that ended. */
    method Record(ghost e: Entry, name: string, finish: int, success: bool)
      requires Valid() && name in plans && e.name == name && e.finish == finish && e.success == success
      requires MayFollow(e, log, clock, date, secondOfDay)
      modifies `plans, `log, `clock
      ensures Valid() && log == old(log) + [e] && clock == finish
      ensures plans == old(plans)[name := Noted(old(plans)[name], finish, success)]
    {
      HistoryGrows(log, e, clock, date, secondOfDay);
      EveryPlanShows(plans, log, e);
      Bounded(e, log, clock);
      hide History, Monotone, Shows, MayFollow, T.InRange, Iso;
      var now := Iso(finish);
      var plan := plans[name];
      if success {
        plan := plan.(ok := Some(now));
      }
      plan := plan.(attempt := Some(now));
      assert plan == Noted(plans[name], finish, success);
      hide Noted;
      plans, log, clock := plans[name := plan], log + [e], finish;
    }

    lemma Bounded(e: Entry, log: seq<Entry>, clock: int)
      requires MayFollow(e, log, clock, date, secondOfDay)
      ensures T.InRange(e.finish)
    {
    }

    /** A snapshot taken by hand: only its success is recorded. */
    method SnapshotByHand(name: string, finish: int, ok: bool)
      requires Valid() && clock <= finish && T.InRange(finish)
      modifies `plans, `log, `clock
      ensures Valid() && plans.Keys == old(plans).Keys && old(log) <= log
      ensures clock <= finish && (forall i | |old(log)| <= i < |log| :: !log[i].scheduled)
      ensures ok && name in old(plans) ==>
        && |log| == |old(log)| + 1
        && plans == old(plans)[name := old(plans)[name].(ok := Some(Iso(finish)), attempt := Some(Iso(finish)))]
      ensures !(ok && name in old(plans)) ==> plans == old(plans) && log == old(log) && clock == old(clock)
    {
      if ok && name in plans {
        Record(Entry(name, false, 0, finish, finish, finish, true, |log|), name, finish, true);
      }
    }

    method SnapshotsByHand(times: seq<(string, int)>, ghost until: int)
      requires Valid() && clock <= until
      requires forall i | 0 <= i < |times| :: clock <= times[i].1 <= until && T.InRange(times[i].1)
      requires forall i, j | 0 <= i < j < |times| :: times[i].1 <= times[j].1
      modifies `plans, `log, `clock
      ensures Valid() && plans.Keys == old(plans).Keys && clock <= until && old(log) <= log
      ensures forall i | |old(log)| <= i < |log| :: !log[i].scheduled
    {
      hide History, Shows, T.InRange;
      for i := 0 to |times|
        invariant Valid() && plans.Keys == old(plans).Keys && clock <= until && old(log) <= log
        invariant forall j | i <= j < |times| :: clock <= times[j].1
        invariant forall i | |old(log)| <= i < |log| :: !log[i].scheduled
      {
        SnapshotByHand(times[i].0, times[i].1, true);
      }
    }

    /** The instance is to be snapshotted now. */
    ghost predicate Due(name: string, v: Visit)
      reads `plans
    {
      name in plans && plans[name].enabled && plans[name].hour.Some?
      && IsSnapshotDue(plans[name].hour.value, plans[name].ok, plans[name].attempt, date, secondOfDay, v.zoned, v.now)
    }

    /** The entry of a scheduled attempt decided on when only `seen` was there. */
    ghost function Scheduled(name: string, hour: nat, v: Visit, seen: nat): Entry {
      Entry(name, true, hour, v.zoned, v.now, v.finish, v.ok, seen)
    }

    /** A due attempt may be recorded after whatever was done by hand meanwhile. */
    lemma DueMayFollow(seen: seq<Entry>, later: seq<Entry>, name: string, p: Plan, v: Visit, before: int, at: int)
      requires History(seen, before, date, secondOfDay) && Shows(seen, name, p) && Monotone(date)
      requires Plausible(v, before) && at <= v.finish && p.hour.Some?
      requires IsSnapshotDue(p.hour.value, p.ok, p.attempt, date, secondOfDay, v.zoned, v.now)
      requires seen <= later && forall i | |seen| <= i < |later| :: !later[i].scheduled
      ensures MayFollow(Scheduled(name, p.hour.value, v, |seen|), later, at, date, secondOfDay)
    {
      DueIff(seen, name, p, p.hour.value, before, date, secondOfDay, v.zoned, v.now);
      hide History, IsSnapshotDue, Shows, T.InRange, Iso;
    }

    /** One instance's turn: skipped, or snapshotted and recorded either way. */
    method Tend(name: string, v: Visit) returns (done: bool)
      requires Valid() && Plausible(v, clock)
      modifies `plans, `log, `clock
      ensures Valid() && plans.Keys == old(plans).Keys && old(log) <= log && clock <= v.finish
      ensures done <==> old(Due(name, v)) && v.ok
      ensures Successes(log) == Successes(old(log)) + if done then 1 else 0
      ensures if old(Due(name, v)) then Attempted(name, v, log) else plans == old(plans)
    {
      if name !in plans || !plans[name].enabled || plans[name].hour.None? {
        return false;
      }
      hide T.InRange, Iso, IsSnapshotDue, History, Shows, Monotone, Matches;
      var plan := plans[name];
      if IsSnapshotDue(plan.hour.value, plan.ok, plan.attempt, date, secondOfDay, v.zoned, v.now) {
        Attempt(name, v);
        done := v.ok;
      } else {
        done := false;
      }
    }

    method Attempt(name: string, v: Visit)
      requires Valid() && Plausible(v, clock) && Due(name, v)
      modifies `plans, `log, `clock
      ensures Valid() && plans.Keys == old(plans).Keys && old(log) <= log && clock <= v.finish
      ensures Successes(log) == Successes(old(log)) + if v.ok then 1 else 0
      ensures Attempted(name, v, log)
    {
      hide T.InRange, Iso, IsSnapshotDue, History, Shows, Monotone;
      ghost var seen, before, plan := log, clock, plans[name];
      SnapshotsByHand(v.byHand, v.finish);
      ghost var e := Scheduled(name, plan.hour.value, v, |seen|);
      DueMayFollow(seen, log, name, plan, v, before, clock);
      ScheduledCounts(seen, log, e);
      hide MayFollow, Successes;
      Record(e, name, v.finish, v.ok);
    }

    /** The last thing recorded is this attempt. */
    static ghost predicate Attempted(name: string, v: Visit, log: seq<Entry>) {
      log != [] && Matches(log[|log| - 1], name, v.ok)
      && log[|log| - 1].scheduled && log[|log| - 1].success == v.ok && log[|log| - 1].finish == v.finish
    }

    /** One tick over every instance; the count is of the snapshots it took. */
    method RunDue(names: seq<string>, visits: seq<Visit>) returns (count: nat)
      requires Valid() && |visits| == |names|
      requires forall i | 0 <= i < |visits| :: Plausible(visits[i], clock)
      requires forall i, j | 0 <= i < j < |visits| :: visits[i].finish <= visits[j].zoned
      modifies `plans, `log, `clock
      ensures Valid() && plans.Keys == old(plans).Keys && old(log) <= log
      ensures Successes(log) == Successes(old(log)) + count
    {
      hide Valid, Successes, Due;
      count := 0;
      for i := 0 to |names|
        invariant Valid() && plans.Keys == old(plans).Keys && old(log) <= log
        invariant Successes(log) == Successes(old(log)) + count
        invariant forall j | i <= j < |visits| :: Plausible(visits[j], clock)
      {
        var done := Tend(names[i], visits[i]);
        if done {
          count := count + 1;
        }
      }
    }
  }
}
