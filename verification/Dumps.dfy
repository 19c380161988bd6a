/** Dump files: their default names, and which of them retention deletes. */
module Dumps {
  import opened Text
  import C = Calendar
  import T = Timestamp

  // ---------- Names ----------

  function Digits(s: string): (d: string)
    ensures AllDigits(d)
  {
    if s == [] then []
    else (if IsDigit(s[0]) then [s[0]] else []) + Digits(s[1..])
  }

  function Stamp(iso: string): string {
    var compact := Digits(iso);
    if |compact| >= 14 then compact[0..8] + "-" + compact[8..14] else compact
  }

  function DumpName(instance: string, iso: string): string {
    instance + "-" + Stamp(iso) + ".dump"
  }

  /** An explicit path is taken as it is; otherwise the file goes into the dump directory. */
  function ResolveDumpPath(out: Option<string>, instance: string, dir: string, iso: string): string {
    if out.Some? then out.value else dir + "/" + DumpName(instance, iso)
  }

  lemma {:induction false} DigitsJoin(a: string, b: string)
    ensures Digits(a + b) == Digits(a) + Digits(b)
  {
    if a == [] {
      assert a + b == b;
    } else {
      assert (a + b)[1..] == a[1..] + b;
      DigitsJoin(a[1..], b);
    }
  }

  lemma {:induction false} DigitsOfDigits(s: string)
    requires AllDigits(s)
    ensures Digits(s) == s
  {
    if s == [] {
    } else {
      DigitsOfDigits(s[1..]);
      assert s == [s[0]] + s[1..];
    }
  }

  /** A run of digits and one separator contribute just the digits. */
  lemma FieldDigits(field: string, sep: string, rest: string)
    requires AllDigits(field) && |sep| == 1 && !IsDigit(sep[0])
    ensures Digits(field + (sep + rest)) == field + Digits(rest)
  {
    DigitsJoin(field, sep + rest);
    DigitsJoin(sep, rest);
    DigitsOfDigits(field);
    assert Digits(sep) == Digits(sep[1..]);
  }

  /** Date digits, a dash, clock digits. */
  function StampOf(d: C.Date, second: nat): string
    requires 0 <= d.year <= 9999 && C.ValidDate(d) && second < T.SECONDS_PER_DAY
  {
    Pad(d.year, 4) + (Pad(d.month, 2) + (Pad(d.day, 2) + ("-" +
      (Pad(second / 3600, 2) + (Pad(second % 3600 / 60, 2) + Pad(second % 60, 2))))))
  }

  lemma StampOfFields(d: C.Date, second: nat)
    requires 0 <= d.year <= 9999 && C.ValidDate(d) && second < T.SECONDS_PER_DAY
    ensures Stamp(T.Fields(d, second)) == StampOf(d, second) && |StampOf(d, second)| == 15
  {
    hide Pad;
    var seconds := Pad(second % 60, 2);
    var minutes := Pad(second % 3600 / 60, 2);
    var hours := Pad(second / 3600, 2);
    FieldDigits(seconds, "Z", "");
    assert seconds + ("Z" + "") == seconds + "Z";
    FieldDigits(minutes, ":", seconds + "Z");
    FieldDigits(hours, ":", minutes + (":" + (seconds + "Z")));
    FieldDigits(Pad(d.day, 2), "T", T.Clock(second));
    FieldDigits(Pad(d.month, 2), "-", Pad(d.day, 2) + ("T" + T.Clock(second)));
    FieldDigits(Pad(d.year, 4), "-", Pad(d.month, 2) + ("-" + (Pad(d.day, 2) + ("T" + T.Clock(second)))));
    var compact := Digits(T.Fields(d, second));
    var date := Pad(d.year, 4) + (Pad(d.month, 2) + Pad(d.day, 2));
    var clock := hours + (minutes + seconds);
    assert compact == date + clock;
    assert compact[0..8] == date && compact[8..14] == clock;
  }

  /** Name tails compare as the dates and clocks they show. */
  lemma StampOrder(x: C.Date, s: nat, y: C.Date, t: nat, tail: string)
    requires 0 <= x.year <= 9999 && C.ValidDate(x) && s < T.SECONDS_PER_DAY
    requires 0 <= y.year <= 9999 && C.ValidDate(y) && t < T.SECONDS_PER_DAY
    ensures Less(StampOf(x, s) + tail, StampOf(y, t) + tail) <==> C.Before(x, y) || (x == y && s < t)
  {
    T.Powers();
    T.HoursMinutesSeconds(s);
    T.HoursMinutesSeconds(t);
    hide Pad, Pow10, Less, C.Leap;
    LessIrreflexive(tail);
    var (s6, t6) := (Pad(s % 60, 2) + tail, Pad(t % 60, 2) + tail);
    T.LessByField(s % 60, t % 60, 2, tail, tail);
    var (s5, t5) := (Pad(s % 3600 / 60, 2) + s6, Pad(t % 3600 / 60, 2) + t6);
    T.LessByField(s % 3600 / 60, t % 3600 / 60, 2, s6, t6);
    var (s4, t4) := (Pad(s / 3600, 2) + s5, Pad(t / 3600, 2) + t5);
    T.LessByField(s / 3600, t / 3600, 2, s5, t5);
    LessByPrefix("-", "-", s4, t4);
    LessIrreflexive("-");
    T.LessByField(x.day, y.day, 2, "-" + s4, "-" + t4);
    var (s2, t2) := (Pad(x.day, 2) + ("-" + s4), Pad(y.day, 2) + ("-" + t4));
    T.LessByField(x.month, y.month, 2, s2, t2);
    T.LessByField(x.year, y.year, 4, Pad(x.month, 2) + s2, Pad(y.month, 2) + t2);
    assert StampOf(x, s) + tail == Pad(x.year, 4) + (Pad(x.month, 2) + s2);
    assert StampOf(y, t) + tail == Pad(y.year, 4) + (Pad(y.month, 2) + t2);
  }

  /** The default name of a dump taken at second `t`. */
  function NameAt(instance: string, t: int): string
    requires T.InRange(t)
  {
    T.RangeIsFourDigitYears(t);
    DumpName(instance, T.EpochToIso(t))
  }

  lemma NameParts(instance: string, t: int)
    requires T.InRange(t)
    ensures var d, second := C.DateOfDay(t / T.SECONDS_PER_DAY), t % T.SECONDS_PER_DAY;
      && 0 <= d.year <= 9999 && C.ValidDate(d)
      && NameAt(instance, t) == instance + "-" + (StampOf(d, second) + ".dump")
  {
    T.IsoFields(t);
    hide C.DateOfDay, C.ValidDate, T.InRange, T.EpochToIso, T.Fields, Stamp, StampOf;
    StampOfFields(C.DateOfDay(t / T.SECONDS_PER_DAY), t % T.SECONDS_PER_DAY);
  }

  /** Main result on names: one instance's dumps sort as they were taken. */
  lemma NamesSortByTime(instance: string, s: int, t: int)
    requires T.InRange(s) && T.InRange(t)
    ensures Less(NameAt(instance, s), NameAt(instance, t)) <==> s < t
  {
    var x, y := C.DateOfDay(s / T.SECONDS_PER_DAY), C.DateOfDay(t / T.SECONDS_PER_DAY);
    var i, j := s % T.SECONDS_PER_DAY, t % T.SECONDS_PER_DAY;
    NameParts(instance, s);
    NameParts(instance, t);
    TimesOrder(s, t);
    hide C.DateOfDay, C.ValidDate, C.Before, Less, T.InRange, StampOf, NameAt;
    StampOrder(x, i, y, j, ".dump");
    LessIrreflexive(instance + "-");
    LessByPrefix(instance + "-", instance + "-", StampOf(x, i) + ".dump", StampOf(y, j) + ".dump");
  }

  lemma TimesOrder(s: int, t: int)
    requires T.InRange(s) && T.InRange(t)
    ensures var x, y := C.DateOfDay(s / T.SECONDS_PER_DAY), C.DateOfDay(t / T.SECONDS_PER_DAY);
      s < t <==> C.Before(x, y) || (x == y && s % T.SECONDS_PER_DAY < t % T.SECONDS_PER_DAY)
  {
    T.IsoOrder(s, t);
    T.IsoFields(s);
    T.IsoFields(t);
    hide C.DateOfDay, C.ValidDate, C.Before, Less, T.InRange, T.EpochToIso, T.Fields;
    T.FieldsOrder(C.DateOfDay(s / T.SECONDS_PER_DAY), s % T.SECONDS_PER_DAY,
                  C.DateOfDay(t / T.SECONDS_PER_DAY), t % T.SECONDS_PER_DAY);
  }

  /** So do the paths: default dumps of one instance in one directory. */
  lemma PathsSortByTime(instance: string, dir: string, s: int, t: int)
    requires T.InRange(s) && T.InRange(t)
    ensures C.FitsI32(C.DateOfDay(s / T.SECONDS_PER_DAY).year) && C.FitsI32(C.DateOfDay(t / T.SECONDS_PER_DAY).year)
    ensures var p, q := ResolveDumpPath(None, instance, dir, T.EpochToIso(s)), ResolveDumpPath(None, instance, dir, T.EpochToIso(t));
      Less(p, q) <==> s < t
  {
    T.RangeIsFourDigitYears(s);
    T.RangeIsFourDigitYears(t);
    NamesSortByTime(instance, s, t);
    LessIrreflexive(dir + "/");
    LessByPrefix(dir + "/", dir + "/", NameAt(instance, s), NameAt(instance, t));
    hide Less, DumpName, T.EpochToIso, T.InRange;
  }

  // ---------- Retention ----------

  predicate Sorted(names: seq<string>) {
    forall i, j | 0 <= i < j < |names| :: !Less(names[j], names[i])
  }

  /** How many of `k` files are too many; 0 keeps all. */
  function Excess(k: nat, n: nat): nat {
    if n == 0 || k <= n then 0 else k - n
  }

  /** What pruning a list to `n` names takes out: the excess, all of it below what stays. */
  ghost predicate Pruned(names: seq<string>, n: nat, prune: seq<string>) {
    && |prune| == Excess(|names|, n) && multiset(prune) <= multiset(names)
    && forall x, y | x in prune && y in names && y !in prune :: Less(x, y)
  }

  /** Everything but the newest `n`, after sorting the list in place; 0 keeps all. */
  method DumpsToPrune(files: array<string>, n: nat) returns (prune: seq<string>)
    modifies files
    ensures multiset(files[..]) == multiset(old(files[..]))
    ensures n == 0 || files.Length <= n ==> prune == [] && files[..] == old(files[..])
    ensures 0 < n < files.Length ==> Sorted(files[..]) && prune == files[..files.Length - n]
    ensures Pruned(old(files[..]), n, prune)
  {
    if n == 0 || files.Length <= n {
      return [];
    }
    Sort(files);
    prune := files[..files.Length - n];
    LeadingPartIsPruned(old(files[..]), files[..], n);
  }

  lemma LeadingPartIsPruned(names: seq<string>, sorted: seq<string>, n: nat)
    requires multiset(sorted) == multiset(names) && Sorted(sorted) && 0 < n < |sorted|
    ensures Pruned(names, n, sorted[..|sorted| - n])
  {
    hide Less;
    var prune, kept := sorted[..|sorted| - n], sorted[|sorted| - n..];
    assert |names| == |multiset(names)| == |multiset(sorted)|;
    assert sorted == prune + kept;
    forall x, y | x in prune && y in names && y !in prune
      ensures Less(x, y)
    {
      assert y in multiset(names) && y in kept;
      var a :| 0 <= a < |prune| && prune[a] == x;
      var b :| 0 <= b < |kept| && kept[b] == y;
      assert !Less(sorted[|prune| + b], sorted[a]);
      LessTotal(x, y);
    }
  }

  /** Insertion sort by byte order. */
  method Sort(files: array<string>)
    modifies files
    ensures multiset(files[..]) == multiset(old(files[..])) && Sorted(files[..])
  {
    var i := 0;
    while i < files.Length
      invariant 0 <= i <= files.Length
      invariant multiset(files[..]) == multiset(old(files[..])) && Sorted(files[..i])
    {
      Insert(files, i);
      i := i + 1;
    }
    assert files[..i] == files[..];
  }

  /** Moves element `i` down to its place in the sorted part before it. */
  method Insert(files: array<string>, i: nat)
    requires i < files.Length && Sorted(files[..i])
    modifies files
    ensures multiset(files[..]) == multiset(old(files[..])) && Sorted(files[..i + 1])
  {
    var j := i;
    StartsAlmost(files[..], i);
    hide Less, Almost, Sorted;
    while j > 0 && Less(files[j], files[j - 1])
      invariant 0 <= j <= i && Almost(files[..], i, j)
      invariant multiset(files[..]) == multiset(old(files[..]))
    {
      ghost var before := files[..];
      SwapDown(before, i, j);
      files[j], files[j - 1] := files[j - 1], files[j];
      assert files[..] == Swapped(before, j);
      j := j - 1;
    }
    InPlace(files[..], i, j);
  }

  /** Up to `i` all but element `j` is in order. */
  predicate Almost(names: seq<string>, i: nat, j: nat) {
    j <= i < |names| && forall a, b | 0 <= a < b <= i && b != j :: !Less(names[b], names[a])
  }

  function Swapped(names: seq<string>, j: nat): seq<string>
    requires 0 < j < |names|
  {
    names[j := names[j - 1]][j - 1 := names[j]]
  }

  lemma StartsAlmost(names: seq<string>, i: nat)
    requires i < |names| && Sorted(names[..i])
    ensures Almost(names, i, i)
  {
    hide Less;
    assert forall a | 0 <= a < i :: names[..i][a] == names[a];
  }

  lemma SwapDown(names: seq<string>, i: nat, j: nat)
    requires Almost(names, i, j) && j > 0 && Less(names[j], names[j - 1])
    ensures Almost(Swapped(names, j), i, j - 1) && multiset(Swapped(names, j)) == multiset(names)
  {
    LessAsymmetric(names[j], names[j - 1]);
    hide Less;
  }

  /** Once element `j` is not below the one before it, everything up to `i` is in order. */
  lemma InPlace(names: seq<string>, i: nat, j: nat)
    requires Almost(names, i, j) && (j > 0 ==> !Less(names[j], names[j - 1]))
    ensures Sorted(names[..i + 1])
  {
    hide Less;
    forall a | 0 <= a < j
      ensures !Less(names[j], names[a])
    {
      if Less(names[j], names[a]) {
        NotLessChain(names[j], names[a], names[j - 1]);
      }
    }
  }

  lemma LessAsymmetric(a: string, b: string)
    requires Less(a, b)
    ensures !Less(b, a)
  {
    if Less(b, a) {
      LessTransitive(a, b, a);
      LessIrreflexive(a);
    }
  }

  /** Below one element means below every element not before it. */
  lemma NotLessChain(x: string, a: string, b: string)
    requires Less(x, a) && !Less(b, a)
    ensures Less(x, b)
  {
    LessTotal(a, b);
    if Less(a, b) {
      LessTransitive(x, a, b);
    }
  }

  function Names(instance: string, times: seq<int>): (names: seq<string>)
    requires forall i | 0 <= i < |times| :: T.InRange(times[i])
    ensures |names| == |times| && forall i | 0 <= i < |times| :: names[i] == NameAt(instance, times[i])
  {
    seq(|times|, i requires 0 <= i < |times| => NameAt(instance, times[i]))
  }

  /** Main result on pruning: of one instance's dumps the excess goes, and every dump that
      goes is older than every one that stays. */
  lemma OldestArePruned(instance: string, times: seq<int>, names: seq<string>, n: nat, prune: seq<string>)
    requires forall k | 0 <= k < |times| :: T.InRange(times[k])
    requires multiset(names) == multiset(Names(instance, times)) && Pruned(names, n, prune)
    ensures |prune| == Excess(|times|, n) && forall x | x in prune :: x in Names(instance, times)
    ensures forall i, j | 0 <= i < |times| && 0 <= j < |times| ::
      NameAt(instance, times[i]) in prune && NameAt(instance, times[j]) !in prune ==> times[i] < times[j]
  {
    hide NameAt, Less, T.InRange;
    var own := Names(instance, times);
    assert |names| == |multiset(names)| == |multiset(own)|;
    forall x | x in prune
      ensures x in own
    {
      assert x in multiset(prune) && x in multiset(own);
    }
    forall i, j | 0 <= i < |times| && 0 <= j < |times| && NameAt(instance, times[i]) in prune
        && NameAt(instance, times[j]) !in prune
      ensures times[i] < times[j]
    {
      assert own[j] in multiset(own) && own[j] in multiset(names);
      NamesSortByTime(instance, times[i], times[j]);
    }
  }

  // ---------- The scan ----------

  /** A file that the scan takes for a dump of the instance. */
  predicate Matches(instance: string, file: string) {
    instance + "-" <= file && |file| >= 5 && file[|file| - 5..] == ".dump"
  }

  function Matching(files: seq<string>, instance: string): (found: seq<string>)
    ensures forall x :: x in found <==> x in files && Matches(instance, x)
  {
    if files == [] then []
    else
      var front, last := files[..|files| - 1], files[|files| - 1];
      assert files == front + [last];
      if Matches(instance, last) then Matching(front, instance) + [last] else Matching(front, instance)
  }

  predicate Distinct<A(==)>(s: seq<A>) {
    forall i, j | 0 <= i < j < |s| :: s[i] != s[j]
  }

  /** The files of the directory that a dump with `--keep n` removes afterwards. */
  method ApplyRetention(files: seq<string>, instance: string, n: nat) returns (removed: seq<string>)
    ensures Pruned(Matching(files, instance), n, removed)
  {
    var dumps := [];
    for i := 0 to |files|
      invariant dumps == Matching(files[..i], instance)
    {
      assert files[..i + 1][..i] == files[..i];
      if Matches(instance, files[i]) {
        dumps := dumps + [files[i]];
      }
    }
    assert files[..|files|] == files;
    var list := new string[|dumps|](i requires 0 <= i < |dumps| => dumps[i]);
    assert list[..] == dumps;
    removed := DumpsToPrune(list, n);
  }

  lemma NameMatches(instance: string, t: int)
    requires T.InRange(t)
    ensures Matches(instance, NameAt(instance, t))
  {
    NameParts(instance, t);
    hide StampOf, NameAt, C.DateOfDay, C.ValidDate, T.InRange;
  }

  lemma {:induction false} DistinctCounts<A>(s: seq<A>)
    requires Distinct(s)
    ensures forall x | x in s :: multiset(s)[x] == 1
  {
    if s != [] {
      var front, last := s[..|s| - 1], s[|s| - 1];
      assert s == front + [last];
      DistinctCounts(front);
    }
  }

  lemma {:induction false} MatchingDistinct(files: seq<string>, instance: string)
    requires Distinct(files)
    ensures Distinct(Matching(files, instance))
  {
    if files != [] {
      MatchingDistinct(files[..|files| - 1], instance);
    }
  }

  lemma NamesDistinct(instance: string, times: seq<int>)
    requires (forall k | 0 <= k < |times| :: T.InRange(times[k])) && Distinct(times)
    ensures Distinct(Names(instance, times))
  {
    hide NameAt, Less, T.InRange;
    var own := Names(instance, times);
    forall i, j | 0 <= i < j < |own|
      ensures own[i] != own[j]
    {
      NamesSortByTime(instance, times[i], times[j]);
      NamesSortByTime(instance, times[j], times[i]);
      LessIrreflexive(own[i]);
    }
  }

  /** Main result on retention: what is removed is the excess of the instance's own dumps,
      and nothing else, exactly when nothing is removed or no other file of the directory
      matches the scan. */
  lemma RetentionIff(files: seq<string>, instance: string, times: seq<int>, n: nat, removed: seq<string>)
    requires Distinct(files) && Distinct(times) && forall k | 0 <= k < |times| :: T.InRange(times[k])
    requires forall k | 0 <= k < |times| :: NameAt(instance, times[k]) in files
    requires Pruned(Matching(files, instance), n, removed)
    ensures (|removed| == Excess(|times|, n) && forall x | x in removed :: x in Names(instance, times)) <==>
      n == 0 || |Matching(files, instance)| <= n ||
      forall x | x in files && Matches(instance, x) :: x in Names(instance, times)
  {
    hide NameAt, Less, Matches, T.InRange;
    var own, found := Names(instance, times), Matching(files, instance);
    MatchingDistinct(files, instance);
    NamesDistinct(instance, times);
    forall k | 0 <= k < |times|
      ensures own[k] in found
    {
      NameMatches(instance, times[k]);
    }
    Included(own, found);
    if forall x | x in found :: x in own {
      Included(found, own);
      OldestArePruned(instance, times, found, n, removed);
    }
  }

  /** Distinct elements of one list among those of another: they are as many only if they
      are the same. */
  lemma Included<A>(s: seq<A>, t: seq<A>)
    requires Distinct(s) && Distinct(t) && forall x | x in s :: x in t
    ensures multiset(s) <= multiset(t) && |s| <= |t|
    ensures |s| == |t| ==> forall x | x in t :: x in s
    ensures (forall x | x in t :: x in s) ==> multiset(s) == multiset(t)
  {
    DistinctCounts(s);
    DistinctCounts(t);
    var rest := multiset(t) - multiset(s);
    assert multiset(t) == multiset(s) + rest;
    assert |t| == |multiset(t)| == |multiset(s)| + |rest| == |s| + |rest|;
    if |s| == |t| {
      assert rest == multiset{};
      assert forall x | x in t :: x in multiset(t);
    }
    if forall x | x in t :: x in s {
      forall x
        ensures multiset(s)[x] == multiset(t)[x]
      {
        assert x in s <==> x in t;
      }
    }
  }

  /** A run that removes the dump just taken: another instance's name goes on after
      `<instance>-` with a letter, and keeping one file keeps that instance's. */
  method LoseOwnDump(instance: string, tail: string, s: int, t: int) returns (removed: seq<string>)
    requires T.InRange(s) && T.InRange(t) && tail != [] && tail[0] > '9'
    ensures removed == [NameAt(instance, s)] && NameAt(instance, s) != NameAt(instance + "-" + tail, t)
  {
    hide NameAt, Less, Matches, T.InRange;
    var own, other := NameAt(instance, s), NameAt(instance + "-" + tail, t);
    NameMatches(instance, s);
    OtherNameAbove(instance, tail, s, t);
    TwoMatching(own, other, instance);
    removed := ApplyRetention([own, other], instance, 1);
    FirstOfTwo(own, other, removed);
  }

  lemma TwoMatching(a: string, b: string, instance: string)
    requires Matches(instance, a) && Matches(instance, b)
    ensures Matching([a, b], instance) == [a, b]
  {
    hide Matches;
    assert [a, b][..1] == [a] && [a][..0] == [];
    assert Matching([a], instance) == [a];
  }

  lemma FirstOfTwo(a: string, b: string, removed: seq<string>)
    requires Pruned([a, b], 1, removed) && Less(a, b) && !Less(b, a) && a != b
    ensures removed == [a]
  {
    hide Less;
    assert removed[0] in multiset(removed) && removed[0] in multiset([a, b]);
    assert a in [a, b] && removed == [removed[0]];
  }

  /** Any digit comes before the letter, so the instance's own stamp does. */
  lemma OtherNameAbove(instance: string, tail: string, s: int, t: int)
    requires T.InRange(s) && T.InRange(t) && tail != [] && tail[0] > '9'
    ensures var own, other := NameAt(instance, s), NameAt(instance + "-" + tail, t);
      Matches(instance, other) && own != other && Less(own, other) && !Less(other, own)
  {
    hide NameAt, StampOf, T.InRange, C.ValidDate, C.DateOfDay, Less, Matches;
    var own, other := NameAt(instance, s), NameAt(instance + "-" + tail, t);
    NameParts(instance, s);
    NameParts(instance + "-" + tail, t);
    NameMatches(instance + "-" + tail, t);
    var d, second := C.DateOfDay(s / T.SECONDS_PER_DAY), s % T.SECONDS_PER_DAY;
    var e, moment := C.DateOfDay(t / T.SECONDS_PER_DAY), t % T.SECONDS_PER_DAY;
    StampStarts(d, second);
    var mine := StampOf(d, second) + ".dump";
    var theirs := tail + ("-" + (StampOf(e, moment) + ".dump"));
    assert other == (instance + "-") + theirs;
    FirstDecides(mine, theirs);
    LessIrreflexive(instance + "-");
    LessByPrefix(instance + "-", instance + "-", mine, theirs);
    LessByPrefix(instance + "-", instance + "-", theirs, mine);
    MatchesShorter(instance, tail, other);
  }

  lemma StampStarts(d: C.Date, second: nat)
    requires 0 <= d.year <= 9999 && C.ValidDate(d) && second < T.SECONDS_PER_DAY
    ensures StampOf(d, second) != [] && IsDigit(StampOf(d, second)[0])
  {
    assert StampOf(d, second)[0] == Pad(d.year, 4)[0];
  }

  lemma FirstDecides(a: string, b: string)
    requires a != [] && b != [] && a[0] < b[0]
    ensures Less(a, b) && !Less(b, a)
  {
  }

  lemma MatchesShorter(instance: string, tail: string, file: string)
    requires Matches(instance + "-" + tail, file)
    ensures Matches(instance, file)
  {
    var long := instance + "-" + tail + "-";
    assert file[..|long|] == long;
    assert file[..|instance| + 1] == long[..|instance| + 1] == instance + "-";
  }
}
