/** Epoch seconds as the 20-character UTC form of RFC 3339 section 5.6, and the
    three things the controller relies on: it can be read back, different seconds
    look different, and comparing the strings compares the times. */
module Timestamp {
  import opened Text
  import C = Calendar

  const SECONDS_PER_DAY := 86400

  /** First second of year 0000 and last second of year 9999. */
  const FIRST_SECOND := -62167219200
  const LAST_SECOND := 253402300799

  predicate InRange(epoch: int) {
    FIRST_SECOND <= epoch <= LAST_SECOND
  }

  /** A year in at least four columns, a minus sign included. */
  function FormatYear(y: int): string {
    if 0 <= y <= 9999 then Pad(y, 4)
    else if y > 9999 then Decimal(y)
    else if -999 <= y then "-" + Pad(-y, 3)
    else "-" + Decimal(-y)
  }

  function Clock(second: nat): string
    requires second < SECONDS_PER_DAY
  {
    Pad(second / 3600, 2) + (":" + (Pad(second % 3600 / 60, 2) + (":" + (Pad(second % 60, 2) + "Z"))))
  }

  /** Year, month, day and clock, nested to the right so that prefixes can be peeled off. */
  function Layout(year: string, d: C.Date, second: nat): string
    requires C.ValidDate(d) && second < SECONDS_PER_DAY
  {
    year + ("-" + (Pad(d.month, 2) + ("-" + (Pad(d.day, 2) + ("T" + Clock(second))))))
  }

  function EpochToIso(epoch: int): string
    requires C.FitsI32(C.DateOfDay(epoch / SECONDS_PER_DAY).year)
  {
    C.CivilFromDaysIsGregorian(epoch / SECONDS_PER_DAY);
    var d := C.CivilFromDays(epoch / SECONDS_PER_DAY);
    Layout(FormatYear(d.year), d, epoch % SECONDS_PER_DAY)
  }

  // ---------- Reading a timestamp back ----------

  predicate Shape(s: string) {
    |s| == 20
    && s[4] == '-' && s[7] == '-' && s[10] == 'T' && s[13] == ':' && s[16] == ':' && s[19] == 'Z'
    && AllDigits(s[0..4]) && AllDigits(s[5..7]) && AllDigits(s[8..10])
    && AllDigits(s[11..13]) && AllDigits(s[14..16]) && AllDigits(s[17..19])
  }

  function ParseIso(s: string): Option<int> {
    if !Shape(s) then None
    else
      var date := C.Date(Value(s[0..4]), Value(s[5..7]), Value(s[8..10]));
      var h, m, sec := Value(s[11..13]), Value(s[14..16]), Value(s[17..19]);
      if C.ValidDate(date) && h < 24 && m < 60 && sec < 60
      then Some(SECONDS_PER_DAY * C.DaysFromCivil(date) + 3600 * h + 60 * m + sec)
      else None
  }

  // ---------- Proofs ----------

  /** The seconds in range are exactly the ones whose year has four digits. */
  lemma RangeIsFourDigitYears(epoch: int)
    ensures InRange(epoch) <==> 0 <= C.DateOfDay(epoch / SECONDS_PER_DAY).year <= 9999
  {
    hide C.DaysFromCivil, C.DateOfDay, C.ValidDate;
    var day := epoch / SECONDS_PER_DAY;
    var date := C.DateOfDay(day);
    C.DateOfDayCounts(day);
    C.YearEnds(date);
    assert C.NewYear(0) == -719528 && C.NewYear(10000) == 2932897;
    hide C.NewYear;
    var y := date.year;
    if y < 0 {
      C.YearsGrow(y, 0);
    } else if 0 < y {
      C.YearsGrow(0 - 1, y);
    }
    if y < 10000 {
      C.YearsGrow(y, 10000);
    } else if 10000 < y {
      C.YearsGrow(9999, y);
    }
  }

  /** In range, the text is five two-digit fields after a four-digit year, in fixed columns. */
  lemma IsoFields(epoch: int)
    requires InRange(epoch)
    ensures C.FitsI32(C.DateOfDay(epoch / SECONDS_PER_DAY).year)
    ensures var d := C.DateOfDay(epoch / SECONDS_PER_DAY); var t := epoch % SECONDS_PER_DAY;
      0 <= d.year <= 9999 && C.ValidDate(d)
      && EpochToIso(epoch) == Fields(d, t)
  {
    RangeIsFourDigitYears(epoch);
    C.CivilFromDaysIsGregorian(epoch / SECONDS_PER_DAY);
  }

  function Fields(d: C.Date, second: nat): string
    requires 0 <= d.year <= 9999 && C.ValidDate(d) && second < SECONDS_PER_DAY
  {
    Layout(Pad(d.year, 4), d, second)
  }

  lemma Powers()
    ensures Pow10(2) == 100 && Pow10(4) == 10000
  {
    assert Pow10(1) == 10;
    assert Pow10(3) == 1000;
  }

  /** Main result: twenty characters that read back as the same second. */
  lemma IsoRoundTrip(epoch: int)
    requires InRange(epoch)
    ensures C.FitsI32(C.DateOfDay(epoch / SECONDS_PER_DAY).year)
    ensures |EpochToIso(epoch)| == 20 && ParseIso(EpochToIso(epoch)) == Some(epoch)
  {
    hide C.DateOfDay, C.DaysFromCivil, C.ValidDate, ParseIso, EpochToIso, Fields;
    IsoFields(epoch);
    C.DateOfDayCounts(epoch / SECONDS_PER_DAY);
    FieldsReadBack(C.DateOfDay(epoch / SECONDS_PER_DAY), epoch % SECONDS_PER_DAY);
  }

  lemma FieldsReadBack(d: C.Date, second: nat)
    requires 0 <= d.year <= 9999 && C.ValidDate(d) && second < SECONDS_PER_DAY
    ensures |Fields(d, second)| == 20
    ensures ParseIso(Fields(d, second)) == Some(SECONDS_PER_DAY * C.DaysFromCivil(d) + second)
  {
    hide Pad, Value, C.DaysFromCivil, C.ValidDate, Fields, Layout, Clock;
    var s := Fields(d, second);
    FieldColumns(d, second);
    FieldValues(d, second);
    HoursMinutesSeconds(second);
    assert |s| == 20;
    hide Shape;
    assert C.Date(d.year, d.month, d.day) == d;
  }

  lemma FieldValues(d: C.Date, second: nat)
    requires 0 <= d.year <= 9999 && C.ValidDate(d) && second < SECONDS_PER_DAY
    ensures Value(Pad(d.year, 4)) == d.year && Value(Pad(d.month, 2)) == d.month && Value(Pad(d.day, 2)) == d.day
    ensures Value(Pad(second / 3600, 2)) == second / 3600
    ensures Value(Pad(second % 3600 / 60, 2)) == second % 3600 / 60
    ensures Value(Pad(second % 60, 2)) == second % 60
  {
    Powers();
    hide Pad, Value;
    PadValue(d.year, 4);
    PadValue(d.month, 2);
    PadValue(d.day, 2);
    PadValue(second / 3600, 2);
    PadValue(second % 3600 / 60, 2);
    PadValue(second % 60, 2);
  }

  lemma FieldColumns(d: C.Date, second: nat)
    requires 0 <= d.year <= 9999 && C.ValidDate(d) && second < SECONDS_PER_DAY
    ensures var s := Fields(d, second);
      Shape(s) && s[0..4] == Pad(d.year, 4) && s[5..7] == Pad(d.month, 2) && s[8..10] == Pad(d.day, 2)
      && s[11..13] == Pad(second / 3600, 2) && s[14..16] == Pad(second % 3600 / 60, 2)
      && s[17..19] == Pad(second % 60, 2)
  {
    hide Pad, C.Leap;
    var clock := Clock(second);
    ClockColumns(second);
    var s := Fields(d, second);
    assert s[0..4] == Pad(d.year, 4);
    assert s[5..7] == Pad(d.month, 2);
    assert s[8..10] == Pad(d.day, 2);
    assert s[11..] == clock;
    assert s[11..13] == clock[0..2] && s[14..16] == clock[3..5] && s[17..19] == clock[6..8];
    assert s[13] == clock[2] && s[16] == clock[5] && s[19] == clock[8];
  }

  lemma ClockColumns(second: nat)
    requires second < SECONDS_PER_DAY
    ensures var s := Clock(second);
      |s| == 9 && s[2] == ':' && s[5] == ':' && s[8] == 'Z'
      && s[0..2] == Pad(second / 3600, 2) && s[3..5] == Pad(second % 3600 / 60, 2)
      && s[6..8] == Pad(second % 60, 2)
  {
    hide Pad;
  }

  /** Main result: the order of the strings is the order of time. */
  lemma IsoOrder(a: int, b: int)
    requires InRange(a) && InRange(b)
    ensures C.FitsI32(C.DateOfDay(a / SECONDS_PER_DAY).year) && C.FitsI32(C.DateOfDay(b / SECONDS_PER_DAY).year)
    ensures Less(EpochToIso(a), EpochToIso(b)) <==> a < b
  {
    IsoFields(a);
    IsoFields(b);
    C.CivilFromDaysKeepsOrder(a / SECONDS_PER_DAY, b / SECONDS_PER_DAY);
    C.CivilFromDaysKeepsOrder(b / SECONDS_PER_DAY, a / SECONDS_PER_DAY);
    C.CivilFromDaysIsGregorian(a / SECONDS_PER_DAY);
    C.CivilFromDaysIsGregorian(b / SECONDS_PER_DAY);
    FieldsOrder(C.DateOfDay(a / SECONDS_PER_DAY), a % SECONDS_PER_DAY,
                C.DateOfDay(b / SECONDS_PER_DAY), b % SECONDS_PER_DAY);
    hide C.DateOfDay, C.CivilFromDays, C.DaysFromCivil, C.ValidDate;
    var x, y := C.DateOfDay(a / SECONDS_PER_DAY), C.DateOfDay(b / SECONDS_PER_DAY);
    assert C.Before(x, y) || C.Before(y, x) || x == y;
  }

  lemma FieldsOrder(x: C.Date, s: nat, y: C.Date, t: nat)
    requires 0 <= x.year <= 9999 && C.ValidDate(x) && s < SECONDS_PER_DAY
    requires 0 <= y.year <= 9999 && C.ValidDate(y) && t < SECONDS_PER_DAY
    ensures Less(Fields(x, s), Fields(y, t)) <==> C.Before(x, y) || (x == y && s < t)
  {
    Powers();
    ClockOrder(s, t);
    hide Pad, Pow10, Less, Clock, C.Leap;
    var (a2, b2) := ("T" + Clock(s), "T" + Clock(t));
    LessByPrefix("T", "T", Clock(s), Clock(t));
    LessIrreflexive("T");
    LessByField(x.day, y.day, 2, a2, b2);
    var (a1, b1) := ("-" + (Pad(x.day, 2) + a2), "-" + (Pad(y.day, 2) + b2));
    LessByPrefix("-", "-", Pad(x.day, 2) + a2, Pad(y.day, 2) + b2);
    LessIrreflexive("-");
    LessByField(x.month, y.month, 2, a1, b1);
    var (a0, b0) := ("-" + (Pad(x.month, 2) + a1), "-" + (Pad(y.month, 2) + b1));
    LessByPrefix("-", "-", Pad(x.month, 2) + a1, Pad(y.month, 2) + b1);
    LessByField(x.year, y.year, 4, a0, b0);
  }

  /** Peels one zero-padded field off both strings. */
  lemma LessByField(m: nat, n: nat, width: nat, s: string, t: string)
    requires m < Pow10(width) && n < Pow10(width)
    ensures Less(Pad(m, width) + s, Pad(n, width) + t) <==> m < n || (m == n && Less(s, t))
  {
    PadOrder(m, n, width);
    PadValue(m, width);
    PadValue(n, width);
    LessByPrefix(Pad(m, width), Pad(n, width), s, t);
  }

  lemma ClockOrder(s: nat, t: nat)
    requires s < SECONDS_PER_DAY && t < SECONDS_PER_DAY
    ensures Less(Clock(s), Clock(t)) <==> s < t
  {
    Powers();
    hide Pad, Pow10, Less;
    LessIrreflexive("Z");
    LessIrreflexive(":");
    LessByField(s % 60, t % 60, 2, "Z", "Z");
    var (a1, b1) := (":" + (Pad(s % 60, 2) + "Z"), ":" + (Pad(t % 60, 2) + "Z"));
    LessByPrefix(":", ":", Pad(s % 60, 2) + "Z", Pad(t % 60, 2) + "Z");
    LessByField(s % 3600 / 60, t % 3600 / 60, 2, a1, b1);
    var (a0, b0) := (":" + (Pad(s % 3600 / 60, 2) + a1), ":" + (Pad(t % 3600 / 60, 2) + b1));
    LessByPrefix(":", ":", Pad(s % 3600 / 60, 2) + a1, Pad(t % 3600 / 60, 2) + b1);
    LessByField(s / 3600, t / 3600, 2, a0, b0);
    HoursMinutesSeconds(s);
    HoursMinutesSeconds(t);
  }

  lemma HoursMinutesSeconds(s: nat)
    ensures s == 3600 * (s / 3600) + 60 * (s % 3600 / 60) + s % 60
    ensures s % 3600 / 60 < 60
  {
    C.DivModUnique(s, 60, 60 * (s / 3600) + s % 3600 / 60, s % 3600 % 60);
  }

  /** Outside four-digit years the string order is no longer the time order. */
  lemma IsoOrderFailsOutside()
    ensures var last, next := LAST_SECOND, LAST_SECOND + 1;
      C.FitsI32(C.DateOfDay(last / SECONDS_PER_DAY).year) && C.FitsI32(C.DateOfDay(next / SECONDS_PER_DAY).year)
      && Less(EpochToIso(next), EpochToIso(last))
  {
    LastYears();
    hide C.DateOfDay, C.CivilFromDays, C.DaysFromCivil, Clock;
    C.CivilFromDaysIsGregorian(2932896);
    C.CivilFromDaysIsGregorian(2932897);
    assert LAST_SECOND / SECONDS_PER_DAY == 2932896 && (LAST_SECOND + 1) / SECONDS_PER_DAY == 2932897;
    assert FormatYear(9999)[0] == '9';
    assert Decimal(10000)[0] == '1' by {
      assert Decimal(1) == "1" && Decimal(10)[0] == '1' && Decimal(100)[0] == '1' && Decimal(1000)[0] == '1';
    }
    assert EpochToIso(LAST_SECOND)[0] == '9';
    assert EpochToIso(LAST_SECOND + 1)[0] == '1';
  }

  lemma LastYears()
    ensures C.DateOfDay(2932896) == C.Date(9999, 12, 31) && C.DateOfDay(2932897) == C.Date(10000, 1, 1)
  {
    C.DateOfDayCounts(2932896);
    C.DateOfDayCounts(2932897);
    hide C.DateOfDay;
    C.InverseInjective(C.DateOfDay(2932896), C.Date(9999, 12, 31));
    C.InverseInjective(C.DateOfDay(2932897), C.Date(10000, 1, 1));
  }
}
