/** `civil_from_days`, the closed-form Gregorian calendar, against a calendar
    that only knows the leap rule, the month lengths and how to turn one page. */
module Calendar {

  datatype Date = Date(year: int, month: int, day: int)

  // ---------- The reference calendar ----------

  predicate Leap(y: int) {
    y % 4 == 0 && (y % 100 != 0 || y % 400 == 0)
  }

  function MonthLength(y: int, m: int): int {
    if m == 2 then (if Leap(y) then 29 else 28)
    else if m == 4 || m == 6 || m == 9 || m == 11 then 30
    else 31
  }

  predicate ValidDate(d: Date) {
    1 <= d.month <= 12 && 1 <= d.day <= MonthLength(d.year, d.month)
  }

  function NextDay(d: Date): Date {
    if d.day < MonthLength(d.year, d.month) then d.(day := d.day + 1)
    else if d.month < 12 then Date(d.year, d.month + 1, 1)
    else Date(d.year + 1, 1, 1)
  }

  function PreviousDay(d: Date): Date {
    if d.day > 1 then d.(day := d.day - 1)
    else if d.month > 1 then Date(d.year, d.month - 1, MonthLength(d.year, d.month - 1))
    else Date(d.year - 1, 12, 31)
  }

  const EPOCH := Date(1970, 1, 1)

  /** The date reached by turning `z` pages from the epoch, backwards if negative. */
  function DateOfDay(z: int): Date
    decreases if z < 0 then -z else z
  {
    if z == 0 then EPOCH
    else if z > 0 then NextDay(DateOfDay(z - 1))
    else PreviousDay(DateOfDay(z + 1))
  }

  predicate Before(a: Date, b: Date) {
    a.year < b.year
    || (a.year == b.year && (a.month < b.month || (a.month == b.month && a.day < b.day)))
  }

  // ---------- The closed form ----------

  /** Integer division as the program's language does it: toward zero. */
  function TruncatedDiv(a: int, b: int): int
    requires b > 0
  {
    if a >= 0 then a / b else -(-a / b)
  }

  /** A cast to a signed 32-bit integer keeps the low 32 bits. */
  function AsI32(x: int): int {
    (x + 0x8000_0000) % 0x1_0000_0000 - 0x8000_0000
  }

  predicate FitsI32(x: int) {
    -0x8000_0000 <= x < 0x8000_0000
  }

  function YearOfEra(doe: int): int {
    (doe - doe / 1460 + doe / 36524 - doe / 146096) / 365
  }

  /** Days before year `yoe` (counted from 1 March) of a 400-year era. */
  function EraYearStart(yoe: int): int {
    365 * yoe + yoe / 4 - yoe / 100
  }

  /** The algorithm before its final cast of the year. */
  function WideCivilFromDays(day: int): Date {
    var z := day + 719468;
    var era := TruncatedDiv(if z >= 0 then z else z - 146096, 146097);
    var doe := z - era * 146097;
    var yoe := YearOfEra(doe);
    var y := yoe + era * 400;
    var doy := doe - EraYearStart(yoe);
    var mp := (5 * doy + 2) / 153;
    var d := doy - (153 * mp + 2) / 5 + 1;
    var m := if mp < 10 then mp + 3 else mp - 9;
    Date(if m <= 2 then y + 1 else y, m, d)
  }

  function CivilFromDays(day: int): Date {
    var date := WideCivilFromDays(day);
    date.(year := AsI32(date.year))
  }

  /** Days before 1 March of year `y`, from 1 March of year 0. */
  function MarchStart(y: int): int {
    365 * y + y / 4 - y / 100 + y / 400
  }

  /** The explicit inverse. */
  function DaysFromCivil(d: Date): int {
    var y := if d.month <= 2 then d.year - 1 else d.year;
    var mp := if d.month <= 2 then d.month + 9 else d.month - 3;
    MarchStart(y) + (153 * mp + 2) / 5 + d.day - 1 - 719468
  }

  // ---------- Years inside an era ----------

  /** Quotient and remainder are determined by their defining equation. */
  lemma DivModUnique(x: int, k: int, q: int, r: int)
    requires k > 0 && x == k * q + r && 0 <= r < k
    ensures x / k == q && x % k == r
  {
    var e := q - x / k;
    assert k * e == x % k - r;
    assert e > 0 ==> k * e >= k;
    assert e < 0 ==> k * e <= -k;
  }

  /** The year containing day `doe` of an era is found century, olympiad and year at a time. */
  lemma YearOfEraSplit(doe: int, c: int, q: int, k: int)
    requires 0 <= doe < 146097
    requires c == (if doe / 36524 < 3 then doe / 36524 else 3)
    requires q == (doe - 36524 * c) / 1461
    requires k == (if (doe - 36524 * c - 1461 * q) / 365 < 3 then (doe - 36524 * c - 1461 * q) / 365 else 3)
    ensures 0 <= c <= 3 && 0 <= q <= 24 && 0 <= k <= 3
    ensures YearOfEra(doe) == 100 * c + 4 * q + k
    ensures EraYearStart(YearOfEra(doe)) == 36524 * c + 1461 * q + 365 * k
    ensures var rest := doe - (36524 * c + 1461 * q + 365 * k);
      0 <= rest <= 365 && (rest == 365 ==> k == 3 && (q < 24 || c == 3))
  {
    var inCentury := doe - 36524 * c;
    assert 0 <= inCentury <= 36524 && 0 <= q <= 24;
    var inOlympiad := inCentury - 1461 * q;
    assert 0 <= inOlympiad <= 1460;
    var rest := inOlympiad - 365 * k;
    assert 0 <= rest <= 365 && (rest == 365 ==> k == 3);
    QuotientsInEra(doe, c, q, k, rest);
    DivModUnique(100 * c + 4 * q + k, 4, 25 * c + q, k);
    DivModUnique(100 * c + 4 * q + k, 100, c, 4 * q + k);
  }

  /** The correction terms of the year estimate, with the day given by its parts. */
  lemma QuotientsInEra(doe: int, c: int, q: int, k: int, rest: int)
    requires 0 <= c <= 3 && 0 <= q <= 24 && 0 <= k <= 3 && 0 <= rest <= 365
    requires rest == 365 ==> k == 3 && (q < 24 || c == 3)
    requires doe == 36524 * c + 1461 * q + 365 * k + rest
    ensures YearOfEra(doe) == 100 * c + 4 * q + k
  {
    var over := 24 * c + q + 365 * k + rest;
    var extra := if over < 1460 then 0 else 1;
    DivModUnique(doe, 1460, 25 * c + q + extra, over - 1460 * extra);
    var inCentury := doe - 36524 * c;
    var lastDay := if inCentury == 36524 then 1 else 0;
    assert lastDay == 1 ==> doe == 146096;
    DivModUnique(doe, 36524, c + lastDay, inCentury - 36524 * lastDay);
    DivModUnique(doe, 146096, lastDay, doe - 146096 * lastDay);
    var year := 100 * c + 4 * q + k;
    DivModUnique(doe - doe / 1460 + doe / 36524 - doe / 146096, 365, year, rest - extra);
  }

  /** A year counted from March ends with the February of the next civil year. */
  lemma YearOfEraCorrect(doe: int)
    requires 0 <= doe < 146097
    ensures var yoe := YearOfEra(doe); var doy := doe - EraYearStart(yoe);
      0 <= yoe < 400 && 0 <= doy <= 365 && (doy == 365 ==> Leap(yoe + 1))
  {
    hide YearOfEra, EraYearStart;
    var c := if doe / 36524 < 3 then doe / 36524 else 3;
    var q := (doe - 36524 * c) / 1461;
    var k := if (doe - 36524 * c - 1461 * q) / 365 < 3 then (doe - 36524 * c - 1461 * q) / 365 else 3;
    YearOfEraSplit(doe, c, q, k);
    LeapDayFits(100 * c + 4 * q + k, doe - (36524 * c + 1461 * q + 365 * k), c, q, k);
  }

  /** The only years with a 366th day are those whose February is a leap one. */
  lemma LeapDayFits(yoe: int, doy: int, c: int, q: int, k: int)
    requires 0 <= c <= 3 && 0 <= q <= 24 && 0 <= k <= 3 && yoe == 100 * c + 4 * q + k
    requires 0 <= doy <= 365 && (doy == 365 ==> k == 3 && (q < 24 || c == 3))
    ensures doy == 365 ==> Leap(yoe + 1)
  {
    if doy == 365 {
      DivModUnique(yoe + 1, 4, 25 * c + q + 1, 0);
      if q < 24 {
        DivModUnique(yoe + 1, 100, c, 4 * q + 4);
      }
    }
  }

  lemma LeapPeriod(y: int, era: int)
    ensures Leap(y + 400 * era) == Leap(y)
  {
    DivModUnique(y + 400 * era, 4, y / 4 + 100 * era, y % 4);
    DivModUnique(y + 400 * era, 100, y / 100 + 4 * era, y % 100);
    DivModUnique(y + 400 * era, 400, y / 400 + era, y % 400);
  }

  /** Every month is found from the day of the March-based year, with its length respected. */
  lemma MonthOfYearDay(doy: int, y: int)
    requires 0 <= doy <= 365 && (doy == 365 ==> Leap(y + 1))
    ensures var mp := (5 * doy + 2) / 153; var m := if mp < 10 then mp + 3 else mp - 9;
      0 <= mp <= 11 && ValidDate(Date(if m <= 2 then y + 1 else y, m, doy - (153 * mp + 2) / 5 + 1))
  {
    var mp := (5 * doy + 2) / 153;
    assert mp == 0 || mp == 1 || mp == 2 || mp == 3 || mp == 4 || mp == 5
        || mp == 6 || mp == 7 || mp == 8 || mp == 9 || mp == 10 || mp == 11;
  }

  /** The closed form always names an existing date, and the explicit inverse takes it back. */
  lemma WideRoundTrip(day: int)
    ensures ValidDate(WideCivilFromDays(day))
    ensures DaysFromCivil(WideCivilFromDays(day)) == day
  {
    hide YearOfEra, EraYearStart, MarchStart, ValidDate, TruncatedDiv, DaysFromCivil, Leap;
    var z := day + 719468;
    var era := TruncatedDiv(if z >= 0 then z else z - 146096, 146097);
    var doe := z - era * 146097;
    EraIsFloor(z);
    YearOfEraCorrect(doe);
    DateInEra(doe, era, YearOfEra(doe));
  }

  lemma EraIsFloor(z: int)
    ensures var era := TruncatedDiv(if z >= 0 then z else z - 146096, 146097);
      0 <= z - era * 146097 < 146097
  {
  }

  lemma DateInEra(doe: int, era: int, yoe: int)
    requires 0 <= yoe < 400
    requires var doy := doe - EraYearStart(yoe); 0 <= doy <= 365 && (doy == 365 ==> Leap(yoe + 1))
    ensures var y := yoe + era * 400; var doy := doe - EraYearStart(yoe);
      var mp := (5 * doy + 2) / 153; var m := if mp < 10 then mp + 3 else mp - 9;
      var date := Date(if m <= 2 then y + 1 else y, m, doy - (153 * mp + 2) / 5 + 1);
      ValidDate(date) && DaysFromCivil(date) == doe + era * 146097 - 719468
  {
    LeapPeriod(yoe + 1, era);
    MonthOfYearDay(doe - EraYearStart(yoe), yoe + 400 * era);
    EraShift(yoe, era);
  }

  lemma EraShift(yoe: int, era: int)
    requires 0 <= yoe < 400
    ensures var y := yoe + era * 400;
      MarchStart(y) == EraYearStart(yoe) + 146097 * era
  {
    var y := yoe + era * 400;
    DivModUnique(y, 4, yoe / 4 + 100 * era, yoe % 4);
    DivModUnique(y, 100, yoe / 100 + 4 * era, yoe % 100);
    DivModUnique(y, 400, era, yoe);
  }

  // ---------- The closed form is the reference calendar ----------

  lemma NextDayAdvances(d: Date)
    requires ValidDate(d)
    ensures ValidDate(NextDay(d)) && DaysFromCivil(NextDay(d)) == DaysFromCivil(d) + 1
  {
    if d.day == MonthLength(d.year, d.month) {
      if d.month == 2 {
        LeapYearStart(d.year);
        hide MarchStart, Leap;
      } else {
        hide MarchStart, Leap;
        MonthSpends(d.month);
      }
    } else {
      hide MarchStart, Leap;
    }
  }

  /** Outside February, the month formula grows by the month's length. */
  lemma MonthSpends(m: int)
    requires 1 <= m <= 12 && m != 2
    ensures var mp := if m <= 2 then m + 9 else m - 3;
      (153 * (mp + 1) + 2) / 5 - (153 * mp + 2) / 5 == MonthLength(0, m)
  {
    assert m == 1 || m == 3 || m == 4 || m == 5 || m == 6
        || m == 7 || m == 8 || m == 9 || m == 10 || m == 11 || m == 12;
  }

  lemma LeapYearStart(y: int)
    ensures MarchStart(y) - MarchStart(y - 1) == if Leap(y) then 366 else 365
  {
    YearDivStep(y, 4);
    YearDivStep(y, 100);
    YearDivStep(y, 400);
    if y % 400 == 0 {
      DivModUnique(y, 100, 4 * (y / 400), 0);
    }
    if y % 100 == 0 {
      DivModUnique(y, 4, 25 * (y / 100), 0);
    }
  }

  lemma YearDivStep(y: int, k: int)
    requires k > 1
    ensures y / k - (y - 1) / k == if y % k == 0 then 1 else 0
  {
    if y % k == 0 {
      DivModUnique(y - 1, k, y / k - 1, k - 1);
    } else {
      DivModUnique(y - 1, k, y / k, y % k - 1);
    }
  }

  lemma PreviousDayInverts(d: Date)
    requires ValidDate(d)
    ensures ValidDate(PreviousDay(d)) && NextDay(PreviousDay(d)) == d
  {
  }

  /** Counting pages, the date after `z` of them is valid and is `z` days from the epoch. */
  lemma {:induction false} DateOfDayCounts(z: int)
    ensures ValidDate(DateOfDay(z)) && DaysFromCivil(DateOfDay(z)) == z
    decreases if z < 0 then -z else z
  {
    if z == 0 {
    } else if z > 0 {
      DateOfDayCounts(z - 1);
      NextDayAdvances(DateOfDay(z - 1));
    } else {
      DateOfDayCounts(z + 1);
      PreviousDayInverts(DateOfDay(z + 1));
      NextDayAdvances(DateOfDay(z));
    }
  }

  /** Earlier dates have smaller day numbers. */
  lemma InverseKeepsOrder(a: Date, b: Date)
    requires ValidDate(a) && ValidDate(b) && Before(a, b)
    ensures DaysFromCivil(a) < DaysFromCivil(b)
  {
    hide MarchStart, Leap, DaysFromCivil, ValidDate, NewYear;
    YearEnds(a);
    YearEnds(b);
    if a.year < b.year {
      YearsGrow(a.year, b.year);
    } else {
      LaterInYear(a, b);
    }
  }

  lemma LaterInYear(a: Date, b: Date)
    requires ValidDate(a) && ValidDate(b) && Before(a, b) && a.year == b.year
    ensures DaysFromCivil(a) < DaysFromCivil(b)
  {
    hide MarchStart, Leap;
    LeapYearStart(a.year);
    if a.month < b.month {
      MonthsGrow(a.year, a.month, b.month);
    }
  }

  lemma MonthsGrow(y: int, m: int, n: int)
    requires 1 <= m < n <= 12
    ensures DaysFromCivil(Date(y, m, MonthLength(y, m))) < DaysFromCivil(Date(y, n, 1))
    decreases n - m
  {
    hide MarchStart, Leap;
    LeapYearStart(y);
    if m + 1 < n {
      MonthsGrow(y, m, n - 1);
    }
    var k := n - 1;
    assert k == 1 || k == 2 || k == 3 || k == 4 || k == 5 || k == 6
        || k == 7 || k == 8 || k == 9 || k == 10 || k == 11;
  }

  /** Day number of 1 January. */
  function NewYear(y: int): int {
    MarchStart(y - 1) + 306 - 719468
  }

  lemma YearEnds(d: Date)
    requires ValidDate(d)
    ensures NewYear(d.year) <= DaysFromCivil(d) < NewYear(d.year + 1)
  {
    LeapYearStart(d.year);
    var m := d.month;
    assert m == 1 || m == 2 || m == 3 || m == 4 || m == 5 || m == 6
        || m == 7 || m == 8 || m == 9 || m == 10 || m == 11 || m == 12;
  }

  lemma {:induction false} YearsGrow(y: int, x: int)
    requires y < x
    ensures NewYear(y + 1) <= NewYear(x)
    decreases x - y
  {
    if y + 1 == x {
    } else {
      YearsGrow(y, x - 1);
      LeapYearStart(x - 1);
    }
  }

  lemma InverseInjective(a: Date, b: Date)
    requires ValidDate(a) && ValidDate(b) && DaysFromCivil(a) == DaysFromCivil(b)
    ensures a == b
  {
    if Before(a, b) {
      InverseKeepsOrder(a, b);
    } else if Before(b, a) {
      InverseKeepsOrder(b, a);
    }
  }

  lemma WideIsReference(day: int)
    ensures WideCivilFromDays(day) == DateOfDay(day)
  {
    WideRoundTrip(day);
    DateOfDayCounts(day);
    InverseInjective(WideCivilFromDays(day), DateOfDay(day));
  }

  /** Main result: the algorithm names the date the reference calendar reaches, for
      negative days too, exactly as long as that date's year fits the 32-bit year. */
  lemma CivilFromDaysIsGregorian(day: int)
    ensures CivilFromDays(day) == DateOfDay(day) <==> FitsI32(DateOfDay(day).year)
    ensures ValidDate(DateOfDay(day)) && DaysFromCivil(DateOfDay(day)) == day
  {
    WideIsReference(day);
    DateOfDayCounts(day);
    AsI32Keeps(DateOfDay(day).year);
  }

  lemma AsI32Keeps(x: int)
    ensures AsI32(x) == x <==> FitsI32(x)
  {
  }

  /** Main result: on valid dates the explicit inverse is a two-sided inverse. */
  lemma CivilFromDaysInverse(d: Date)
    requires ValidDate(d) && FitsI32(d.year)
    ensures CivilFromDays(DaysFromCivil(d)) == d
  {
    hide WideCivilFromDays, DaysFromCivil, ValidDate;
    var day := DaysFromCivil(d);
    WideRoundTrip(day);
    InverseInjective(WideCivilFromDays(day), d);
    AsI32Keeps(d.year);
  }

  /** Main result: later days have later dates, and conversely. */
  lemma CivilFromDaysKeepsOrder(a: int, b: int)
    requires FitsI32(DateOfDay(a).year) && FitsI32(DateOfDay(b).year)
    ensures a < b <==> Before(CivilFromDays(a), CivilFromDays(b))
  {
    CivilFromDaysIsGregorian(a);
    CivilFromDaysIsGregorian(b);
    var x, y := DateOfDay(a), DateOfDay(b);
    hide DateOfDay, CivilFromDays, DaysFromCivil, ValidDate, FitsI32;
    if Before(x, y) {
      InverseKeepsOrder(x, y);
    } else if Before(y, x) {
      InverseKeepsOrder(y, x);
    }
  }
}
