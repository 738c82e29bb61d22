/**
 UTC dates of the years 0000 to 9999 and their text form 20060102T150405Z, which
 names a backup's folder.
 */
module Calendar {
  import Records

  const DAY := 86400

  datatype Civil = Civil(year: int, month: int, day: int, hour: int, minute: int, second: int)

  predicate Leap(y: int) { y % 4 == 0 && (y % 100 != 0 || y % 400 == 0) }

  function YearLength(y: int): int { if Leap(y) then 366 else 365 }

  function MonthLength(y: int, m: int): int {
    if m == 2 then (if Leap(y) then 29 else 28) else if m == 4 || m == 6 || m == 9 || m == 11 then 30 else 31
  }

  predicate Valid(c: Civil) {
    && 0 <= c.year <= 9999 && 1 <= c.month <= 12 && 1 <= c.day <= MonthLength(c.year, c.month)
    && 0 <= c.hour < 24 && 0 <= c.minute < 60 && 0 <= c.second < 60
  }

  /** Days from 0000-01-01 to the first day of a year, and from there to the first of a month. */
  function YearStart(y: nat): nat { if y == 0 then 0 else YearStart(y - 1) + YearLength(y - 1) }

  function MonthStart(y: int, m: int): int
    requires 1 <= m <= 13
    decreases m
  {
    if m == 1 then 0 else MonthStart(y, m - 1) + MonthLength(y, m - 1)
  }

  /** Days from 0000-01-01 to 1970-01-01. */
  const EPOCH := 719528

  function DayOf(c: Civil): int
    requires Valid(c)
  {
    YearStart(c.year) + MonthStart(c.year, c.month) + c.day - 1 - EPOCH
  }

  function Clock(c: Civil): int { c.hour * 3600 + c.minute * 60 + c.second }

  /** The Unix second of a date. */
  function SecondOf(c: Civil): int
    requires Valid(c)
  {
    DayOf(c) * DAY + Clock(c)
  }

  lemma Fourths(x: nat)
    ensures (x + 4) / 4 == (x + 3) / 4 + if x % 4 == 0 then 1 else 0
  {
  }

  lemma Hundredths(x: nat)
    ensures (x + 100) / 100 == (x + 99) / 100 + if x % 100 == 0 then 1 else 0
  {
  }

  lemma FourHundredths(x: nat)
    ensures (x + 400) / 400 == (x + 399) / 400 + if x % 400 == 0 then 1 else 0
  {
  }

  lemma Multiples(x: nat)
    ensures (x % 400 == 0 ==> x % 100 == 0) && (x % 100 == 0 ==> x % 4 == 0)
  {
    if x % 400 == 0 { assert x == 100 * (4 * (x / 400)); }
    if x % 100 == 0 { assert x == 4 * (25 * (x / 100)); }
  }

  /** The count of days in closed form. */
  lemma {:induction false} YearStartClosed(y: nat)
    ensures YearStart(y) == 365 * y + (y + 3) / 4 - (y + 99) / 100 + (y + 399) / 400
  {
    if y > 0 {
      YearStartClosed(y - 1);
      Fourths(y - 1);
      Hundredths(y - 1);
      FourHundredths(y - 1);
      Multiples(y - 1);
    }
  }

  /** The first second of a year in Unix time, in closed form. */
  function NewYear(y: int): int { (365 * (y - 1970) + (y + 3) / 4 - (y + 99) / 100 + (y + 399) / 400 - 478) * DAY }

  /** The count of seconds agrees with it in every year; 1970 begins at zero, and the year 1 at Go's
      zero time. */
  lemma NewYearInUnixTime(c: Civil)
    requires Valid(c) && c.month == 1 && c.day == 1 && Clock(c) == 0
    ensures SecondOf(c) == NewYear(c.year) && NewYear(1970) == 0 && NewYear(1) == Records.ZERO_TIME
  {
    YearStartClosed(c.year);
    MonthStarts(c.year);
  }

  lemma MonthStarts(y: int)
    ensures MonthStart(y, 1) == 0 && MonthStart(y, 2) == 31 && MonthStart(y, 3) == 31 + MonthLength(y, 2)
    ensures MonthStart(y, 4) == MonthStart(y, 3) + 31 && MonthStart(y, 5) == MonthStart(y, 4) + 30
    ensures MonthStart(y, 6) == MonthStart(y, 5) + 31
    ensures MonthStart(y, 7) == MonthStart(y, 6) + 30 && MonthStart(y, 8) == MonthStart(y, 7) + 31
    ensures MonthStart(y, 9) == MonthStart(y, 8) + 31
    ensures MonthStart(y, 10) == MonthStart(y, 9) + 30 && MonthStart(y, 11) == MonthStart(y, 10) + 31
    ensures MonthStart(y, 12) == MonthStart(y, 11) + 30
    ensures MonthStart(y, 13) == YearLength(y)
  {
  }

  // ----- from a second to its date -----

  function YearFrom(d: nat, y: nat): nat
    decreases d
  {
    if d < YearLength(y) then y else YearFrom(d - YearLength(y), y + 1)
  }

  function MonthFrom(d: int, y: int, m: int): (r: int)
    requires 1 <= m <= 12
    ensures 1 <= r <= 12
    decreases 12 - m
  {
    if m == 12 || d < MonthStart(y, m + 1) then m else MonthFrom(d, y, m + 1)
  }

  predicate InRange(t: int) { -EPOCH * DAY <= t < (YearStart(10000) - EPOCH) * DAY }

  function CivilOf(t: int): Civil
    requires t >= -EPOCH * DAY
  {
    var days, clock := t / DAY + EPOCH, t % DAY;
    var year := YearFrom(days, 0);
    var inYear := days - YearStart(year);
    var month := MonthFrom(inYear, year, 1);
    Civil(year, month, inYear - MonthStart(year, month) + 1, clock / 3600, clock % 3600 / 60, clock % 60)
  }

  lemma {:induction false} YearFound(d: nat, y: nat)
    ensures var z := YearFrom(d, y); y <= z && YearStart(z) <= YearStart(y) + d < YearStart(z + 1)
    decreases d
  {
    if d >= YearLength(y) {
      YearFound(d - YearLength(y), y + 1);
    }
  }

  lemma {:induction false} YearsGrow(a: nat, b: nat)
    requires a <= b
    ensures YearStart(a) + 365 * (b - a) <= YearStart(b)
  {
    if a < b { YearsGrow(a, b - 1); }
  }

  lemma {:induction false} MonthFound(d: int, y: int, m: int)
    requires 1 <= m <= 12 && MonthStart(y, m) <= d < YearLength(y)
    ensures var z := MonthFrom(d, y, m); m <= z <= 12 && MonthStart(y, z) <= d < MonthStart(y, z + 1)
    decreases 12 - m
  {
    MonthStarts(y);
    if m < 12 && d >= MonthStart(y, m + 1) { MonthFound(d, y, m + 1); }
  }

  lemma ClockParts(clock: int)
    requires 0 <= clock < DAY
    ensures 0 <= clock / 3600 < 24 && 0 <= clock % 3600 / 60 < 60 && 0 <= clock % 60 < 60
    ensures clock / 3600 * 3600 + clock % 3600 / 60 * 60 + clock % 60 == clock
  {
  }

  /** Every second of the range is the second of its date. */
  lemma DateOfSecond(t: int)
    requires InRange(t)
    ensures Valid(CivilOf(t)) && SecondOf(CivilOf(t)) == t
  {
    var days, clock := t / DAY + EPOCH, t % DAY;
    YearFound(days, 0);
    var year := YearFrom(days, 0);
    if year >= 10000 { YearsGrow(10000, year); }
    var inYear := days - YearStart(year);
    MonthStarts(year);
    MonthFound(inYear, year, 1);
    ClockParts(clock);
  }

  /** Earlier in the order of year, month, day, hour, minute and second. */
  predicate Before(a: Civil, b: Civil) {
    || a.year < b.year
    || (&& a.year == b.year
        && (a.month < b.month || (a.month == b.month && (a.day < b.day || (a.day == b.day && Clock(a) < Clock(b))))))
  }

  lemma {:induction false} MonthsGrow(y: int, a: int, b: int)
    requires 1 <= a < b <= 13
    ensures MonthStart(y, a) + MonthLength(y, a) <= MonthStart(y, b)
    decreases b
  {
    if a < b - 1 { MonthsGrow(y, a, b - 1); }
  }

  lemma DayGrows(a: Civil, b: Civil)
    requires Valid(a) && Valid(b)
    ensures a.year < b.year ==> DayOf(a) < DayOf(b)
    ensures a.year == b.year && a.month < b.month ==> DayOf(a) < DayOf(b)
  {
    MonthStarts(a.year);
    MonthsGrow(a.year, a.month, 13);
    if a.year < b.year { YearsGrow(a.year + 1, b.year); MonthStarts(b.year); MonthsNonNegative(b.year, b.month); }
    if a.year == b.year && a.month < b.month { MonthsGrow(a.year, a.month, b.month); }
  }

  lemma {:induction false} MonthsNonNegative(y: int, m: int)
    requires 1 <= m <= 13
    ensures MonthStart(y, m) >= 0
    decreases m
  {
    if m > 1 { MonthsNonNegative(y, m - 1); }
  }

  lemma ClockFits(c: Civil)
    requires Valid(c)
    ensures 0 <= Clock(c) < DAY
  {
  }

  /** Dates and seconds have the same order. */
  lemma SecondsFollowDates(a: Civil, b: Civil)
    requires Valid(a) && Valid(b)
    ensures Before(a, b) <==> SecondOf(a) < SecondOf(b)
  {
    ClockFits(a);
    ClockFits(b);
    DayGrows(a, b);
    DayGrows(b, a);
  }

  lemma SameClock(a: Civil, b: Civil)
    requires Valid(a) && Valid(b) && Clock(a) == Clock(b)
    ensures a.hour == b.hour && a.minute == b.minute && a.second == b.second
  {
  }

  /** A second has one date. */
  lemma SecondIsInjective(a: Civil, b: Civil)
    requires Valid(a) && Valid(b) && SecondOf(a) == SecondOf(b)
    ensures a == b
  {
    SecondsFollowDates(a, b);
    SecondsFollowDates(b, a);
    SameClock(a, b);
  }

  lemma DateIsInRange(c: Civil)
    requires Valid(c)
    ensures InRange(SecondOf(c)) && CivilOf(SecondOf(c)) == c
  {
    ClockFits(c);
    MonthStarts(c.year);
    MonthsGrow(c.year, c.month, 13);
    MonthsNonNegative(c.year, c.month);
    YearsGrow(c.year + 1, 10000);
    DateOfSecond(SecondOf(c));
    SecondIsInjective(CivilOf(SecondOf(c)), c);
  }
}
