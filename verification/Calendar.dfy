/**
  The proleptic Gregorian calendar in UTC, as Go's time package defines it and
  as the cron search of internal/cron/parser.go relies on it.

  An instant is a whole number of minutes since 0001-01-01T00:00Z, a day number
  is a whole number of days since the same date.  Both may be negative.
  */
module Calendar {

  const MINUTES_PER_DAY: int := 1440

  predicate IsLeap(y: int) {
    y % 4 == 0 && (y % 100 != 0 || y % 400 == 0)
  }

  function DaysInYear(y: int): (n: int)
    ensures 365 <= n <= 366
  {
    if IsLeap(y) then 366 else 365
  }

  function DaysIn(y: int, m: int): (n: int)
    ensures 28 <= n <= 31
  {
    if m == 2 then (if IsLeap(y) then 29 else 28)
    else if m in {4, 6, 9, 11} then 30
    else 31
  }

  /** Days from 0001-01-01 to January 1st of year y. */
  function DaysBeforeYear(y: int): int {
    365 * (y - 1) + (y - 1) / 4 - (y - 1) / 100 + (y - 1) / 400
  }

  /** Days from January 1st of year y to the first day of month m. */
  function DaysBeforeMonth(y: int, m: int): (n: int)
    requires 1 <= m <= 13
    ensures 0 <= n
    decreases m
  {
    if m == 1 then 0 else DaysBeforeMonth(y, m - 1) + DaysIn(y, m - 1)
  }

  /** time.Date at midnight: a day of the month beyond the month's end spills over into the next one. */
  function DayNumber(y: int, m: int, d: int): int
    requires 1 <= m <= 12
  {
    DaysBeforeYear(y) + DaysBeforeMonth(y, m) + d - 1
  }

  /** time.Date to the minute: hour 24 is midnight of the next day. */
  function DateInstant(y: int, m: int, d: int, h: int, mi: int): int
    requires 1 <= m <= 12
  {
    DayNumber(y, m, d) * MINUTES_PER_DAY + h * 60 + mi
  }

  // ----- From an instant back to its calendar fields -----

  function DayOf(t: int): int { t / MINUTES_PER_DAY }

  function MinuteOfDay(t: int): (r: int)
    ensures 0 <= r < MINUTES_PER_DAY
  {
    t % MINUTES_PER_DAY
  }

  function HourOf(t: int): (h: int)
    ensures 0 <= h < 24
  {
    MinuteOfDay(t) / 60
  }

  function MinuteOf(t: int): (mi: int)
    ensures 0 <= mi < 60
  {
    MinuteOfDay(t) % 60
  }

  /** Sunday is 0; 0001-01-01 was a Monday. */
  function WeekdayOfDay(day: int): (w: int)
    ensures 0 <= w < 7
  {
    (day + 1) % 7
  }

  /** A day number counted off in cycles of 400, 100 and 4 years and in single years. */
  datatype Cycles = Cycles(q400: int, q100: int, q4: int, q1: int, yday: int) {
    function Year(): int { 400 * q400 + 100 * q100 + 4 * q4 + q1 + 1 }
  }

  function CyclesOfDay(day: int): Cycles {
    var r400 := day % 146097;
    var q100 := if r400 / 36524 == 4 then 3 else r400 / 36524;
    var r100 := r400 - 36524 * q100;
    var r4 := r100 % 1461;
    var q1 := if r4 / 365 == 4 then 3 else r4 / 365;
    Cycles(day / 146097, q100, r100 / 1461, q1, r4 - 365 * q1)
  }

  function YearOfDay(day: int): int { CyclesOfDay(day).Year() }

  /** The month in which the yday-th day after month m's first day falls. */
  function MonthFrom(y: int, m: int, yday: int): (r: int)
    requires 1 <= m <= 12
    ensures m <= r <= 12
    decreases 12 - m
  {
    if m == 12 || yday < DaysIn(y, m) then m else MonthFrom(y, m + 1, yday - DaysIn(y, m))
  }

  function MonthOfDay(day: int): (m: int)
    ensures 1 <= m <= 12
  {
    MonthFrom(YearOfDay(day), 1, day - DaysBeforeYear(YearOfDay(day)))
  }

  function MonthDayOfDay(day: int): int {
    var y := YearOfDay(day);
    day - DaysBeforeYear(y) - DaysBeforeMonth(y, MonthOfDay(day)) + 1
  }

  function YearOf(t: int): int { YearOfDay(DayOf(t)) }
  function MonthOf(t: int): (m: int)
    ensures 1 <= m <= 12
  {
    MonthOfDay(DayOf(t))
  }
  function MonthDayOf(t: int): int { MonthDayOfDay(DayOf(t)) }
  function WeekdayOf(t: int): (w: int)
    ensures 0 <= w < 7
  {
    WeekdayOfDay(DayOf(t))
  }

  // ----- Years tile the day line -----

  lemma YearLength(y: int)
    ensures DaysBeforeYear(y + 1) == DaysBeforeYear(y) + DaysInYear(y)
  {
    assert y / 4 == (y - 1) / 4 + (if y % 4 == 0 then 1 else 0);
    assert y / 100 == (y - 1) / 100 + (if y % 100 == 0 then 1 else 0);
    assert y / 400 == (y - 1) / 400 + (if y % 400 == 0 then 1 else 0);
    LeapNesting(y);
  }

  lemma LeapNesting(y: int)
    ensures y % 400 == 0 ==> y % 100 == 0
    ensures y % 100 == 0 ==> y % 4 == 0
  {
    if y % 400 == 0 {
      assert y / 100 == 4 * (y / 400);
    }
    if y % 100 == 0 {
      assert y / 4 == 25 * (y / 100);
    }
  }

  lemma {:induction false} YearsMonotone(y: int, z: int)
    requires y <= z
    ensures DaysBeforeYear(y) + 365 * (z - y) <= DaysBeforeYear(z)
    decreases z - y
  {
    if y < z {
      YearsMonotone(y, z - 1);
      YearLength(z - 1);
    }
  }

  lemma CycleStart(a: int, b: int, c: int, e: int)
    requires 0 <= b <= 3 && 0 <= c <= 24 && 0 <= e <= 3
    ensures DaysBeforeYear(400 * a + 100 * b + 4 * c + e + 1)
         == 146097 * a + 36524 * b + 1461 * c + 365 * e
  {
    var n := 400 * a + 100 * b + 4 * c + e;
    assert n / 4 == 100 * a + 25 * b + c;
    assert n / 100 == 4 * a + b;
    assert n / 400 == a;
  }

  /** The last day of a cycle belongs to its last year, which is then a leap year. */
  lemma CyclesInRange(day: int)
    ensures var c := CyclesOfDay(day);
            && 0 <= c.q100 <= 3 && 0 <= c.q4 <= 24 && 0 <= c.q1 <= 3
            && day == 146097 * c.q400 + 36524 * c.q100 + 1461 * c.q4 + 365 * c.q1 + c.yday
            && 0 <= c.yday <= 365
            && (c.yday == 365 ==> c.q1 == 3 && (c.q4 == 24 ==> c.q100 == 3))
  {
    var r400 := day % 146097;
    var q100 := if r400 / 36524 == 4 then 3 else r400 / 36524;
    var r100 := r400 - 36524 * q100;
    assert 0 <= r100 <= 36524;
    assert r100 == 36524 ==> q100 == 3;
    var r4 := r100 % 1461;
    assert r100 == 1461 * (r100 / 1461) + r4;
    assert 0 <= r4 <= 1460;
  }

  lemma LastYearOfCycleIsLeap(a: int, b: int, c: int)
    requires 0 <= b <= 3 && 0 <= c <= 24 && (c == 24 ==> b == 3)
    ensures IsLeap(400 * a + 100 * b + 4 * c + 4)
  {
    var y := 400 * a + 100 * b + 4 * c + 4;
    assert y == 4 * (100 * a + 25 * b + c + 1);
    if c == 24 {
      assert y == 400 * (a + 1);
    } else {
      assert y == 100 * (4 * a + b) + (4 * c + 4);
      assert y % 100 == 4 * c + 4;
    }
  }

  lemma YearOfDayBrackets(day: int)
    ensures DaysBeforeYear(YearOfDay(day)) <= day < DaysBeforeYear(YearOfDay(day) + 1)
  {
    var c := CyclesOfDay(day);
    CyclesInRange(day);
    hide DaysBeforeYear, CyclesOfDay;
    CycleStart(c.q400, c.q100, c.q4, c.q1);
    YearLength(c.Year());
    if c.yday == 365 {
      LastYearOfCycleIsLeap(c.q400, c.q100, c.q4);
    }
  }

  lemma YearIsUnique(day: int, y: int)
    requires DaysBeforeYear(y) <= day < DaysBeforeYear(y + 1)
    ensures YearOfDay(day) == y
  {
    hide *;
    YearOfDayBrackets(day);
    var z := YearOfDay(day);
    if z < y {
      YearsMonotone(z + 1, y);
    } else if y < z {
      YearsMonotone(y + 1, z);
    }
  }

  // ----- Months tile the year -----

  lemma {:induction false} MonthsMonotone(y: int, m: int, n: int)
    requires 1 <= m <= n <= 13
    ensures DaysBeforeMonth(y, m) + 28 * (n - m) <= DaysBeforeMonth(y, n)
    decreases n - m
  {
    if m < n {
      MonthsMonotone(y, m, n - 1);
    }
  }

  lemma MonthsFillYear(y: int)
    ensures DaysBeforeMonth(y, 13) == DaysInYear(y)
  {
    assert DaysBeforeMonth(y, 4) == 90 + (if IsLeap(y) then 1 else 0);
    assert DaysBeforeMonth(y, 7) == DaysBeforeMonth(y, 4) + 91;
    assert DaysBeforeMonth(y, 10) == DaysBeforeMonth(y, 7) + 92;
    assert DaysBeforeMonth(y, 13) == DaysBeforeMonth(y, 10) + 92;
  }

  lemma {:induction false} MonthFromBrackets(y: int, m: int, yday: int)
    requires 1 <= m <= 12
    requires 0 <= yday < DaysBeforeMonth(y, 13) - DaysBeforeMonth(y, m)
    ensures DaysBeforeMonth(y, MonthFrom(y, m, yday)) <= DaysBeforeMonth(y, m) + yday
                < DaysBeforeMonth(y, MonthFrom(y, m, yday) + 1)
    decreases 12 - m
  {
    hide DaysIn;
    assert DaysBeforeMonth(y, m + 1) == DaysBeforeMonth(y, m) + DaysIn(y, m);
    hide DaysBeforeMonth;
    assert MonthFrom(y, m, yday)
        == if m == 12 || yday < DaysIn(y, m) then m else MonthFrom(y, m + 1, yday - DaysIn(y, m));
    hide *;
    if m != 12 && yday >= DaysIn(y, m) {
      MonthFromBrackets(y, m + 1, yday - DaysIn(y, m));
    }
  }

  /** A date is a real calendar date. */
  predicate IsDate(y: int, m: int, d: int) {
    1 <= m <= 12 && 1 <= d <= DaysIn(y, m)
  }

  /** Every day number names a real date, and that date names the day number again. */
  lemma CivilRoundTrip(day: int)
    ensures IsDate(YearOfDay(day), MonthOfDay(day), MonthDayOfDay(day))
    ensures DayNumber(YearOfDay(day), MonthOfDay(day), MonthDayOfDay(day)) == day
  {
    hide YearOfDay, DaysBeforeYear, DaysIn, MonthFrom;
    YearOfDayBrackets(day);
    var y := YearOfDay(day);
    YearLength(y);
    MonthsFillYear(y);
    MonthFromBrackets(y, 1, day - DaysBeforeYear(y));
  }

  lemma MonthIsUnique(y: int, m: int, yday: int)
    requires 1 <= m <= 12
    requires DaysBeforeMonth(y, m) <= yday < DaysBeforeMonth(y, m + 1)
    ensures MonthFrom(y, 1, yday) == m
  {
    hide DaysIn, MonthFrom;
    MonthsMonotone(y, m + 1, 13);
    MonthFromBrackets(y, 1, yday);
    var n := MonthFrom(y, 1, yday);
    if n < m {
      MonthsMonotone(y, n + 1, m);
    } else if m < n {
      MonthsMonotone(y, m + 1, n);
    }
  }

  /** Every real date is recovered from its day number. */
  lemma DateRoundTrip(y: int, m: int, d: int)
    requires IsDate(y, m, d)
    ensures var day := DayNumber(y, m, d);
            YearOfDay(day) == y && MonthOfDay(day) == m && MonthDayOfDay(day) == d
  {
    hide DaysBeforeYear, YearOfDay, MonthFrom, DaysIn;
    MonthsMonotone(y, m + 1, 13);
    MonthsFillYear(y);
    YearLength(y);
    YearIsUnique(DayNumber(y, m, d), y);
    MonthIsUnique(y, m, DaysBeforeMonth(y, m) + d - 1);
  }

  /** A day lies before the first of (y, m) exactly when its year and month come before (y, m). */
  lemma BeforeMonth(day: int, y: int, m: int)
    requires 1 <= m <= 12
    ensures day < DayNumber(y, m, 1)
        <==> YearOfDay(day) < y || (YearOfDay(day) == y && MonthOfDay(day) < m)
  {
    CivilRoundTrip(day);
    hide DaysBeforeYear, YearOfDay, MonthOfDay, DaysIn, MonthDayOfDay;
    var z, n := YearOfDay(day), MonthOfDay(day);
    MonthsFillYear(z);
    MonthsMonotone(z, n + 1, 13);
    YearLength(z);
    if z < y {
      YearsMonotone(z + 1, y);
    } else if y < z {
      YearsMonotone(y + 1, z);
      YearLength(y);
      MonthsFillYear(y);
      MonthsMonotone(y, m + 1, 13);
    } else if n < m {
      MonthsMonotone(y, n + 1, m);
    } else {
      MonthsMonotone(y, m, n);
    }
  }

  /** The clock fields of a day's h:mi, whatever the day. */
  lemma ClockFields(day: int, h: int, mi: int)
    requires 0 <= h < 24 && 0 <= mi < 60
    ensures var t := day * MINUTES_PER_DAY + h * 60 + mi;
            DayOf(t) == day && HourOf(t) == h && MinuteOf(t) == mi
  {
    var t := day * MINUTES_PER_DAY + h * 60 + mi;
    assert t / MINUTES_PER_DAY == day;
    assert t % MINUTES_PER_DAY == h * 60 + mi;
  }

  lemma ClockSplit(t: int)
    ensures t == DayOf(t) * MINUTES_PER_DAY + HourOf(t) * 60 + MinuteOf(t)
  {
  }

  // ----- Fixed points -----

  /** 1 January 1970 is day 719162, a Thursday, and weekdays take turns from there. */
  lemma WeekdaysTakeTurns(day: int)
    ensures DayNumber(1970, 1, 1) == 719162 && WeekdayOfDay(719162) == 4
    ensures WeekdayOfDay(day + 1) == (WeekdayOfDay(day) + 1) % 7
  {
  }

  /** The days before each month of a year; from March on a leap year has one more. */
  lemma MonthTable(y: int, m: int)
    requires 1 <= m <= 12
    ensures DaysBeforeMonth(y, m)
            == [0, 31, 59, 90, 120, 151, 181, 212, 243, 273, 304, 334][m - 1]
               + (if m > 2 && (y % 400 == 0 || (y % 4 == 0 && y % 100 != 0)) then 1 else 0)
  {
    LeapRule(y);
    hide IsLeap;
    assert DaysBeforeMonth(y, 4) == 90 + (if IsLeap(y) then 1 else 0);
    assert DaysBeforeMonth(y, 7) == DaysBeforeMonth(y, 4) + 91;
    assert DaysBeforeMonth(y, 10) == DaysBeforeMonth(y, 7) + 92;
  }

  lemma LeapRule(y: int)
    ensures IsLeap(y) <==> y % 400 == 0 || (y % 4 == 0 && y % 100 != 0)
  {
    if y % 400 == 0 {
      assert y == 4 * (100 * (y / 400));
    }
  }

  // ----- The calendar repeats every 400 years -----

  const DAYS_PER_CYCLE: int := 146097

  lemma LeapYearsRepeat(y: int, k: int)
    ensures IsLeap(y + 400 * k) == IsLeap(y)
  {
    Shift4(y, k);
    Shift100(y, k);
    Shift400(y, k);
  }

  lemma Shift4(y: int, k: int)
    ensures (y + 400 * k) / 4 == y / 4 + 100 * k && (y + 400 * k) % 4 == y % 4
  {
    assert y + 400 * k == 4 * (y / 4 + 100 * k) + y % 4;
  }

  lemma Shift100(y: int, k: int)
    ensures (y + 400 * k) / 100 == y / 100 + 4 * k && (y + 400 * k) % 100 == y % 100
  {
    assert y + 400 * k == 100 * (y / 100 + 4 * k) + y % 100;
  }

  lemma Shift400(y: int, k: int)
    ensures (y + 400 * k) / 400 == y / 400 + k && (y + 400 * k) % 400 == y % 400
  {
    assert y + 400 * k == 400 * (y / 400 + k) + y % 400;
  }

  lemma WeekdaysRepeat(day: int, k: int)
    ensures WeekdayOfDay(day + DAYS_PER_CYCLE * k) == WeekdayOfDay(day)
  {
    assert day + DAYS_PER_CYCLE * k + 1 == 7 * ((day + 1) / 7 + 20871 * k) + (day + 1) % 7;
  }

  lemma {:induction false} MonthsRepeat(y: int, k: int, m: int)
    requires 1 <= m <= 13
    ensures DaysBeforeMonth(y + 400 * k, m) == DaysBeforeMonth(y, m)
    decreases m
  {
    if m > 1 {
      MonthsRepeat(y, k, m - 1);
      LeapYearsRepeat(y, k);
    }
  }

  lemma YearsRepeat(y: int, k: int)
    ensures DaysBeforeYear(y + 400 * k) == DaysBeforeYear(y) + DAYS_PER_CYCLE * k
  {
    Shift4(y - 1, k);
    Shift100(y - 1, k);
    Shift400(y - 1, k);
    assert y + 400 * k - 1 == y - 1 + 400 * k;
  }

  /** A day and the day 400 years later have the same month, day of month and weekday. */
  lemma CyclesRepeat(day: int, k: int)
    ensures var later := day + DAYS_PER_CYCLE * k;
            && MonthOfDay(later) == MonthOfDay(day) && MonthDayOfDay(later) == MonthDayOfDay(day)
            && WeekdayOfDay(later) == WeekdayOfDay(day)
  {
    hide *;
    var y, m, d := YearOfDay(day), MonthOfDay(day), MonthDayOfDay(day);
    CivilRoundTrip(day);
    WeekdaysRepeat(day, k);
    DatesRepeat(y, m, d, k);
    DateRoundTrip(y + 400 * k, m, d);
  }

  lemma DatesRepeat(y: int, m: int, d: int, k: int)
    requires IsDate(y, m, d)
    ensures IsDate(y + 400 * k, m, d)
    ensures DayNumber(y + 400 * k, m, d) == DayNumber(y, m, d) + DAYS_PER_CYCLE * k
  {
    YearsRepeat(y, k);
    MonthsRepeat(y, k, m);
    LeapYearsRepeat(y, k);
    hide DaysBeforeYear, DaysBeforeMonth, IsLeap;
  }
}
