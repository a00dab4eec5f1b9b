/**
  The next-fire search of internal/cron/parser.go: `matches`, `advance`,
  `nextVal` and `NextAfter`, in UTC.

  `NextAfter` works on nanoseconds since 0001-01-01T00:00Z.  Its search variable
  is always on a minute boundary, so it is kept in minutes.
  */
module CronSchedule {
  import opened Calendar

  const NANOS_PER_MINUTE: int := 60_000_000_000
  /** Four years of 365 days, in nanoseconds. */
  const SEARCH_WINDOW: int := 1460 * 1440 * NANOS_PER_MINUTE

  datatype Schedule = Schedule(
    minutes: seq<int>,
    hours: seq<int>,
    days: seq<int>,
    months: seq<int>,
    weekdays: seq<int>,
    every: int)

  predicate StrictlyIncreasing(vals: seq<int>) {
    forall i, j :: 0 <= i < j < |vals| ==> vals[i] < vals[j]
  }

  predicate Within(vals: seq<int>, min: int, max: int) {
    forall v :: v in vals ==> min <= v <= max
  }

  predicate IsField(vals: seq<int>, min: int, max: int) {
    vals != [] && StrictlyIncreasing(vals) && Within(vals, min, max)
  }

  /** Some value in the bounds, none above them; what lies below them never matches. */
  predicate IsUpperField(vals: seq<int>, min: int, max: int) {
    StrictlyIncreasing(vals) && (exists v :: v in vals && v >= min) && forall v :: v in vals ==> v <= max
  }

  /** A schedule of the five-field form; a wrapped step may have left values below the bounds in three of its fields. */
  predicate FiveField(s: Schedule) {
    && s.every == 0
    && IsField(s.minutes, 0, 59)
    && IsUpperField(s.hours, 0, 23)
    && IsUpperField(s.days, 1, 31)
    && IsField(s.months, 1, 12)
    && IsUpperField(s.weekdays, 0, 6)
  }

  predicate DayMatches(s: Schedule, t: int) {
    MonthDayOf(t) in s.days && WeekdayOf(t) in s.weekdays
  }

  /** `matches`: all five fields, so day of month AND day of week. */
  predicate Matches(s: Schedule, t: int) {
    && MinuteOf(t) in s.minutes
    && HourOf(t) in s.hours
    && MonthDayOf(t) in s.days
    && MonthOf(t) in s.months
    && WeekdayOf(t) in s.weekdays
  }

  function NextValFrom(vals: seq<int>, current: int, i: nat): (r: int)
    requires vals != [] && i <= |vals|
    ensures r in vals
    decreases |vals| - i
  {
    if i == |vals| then vals[0]
    else if vals[i] > current then vals[i]
    else NextValFrom(vals, current, i + 1)
  }

  function NextVal(vals: seq<int>, current: int): (r: int)
    requires vals != []
    ensures r in vals
  {
    NextValFrom(vals, current, 0)
  }

  /** Midnight of the day of t. */
  function Midnight(t: int): int {
    DateInstant(YearOf(t), MonthOf(t), MonthDayOf(t), 0, 0)
  }

  function Advance(t: int, s: Schedule): int
    requires FiveField(s)
  {
    var y, mo, d, h, mi := YearOf(t), MonthOf(t), MonthDayOf(t), HourOf(t), MinuteOf(t);
    if mo !in s.months then
      var next := NextVal(s.months, mo);
      if next <= mo then DateInstant(y + 1, next, 1, 0, 0) else DateInstant(y, next, 1, 0, 0)
    else if d !in s.days || WeekdayOf(t) !in s.weekdays then
      Midnight(DateInstant(y, mo, d + 1, h, mi))
    else if h !in s.hours then
      var nextH := NextVal(s.hours, h);
      if nextH <= h then Midnight(DateInstant(y, mo, d + 1, h, mi))
      else DateInstant(y, mo, d, nextH, s.minutes[0])
    else
      var nextM := NextVal(s.minutes, mi);
      if nextM <= mi then DateInstant(y, mo, d, h + 1, 0)
      else DateInstant(y, mo, d, h, nextM)
  }

  // ----- nextVal -----

  /** On a sorted list nextVal is the least value above current, or else the least value of all. */
  lemma {:induction false} NextValFromIsLeast(vals: seq<int>, current: int, i: nat)
    requires vals != [] && i <= |vals| && StrictlyIncreasing(vals)
    requires forall j :: 0 <= j < i ==> vals[j] <= current
    ensures var r := NextValFrom(vals, current, i);
            if r > current then forall v :: v in vals && v > current ==> r <= v
            else forall v :: v in vals ==> r <= v <= current
    decreases |vals| - i
  {
    if i < |vals| && vals[i] <= current {
      NextValFromIsLeast(vals, current, i + 1);
    }
  }

  lemma NextValIsLeast(vals: seq<int>, current: int)
    requires vals != [] && StrictlyIncreasing(vals)
    ensures var r := NextVal(vals, current);
            if r > current then forall v :: v in vals && v > current ==> r <= v
            else forall v :: v in vals ==> r <= v <= current
  {
    NextValFromIsLeast(vals, current, 0);
  }

  // ----- advance moves forward and skips no match, one lemma a branch -----

  /** From t on, nothing before `to` matches, and `to` is later. */
  predicate Skips(s: Schedule, t: int, to: int) {
    t < to && forall u :: t <= u < to ==> !Matches(s, u)
  }

  lemma FirstOfMonth(t: int, y: int, m: int)
    requires 1 <= m <= 12
    ensures t < DateInstant(y, m, 1, 0, 0)
        <==> YearOf(t) < y || (YearOf(t) == y && MonthOf(t) < m)
  {
    hide DayNumber, YearOfDay, MonthOfDay;
    BeforeMonth(DayOf(t), y, m);
    assert t < DateInstant(y, m, 1, 0, 0) <==> DayOf(t) < DayNumber(y, m, 1);
  }

  /** Months from (y, mo) on and before (z, next), the next listed one, are not listed. */
  lemma MonthsBetween(vals: seq<int>, y: int, mo: int, yu: int, mu: int)
    requires vals != [] && StrictlyIncreasing(vals) && mo !in vals && 1 <= mu <= 12 && Within(vals, 1, 12)
    requires y < yu || (y == yu && mo <= mu)
    ensures var next := NextVal(vals, mo);
            var z := if next <= mo then y + 1 else y;
            yu < z || (yu == z && mu < next) ==> mu !in vals
  {
    NextValIsLeast(vals, mo);
    hide NextVal, StrictlyIncreasing;
  }

  lemma AdvanceMonth(t: int, s: Schedule)
    requires FiveField(s)
    requires MonthOf(t) !in s.months
    ensures Skips(s, t, Advance(t, s))
  {
    hide YearOf, MonthOf, DateInstant, NextVal, MonthDayOf, WeekdayOf, MinuteOf, HourOf, StrictlyIncreasing,
         IsUpperField;
    var y, mo := YearOf(t), MonthOf(t);
    var next := NextVal(s.months, mo);
    var z := if next <= mo then y + 1 else y;
    assert Advance(t, s) == DateInstant(z, next, 1, 0, 0);
    hide Advance;
    FirstOfMonth(t, z, next);
    FirstOfMonth(t, y, mo);
    forall u | t <= u < DateInstant(z, next, 1, 0, 0)
      ensures !Matches(s, u)
    {
      FirstOfMonth(u, z, next);
      FirstOfMonth(u, y, mo);
      MonthsBetween(s.months, y, mo, YearOf(u), MonthOf(u));
    }
  }

  /** Instants between t and the midnight that follows lie on t's day. */
  lemma NextMidnight(t: int)
    ensures Midnight(DateInstant(YearOf(t), MonthOf(t), MonthDayOf(t) + 1, HourOf(t), MinuteOf(t)))
         == (DayOf(t) + 1) * MINUTES_PER_DAY
  {
    var next := DateInstant(YearOf(t), MonthOf(t), MonthDayOf(t) + 1, HourOf(t), MinuteOf(t));
    hide YearOfDay, MonthOfDay, MonthDayOfDay, DaysBeforeYear, DaysBeforeMonth, HourOf, MinuteOf, DaysIn;
    CivilRoundTrip(DayOf(t));
    assert next == (DayOf(t) + 1) * MINUTES_PER_DAY + HourOf(t) * 60 + MinuteOf(t);
    ClockFields(DayOf(t) + 1, HourOf(t), MinuteOf(t));
    CivilRoundTrip(DayOf(next));
  }

  lemma SameDateInstant(t: int, h: int, mi: int)
    ensures DateInstant(YearOf(t), MonthOf(t), MonthDayOf(t), h, mi)
         == DayOf(t) * MINUTES_PER_DAY + h * 60 + mi
  {
    hide YearOfDay, MonthOfDay, MonthDayOfDay, DaysBeforeYear, DaysBeforeMonth, DaysIn;
    CivilRoundTrip(DayOf(t));
  }

  lemma SameDay(t: int, u: int)
    requires DayOf(t) == DayOf(u)
    ensures MonthDayOf(t) == MonthDayOf(u) && WeekdayOf(t) == WeekdayOf(u) && MonthOf(t) == MonthOf(u)
  {
  }

  lemma AdvanceDay(t: int, s: Schedule)
    requires FiveField(s)
    requires MonthOf(t) in s.months && !DayMatches(s, t)
    ensures Skips(s, t, Advance(t, s))
  {
    hide YearOf, MonthOf, DateInstant, NextVal, MonthDayOf, WeekdayOf, MinuteOf, HourOf;
    NextMidnight(t);
    var to := Advance(t, s);
    assert to == (DayOf(t) + 1) * MINUTES_PER_DAY;
    forall u | t <= u < to
      ensures !Matches(s, u)
    {
      assert DayOf(u) == DayOf(t);
      SameDay(t, u);
    }
  }

  /** An instant is before h:mi of a day exactly when its day and clock are. */
  lemma BeforeClock(u: int, day: int, h: int, mi: int)
    requires 0 <= h < 24 && 0 <= mi < 60
    ensures u < day * MINUTES_PER_DAY + h * 60 + mi
        <==> DayOf(u) < day || (DayOf(u) == day && (HourOf(u) < h || (HourOf(u) == h && MinuteOf(u) < mi)))
  {
    ClockSplit(u);
    hide HourOf, MinuteOf;
    if day < DayOf(u) {
      assert (day + 1) * MINUTES_PER_DAY <= DayOf(u) * MINUTES_PER_DAY;
    } else if DayOf(u) < day {
      assert (DayOf(u) + 1) * MINUTES_PER_DAY <= day * MINUTES_PER_DAY;
    }
  }

  lemma FirstIsLeast(vals: seq<int>, min: int, max: int)
    requires IsField(vals, min, max)
    ensures min <= vals[0] <= max && forall v :: v in vals ==> vals[0] <= v
  {
    assert vals[0] in vals;
  }

  /** The hour branch lands on the next midnight, or on the first minute of the next listed hour. */
  lemma AdvanceHourTarget(t: int, s: Schedule)
    requires FiveField(s)
    requires MonthOf(t) in s.months && DayMatches(s, t) && HourOf(t) !in s.hours
    ensures var nextH := NextVal(s.hours, HourOf(t));
            Advance(t, s) == if nextH <= HourOf(t) then (DayOf(t) + 1) * MINUTES_PER_DAY
                             else DayOf(t) * MINUTES_PER_DAY + nextH * 60 + s.minutes[0]
  {
    hide YearOf, MonthOf, DayOf, DateInstant, NextVal, MonthDayOf, WeekdayOf, MinuteOf, HourOf, Midnight;
    NextMidnight(t);
    SameDateInstant(t, NextVal(s.hours, HourOf(t)), s.minutes[0]);
  }

  lemma AdvanceHour(t: int, s: Schedule)
    requires FiveField(s)
    requires MonthOf(t) in s.months && DayMatches(s, t) && HourOf(t) !in s.hours
    ensures Skips(s, t, Advance(t, s))
  {
    var day, h := DayOf(t), HourOf(t);
    var nextH, first := NextVal(s.hours, h), s.minutes[0];
    NextValIsLeast(s.hours, h);
    FirstIsLeast(s.minutes, 0, 59);
    AdvanceHourTarget(t, s);
    assert nextH < 24;
    hide FiveField, IsField, IsUpperField, Advance, NextVal, DayMatches;
    if nextH <= h {
      NoHourLeft(t, s);
    } else {
      NextHour(t, s, nextH, first);
    }
  }

  lemma NoHourLeft(t: int, s: Schedule)
    requires HourOf(t) !in s.hours && forall v :: v in s.hours ==> v <= HourOf(t)
    ensures Skips(s, t, (DayOf(t) + 1) * MINUTES_PER_DAY)
  {
    var day, h := DayOf(t), HourOf(t);
    BeforeClock(t, day + 1, 0, 0);
    BeforeClock(t, day, h, MinuteOf(t));
    hide DayOf, MonthDayOf, MonthOf, WeekdayOf, MinuteOf, HourOf;
    forall u | t <= u < (day + 1) * MINUTES_PER_DAY
      ensures !Matches(s, u)
    {
      BeforeClock(u, day, h, MinuteOf(t));
      BeforeClock(u, day + 1, 0, 0);
    }
  }

  lemma NextHour(t: int, s: Schedule, nextH: int, first: int)
    requires HourOf(t) !in s.hours && HourOf(t) < nextH < 24 && 0 <= first < 60
    requires forall v :: v in s.hours && v > HourOf(t) ==> nextH <= v
    requires forall v :: v in s.minutes ==> first <= v
    ensures Skips(s, t, DayOf(t) * MINUTES_PER_DAY + nextH * 60 + first)
  {
    var day, h := DayOf(t), HourOf(t);
    BeforeClock(t, day, nextH, first);
    BeforeClock(t, day, h, MinuteOf(t));
    hide DayOf, MonthDayOf, MonthOf, WeekdayOf, MinuteOf, HourOf;
    forall u | t <= u < day * MINUTES_PER_DAY + nextH * 60 + first
      ensures !Matches(s, u)
    {
      BeforeClock(u, day, h, MinuteOf(t));
      BeforeClock(u, day, nextH, first);
    }
  }

  lemma AdvanceMinute(t: int, s: Schedule)
    requires FiveField(s) && !Matches(s, t)
    requires MonthOf(t) in s.months && DayMatches(s, t) && HourOf(t) in s.hours
    ensures Skips(s, t, Advance(t, s))
  {
    var h, mi := HourOf(t), MinuteOf(t);
    var nextM := NextVal(s.minutes, mi);
    NextValIsLeast(s.minutes, mi);
    hide YearOf, MonthOf, DateInstant, NextVal, MonthDayOf, WeekdayOf, MinuteOf, HourOf;
    SameDateInstant(t, h + 1, 0);
    SameDateInstant(t, h, nextM);
    ClockSplit(t);
    var to := Advance(t, s);
    forall u | t <= u < to
      ensures !Matches(s, u)
    {
      assert DayOf(u) == DayOf(t);
      ClockSplit(u);
      assert HourOf(u) == h;
    }
  }

  /** Whatever field fails to match, advance goes forward and never jumps past a match. */
  lemma AdvanceSkipsNoMatch(t: int, s: Schedule)
    requires FiveField(s) && !Matches(s, t)
    ensures Skips(s, t, Advance(t, s))
  {
    hide Advance, Skips;
    if MonthOf(t) !in s.months {
      AdvanceMonth(t, s);
    } else if !DayMatches(s, t) {
      AdvanceDay(t, s);
    } else if HourOf(t) !in s.hours {
      AdvanceHour(t, s);
    } else {
      AdvanceMinute(t, s);
    }
  }

  // ----- NextAfter -----

  /** m is the first matching minute strictly after the nanosecond instant `after`. */
  ghost predicate IsFirstMatchAfter(s: Schedule, after: int, m: int) {
    && after < m * NANOS_PER_MINUTE
    && Matches(s, m)
    && forall u :: after < u * NANOS_PER_MINUTE && u < m ==> !Matches(s, u)
  }

  ghost predicate MatchInWindow(s: Schedule, after: int) {
    exists m :: after < m * NANOS_PER_MINUTE < after + SEARCH_WINDOW && Matches(s, m)
  }

  /** The earliest matching minute of the window if there is one, and one minute after `after` if not. */
  method NextAfter(s: Schedule, after: int) returns (next: int)
    requires s.every > 0 || FiveField(s)
    ensures s.every > 0 ==> next == after + s.every
    ensures s.every <= 0 && MatchInWindow(s, after) ==>
              exists m :: next == m * NANOS_PER_MINUTE && IsFirstMatchAfter(s, after, m)
    ensures s.every <= 0 && !MatchInWindow(s, after) ==> next == after + NANOS_PER_MINUTE
    ensures next > after
  {
    if s.every > 0 {
      return after + s.every;
    }
    hide Matches, Advance;
    var t := after / NANOS_PER_MINUTE + 1;
    var limit := after + SEARCH_WINDOW;
    while t * NANOS_PER_MINUTE < limit
      invariant after < t * NANOS_PER_MINUTE
      invariant forall u :: after < u * NANOS_PER_MINUTE && u < t ==> !Matches(s, u)
      decreases limit - t * NANOS_PER_MINUTE
    {
      if Matches(s, t) {
        assert IsFirstMatchAfter(s, after, t);
        return t * NANOS_PER_MINUTE;
      }
      AdvanceSkipsNoMatch(t, s);
      t := Advance(t, s);
    }
    return after + NANOS_PER_MINUTE;
  }

  // ----- When the search can come back empty-handed -----

  predicate MatchingDay(s: Schedule, day: int) {
    MonthOfDay(day) in s.months && MonthDayOfDay(day) in s.days && WeekdayOfDay(day) in s.weekdays
  }

  /** The first and the last listed minute of a matching day. */
  function FirstClock(s: Schedule): int
    requires FiveField(s)
  {
    NextVal(s.hours, -1) * 60 + s.minutes[0]
  }

  function LastClock(s: Schedule): int
    requires FiveField(s)
  {
    s.hours[|s.hours| - 1] * 60 + s.minutes[|s.minutes| - 1]
  }

  lemma HourRange(s: Schedule)
    requires FiveField(s)
    ensures NextVal(s.hours, -1) in s.hours && 0 <= NextVal(s.hours, -1) < 24
    ensures s.hours[|s.hours| - 1] in s.hours && 0 <= s.hours[|s.hours| - 1] < 24
    ensures forall h :: h in s.hours && h >= 0 ==> NextVal(s.hours, -1) <= h <= s.hours[|s.hours| - 1]
  {
    NextValIsLeast(s.hours, -1);
    hide NextVal;
    var h :| h in s.hours && h >= 0;
    LastIsGreatest(s.hours);
  }

  lemma LastIsGreatest(vals: seq<int>)
    requires StrictlyIncreasing(vals) && vals != []
    ensures forall v :: v in vals ==> v <= vals[|vals| - 1]
  {
  }

  lemma ClockRange(s: Schedule)
    requires FiveField(s)
    ensures 0 <= FirstClock(s) <= LastClock(s) < MINUTES_PER_DAY
  {
    HourRange(s);
    FirstIsLeast(s.minutes, 0, 59);
    assert s.minutes[|s.minutes| - 1] in s.minutes;
    hide FiveField, IsUpperField, IsField, NextVal;
  }

  /** Matching minutes lie on matching days, between the first and the last listed minute. */
  lemma MatchIsOnDay(s: Schedule, t: int)
    requires FiveField(s) && Matches(s, t)
    ensures MatchingDay(s, DayOf(t))
    ensures DayOf(t) * MINUTES_PER_DAY + FirstClock(s) <= t <= DayOf(t) * MINUTES_PER_DAY + LastClock(s)
  {
    HourRange(s);
    FirstIsLeast(s.minutes, 0, 59);
    LastIsGreatest(s.minutes);
    ClockSplit(t);
    hide FiveField, IsUpperField, IsField, NextVal, YearOfDay, MonthOfDay, MonthDayOfDay;
  }

  lemma ClockMatches(s: Schedule, day: int, h: int, mi: int)
    requires MatchingDay(s, day) && h in s.hours && mi in s.minutes && 0 <= h < 24 && 0 <= mi < 60
    ensures Matches(s, day * MINUTES_PER_DAY + h * 60 + mi)
    ensures DayOf(day * MINUTES_PER_DAY + h * 60 + mi) == day
  {
    ClockFields(day, h, mi);
    hide YearOfDay, MonthOfDay, MonthDayOfDay, HourOf, MinuteOf;
  }

  lemma FirstIsListed(s: Schedule) returns (h: int, mi: int)
    requires FiveField(s)
    ensures h in s.hours && mi in s.minutes && 0 <= h < 24 && 0 <= mi < 60 && FirstClock(s) == h * 60 + mi
  {
    HourRange(s);
    FirstIsLeast(s.minutes, 0, 59);
    h, mi := NextVal(s.hours, -1), s.minutes[0];
  }

  lemma LastIsListed(s: Schedule) returns (h: int, mi: int)
    requires FiveField(s)
    ensures h in s.hours && mi in s.minutes && 0 <= h < 24 && 0 <= mi < 60 && LastClock(s) == h * 60 + mi
  {
    HourRange(s);
    h, mi := s.hours[|s.hours| - 1], s.minutes[|s.minutes| - 1];
    assert mi in s.minutes;
  }

  lemma DayHasMatches(s: Schedule, day: int)
    requires FiveField(s) && MatchingDay(s, day)
    ensures Matches(s, day * MINUTES_PER_DAY + FirstClock(s)) && DayOf(day * MINUTES_PER_DAY + FirstClock(s)) == day
    ensures Matches(s, day * MINUTES_PER_DAY + LastClock(s)) && DayOf(day * MINUTES_PER_DAY + LastClock(s)) == day
  {
    hide *;
    var h1, m1 := FirstIsListed(s);
    ClockMatches(s, day, h1, m1);
    var h2, m2 := LastIsListed(s);
    ClockMatches(s, day, h2, m2);
  }

  /** The next matching day comes within the window after the last minute of this one. */
  predicate FollowedClosely(s: Schedule, day: int)
    requires FiveField(s)
  {
    exists next :: day < next <= day + 1460 && MatchingDay(s, next)
                   && (next < day + 1460 || FirstClock(s) < LastClock(s))
  }

  /** A look at the days of one 400-year cycle: some day matches, and each that does is followed closely. */
  predicate NoLongGap(s: Schedule)
    requires FiveField(s)
  {
    && (exists day :: 0 <= day < DAYS_PER_CYCLE && MatchingDay(s, day))
    && (forall day :: 0 <= day < DAYS_PER_CYCLE && MatchingDay(s, day) ==> FollowedClosely(s, day))
  }

  lemma MatchingDaysRepeat(s: Schedule, day: int, k: int)
    ensures MatchingDay(s, day + DAYS_PER_CYCLE * k) <==> MatchingDay(s, day)
  {
    CyclesRepeat(day, k);
  }

  /** What is seen in one cycle holds in all. */
  lemma AlwaysFollowedClosely(s: Schedule, day: int)
    requires FiveField(s) && NoLongGap(s) && MatchingDay(s, day)
    ensures FollowedClosely(s, day)
  {
    hide FiveField, MatchingDay, FirstClock, LastClock;
    var k, first := day / DAYS_PER_CYCLE, day % DAYS_PER_CYCLE;
    MatchingDaysRepeat(s, first, k);
    var next :| first < next <= first + 1460 && MatchingDay(s, next)
                && (next < first + 1460 || FirstClock(s) < LastClock(s));
    MatchingDaysRepeat(s, next, k);
    assert MatchingDay(s, next + DAYS_PER_CYCLE * k);
  }

  /** A match is followed by another before the window is over. */
  lemma NextMatch(s: Schedule, m: int) returns (m1: int)
    requires FiveField(s) && NoLongGap(s) && Matches(s, m)
    ensures Matches(s, m1) && m < m1 < m + 1460 * MINUTES_PER_DAY
  {
    hide FiveField, Matches, MatchingDay, FirstClock, LastClock, DayOf, NoLongGap;
    var day := DayOf(m);
    MatchIsOnDay(s, m);
    DayHasMatches(s, day);
    ClockRange(s);
    m1 := day * MINUTES_PER_DAY + LastClock(s);
    if m == m1 {
      AlwaysFollowedClosely(s, day);
      var next :| day < next <= day + 1460 && MatchingDay(s, next)
                  && (next < day + 1460 || FirstClock(s) < LastClock(s));
      DayHasMatches(s, next);
      m1 := next * MINUTES_PER_DAY + FirstClock(s);
    }
  }

  /** From any match on, the search meets one in every window. */
  lemma {:induction false} MatchesGoOn(s: Schedule, after: int, m: int)
    requires FiveField(s) && NoLongGap(s) && Matches(s, m) && m * NANOS_PER_MINUTE <= after
    ensures MatchInWindow(s, after)
    decreases after - m * NANOS_PER_MINUTE
  {
    hide FiveField, Matches, NoLongGap;
    var m1 := NextMatch(s, m);
    if m1 * NANOS_PER_MINUTE <= after {
      MatchesGoOn(s, after, m1);
    }
  }

  lemma GapsAreShort(s: Schedule, day: int)
    requires FiveField(s) && MatchingDay(s, day) && forall after :: MatchInWindow(s, after)
    ensures FollowedClosely(s, day)
  {
    ClockRange(s);
    var last := day * MINUTES_PER_DAY + LastClock(s);
    assert MatchInWindow(s, last * NANOS_PER_MINUTE);
    var m :| last < m < last + 1460 * MINUTES_PER_DAY && Matches(s, m);
    MatchIsOnDay(s, m);
    hide FiveField, Matches, MatchingDay, FirstClock, LastClock, DayOf;
    assert MatchingDay(s, DayOf(m));
  }

  /**
    For every parsed schedule: the search finds a match from every starting point
    exactly when one cycle of the calendar shows no gap as long as the window.
    */
  lemma SearchAlwaysSucceedsIff(s: Schedule)
    requires FiveField(s)
    ensures (forall after :: MatchInWindow(s, after)) <==> NoLongGap(s)
  {
    hide FiveField, Matches, MatchingDay, FirstClock, LastClock, DayOf;
    if NoLongGap(s) {
      var day :| 0 <= day < DAYS_PER_CYCLE && MatchingDay(s, day);
      forall after
        ensures MatchInWindow(s, after)
      {
        var k := after / NANOS_PER_MINUTE / MINUTES_PER_DAY / DAYS_PER_CYCLE - 1;
        var early := day + DAYS_PER_CYCLE * k;
        MatchingDaysRepeat(s, day, k);
        DayHasMatches(s, early);
        ClockRange(s);
        MatchesGoOn(s, after, early * MINUTES_PER_DAY + FirstClock(s));
      }
    }
    if forall after :: MatchInWindow(s, after) {
      SomeDayMatches(s);
      forall day | 0 <= day < DAYS_PER_CYCLE && MatchingDay(s, day)
        ensures FollowedClosely(s, day)
      {
        GapsAreShort(s, day);
      }
    }
  }

  lemma SomeDayMatches(s: Schedule)
    requires FiveField(s) && MatchInWindow(s, 0)
    ensures exists day :: 0 <= day < DAYS_PER_CYCLE && MatchingDay(s, day)
  {
    hide FiveField, Matches, MatchingDay, FirstClock, LastClock, DayOf;
    var m :| 0 < m * NANOS_PER_MINUTE < SEARCH_WINDOW && Matches(s, m);
    MatchIsOnDay(s, m);
    var k := DayOf(m) / DAYS_PER_CYCLE;
    MatchingDaysRepeat(s, DayOf(m) % DAYS_PER_CYCLE, k);
  }

  // With all weekdays listed, the dates alone decide.

  predicate EveryWeekday(s: Schedule) {
    forall w :: 0 <= w < 7 ==> w in s.weekdays
  }

  /** Some listed date exists in every year, leap or not. */
  predicate HasYearlyDate(s: Schedule) {
    exists m, d :: m in s.months && d in s.days && 1 <= d <= DaysIn(2023, m)
  }

  lemma DateMatches(s: Schedule, y: int, m: int, d: int)
    requires FiveField(s) && EveryWeekday(s)
    requires m in s.months && d in s.days && IsDate(y, m, d)
    ensures Matches(s, DateInstant(y, m, d, 0, 0) + FirstClock(s))
  {
    DateRoundTrip(y, m, d);
    hide FiveField, YearOfDay, MonthOfDay, MonthDayOfDay, FirstClock, LastClock, DayNumber;
    DayHasMatches(s, DayNumber(y, m, d));
  }

  lemma NextYearDay(day: int, m: int, d: int)
    requires IsDate(YearOfDay(day) + 1, m, d)
    ensures day < DayNumber(YearOfDay(day) + 1, m, d) < day + 800
  {
    var y := YearOfDay(day);
    YearOfDayBrackets(day);
    hide DaysBeforeYear, YearOfDay, DaysIn;
    YearLength(y);
    YearLength(y + 1);
    MonthsMonotone(y + 1, m + 1, 13);
    MonthsFillYear(y + 1);
  }

  /** Any date of next year lies within the search window. */
  lemma NextYearIsNear(after: int, m: int, d: int, clock: int)
    requires IsDate(YearOf(after / NANOS_PER_MINUTE) + 1, m, d) && 0 <= clock < MINUTES_PER_DAY
    ensures var t := DateInstant(YearOf(after / NANOS_PER_MINUTE) + 1, m, d, 0, 0) + clock;
            after < t * NANOS_PER_MINUTE < after + SEARCH_WINDOW
  {
    var t0 := after / NANOS_PER_MINUTE;
    var day := DayOf(t0);
    NextYearDay(day, m, d);
    hide YearOfDay, DayNumber;
    var t := DateInstant(YearOf(t0) + 1, m, d, 0, 0) + clock;
    assert t0 < t < t0 + 1000 * MINUTES_PER_DAY;
  }

  /** 2024-02-29T23:59Z, in nanoseconds. */
  const LAST_MINUTE_OF_LEAP_DAY: int := DateInstant(2024, 2, 29, 23, 59) * NANOS_PER_MINUTE

  /** Leap days before and after the one of 2024 are at least 1461 days away from it. */
  lemma LeapDaysAreFarApart(y: int)
    requires IsLeap(y) && y != 2024
    ensures DayNumber(y, 2, 29) <= DayNumber(2024, 2, 29) - 1461
         || DayNumber(2024, 2, 29) + 1461 <= DayNumber(y, 2, 29)
  {
    if y < 2024 {
      YearsMonotone(y, 2020);
    } else {
      YearsMonotone(2028, y);
    }
  }

  /** The four years after a leap day, short of one day, hold no other leap day. */
  lemma NoLeapDayInWindow(m: int)
    requires LAST_MINUTE_OF_LEAP_DAY < m * NANOS_PER_MINUTE < LAST_MINUTE_OF_LEAP_DAY + SEARCH_WINDOW
    ensures !(MonthOf(m) == 2 && MonthDayOf(m) == 29)
  {
    hide DayNumber, YearOfDay, MonthOfDay, MonthDayOfDay;
    CivilRoundTrip(DayOf(m));
    assert DayNumber(2024, 2, 29) < DayOf(m) < DayNumber(2024, 2, 29) + 1461;
    if MonthOf(m) == 2 && MonthDayOf(m) == 29 && YearOf(m) != 2024 {
      LeapDaysAreFarApart(YearOf(m));
    }
  }

  /**
    A schedule that lists every weekday finds a match from every starting point
    exactly when one of its dates exists in every year.  Dates such as 30
    February never come, and a schedule for 29 February alone, asked on a leap
    day, has its next match one day outside the window: both reach the fallback.
    */
  lemma EveryWeekdaySucceedsIff(s: Schedule)
    requires FiveField(s) && EveryWeekday(s)
    ensures (forall after :: MatchInWindow(s, after)) <==> HasYearlyDate(s)
  {
    if HasYearlyDate(s) {
      forall after
        ensures MatchInWindow(s, after)
      {
        YearlyDateIsFound(s, after);
      }
    } else {
      LeapDayIsMissed(s);
    }
  }

  lemma YearlyDateIsFound(s: Schedule, after: int)
    requires FiveField(s) && EveryWeekday(s) && HasYearlyDate(s)
    ensures MatchInWindow(s, after)
  {
    var m, d :| m in s.months && d in s.days && 1 <= d <= DaysIn(2023, m);
    var y := YearOf(after / NANOS_PER_MINUTE) + 1;
    assert IsDate(y, m, d);
    hide YearOf, DateInstant, FiveField, EveryWeekday, FirstClock, LastClock, Matches, IsDate;
    DateMatches(s, y, m, d);
    ClockRange(s);
    NextYearIsNear(after, m, d, FirstClock(s));
  }

  lemma LeapDayIsMissed(s: Schedule)
    requires FiveField(s) && !HasYearlyDate(s)
    ensures !MatchInWindow(s, LAST_MINUTE_OF_LEAP_DAY)
  {
    hide DayNumber, YearOfDay, MonthOfDay, MonthDayOfDay, FiveField;
    forall m | LAST_MINUTE_OF_LEAP_DAY < m * NANOS_PER_MINUTE < LAST_MINUTE_OF_LEAP_DAY + SEARCH_WINDOW
      ensures !Matches(s, m)
    {
      NoLeapDayInWindow(m);
      CivilRoundTrip(DayOf(m));
      assert DaysIn(YearOf(m), MonthOf(m)) > DaysIn(2023, MonthOf(m)) ==> MonthOf(m) == 2;
    }
  }
}
