/**
 * The proleptic Gregorian calendar of section 21.4.1 of ECMA-262, in whole minutes since the epoch:
 * what `Date.UTC`, the `getUTC…` readers and the `setUTC…` writers compute.
 *
 * `DayFromYear` and the month table go from a year and a month to a day; the year and the month of a
 * day are searched for and proved unique, so reading the fields of a day and making a day of them are
 * inverse. `MakeDay` carries months beyond the year and days beyond the month, which is what the
 * walk of Cron uses to reach the next month and the next day.
 *
 * Divisions are Euclidean, as the floor of the standard requires for days before the epoch.
 */
module Calendar {
  const MINUTES_PER_DAY := 1440

  // ----- Years -----

  predicate Leap(y: int) {
    y % 4 == 0 && (y % 100 != 0 || y % 400 == 0)
  }

  function DaysInYear(y: int): int {
    if Leap(y) then 366 else 365
  }

  function DayFromYear(y: int): int {
    365 * (y - 1970) + (y - 1969) / 4 - (y - 1901) / 100 + (y - 1601) / 400
  }

  lemma QuotientBy400(a: int, q: int)
    requires 400 * q <= a < 400 * q + 400
    ensures a / 400 == q && a % 400 == a - 400 * q
  {
  }

  lemma FourthYear(y: int)
    ensures (y - 1968) / 4 == (y - 1969) / 4 + (if y % 4 == 0 then 1 else 0)
  {
    var q := y / 4;
  }

  lemma CenturyYear(y: int)
    ensures (y - 1900) / 100 == (y - 1901) / 100 + (if y % 100 == 0 then 1 else 0)
  {
    var q := y / 100;
  }

  lemma FourthCentury(y: int)
    ensures (y - 1600) / 400 == (y - 1601) / 400 + (if y % 400 == 0 then 1 else 0)
  {
    var q := y / 400;
    QuotientBy400(y - 1600, q - 4);
    QuotientBy400(y - 1601, if y % 400 == 0 then q - 5 else q - 4);
  }

  lemma LeapNesting(y: int)
    ensures y % 400 == 0 ==> y % 100 == 0
    ensures y % 100 == 0 ==> y % 4 == 0
  {
  }

  lemma YearLength(y: int)
    ensures DayFromYear(y + 1) == DayFromYear(y) + DaysInYear(y)
  {
    FourthYear(y);
    CenturyYear(y);
    FourthCentury(y);
    LeapNesting(y);
  }

  predicate InYear(day: int, y: int) {
    DayFromYear(y) <= day < DayFromYear(y + 1)
  }

  /** The year of a day, searched from `y`. */
  function YearFrom(day: int, y: int): (year: int)
    ensures InYear(day, year)
    decreases if day < DayFromYear(y) then DayFromYear(y) - day else day - DayFromYear(y)
  {
    YearLength(y);
    YearLength(y - 1);
    if day < DayFromYear(y) then
      if day < DayFromYear(y - 1) then YearFrom(day, y - 1) else y - 1
    else if DayFromYear(y + 1) <= day then YearFrom(day, y + 1)
    else y
  }

  function YearOf(day: int): (y: int)
    ensures InYear(day, y)
  {
    YearFrom(day, 1970)
  }

  lemma YearsGrow(y: int, z: int)
    requires y <= z
    ensures DayFromYear(y) <= DayFromYear(z)
    decreases z - y
  {
    if y < z {
      YearLength(y);
      YearsGrow(y + 1, z);
    }
  }

  lemma YearIsUnique(day: int, y: int)
    requires InYear(day, y)
    ensures YearOf(day) == y
  {
    var z := YearOf(day);
    if z < y { YearsGrow(z + 1, y); }
    if y < z { YearsGrow(y + 1, z); }
  }

  // ----- Months -----

  /** Days of a year before its `m`-th month, counted from zero. */
  function MonthStart(m: nat, leap: bool): nat
    requires m <= 12
  {
    var extra := if leap && m >= 2 then 1 else 0;
    [0, 31, 59, 90, 120, 151, 181, 212, 243, 273, 304, 334, 365][m] + extra
  }

  lemma MonthsGrow(m: nat, n: nat, leap: bool)
    requires m < n <= 12
    ensures MonthStart(m, leap) + 28 <= MonthStart(n, leap)
  {
  }

  function MonthFrom(dayInYear: nat, leap: bool, m: nat): (month: nat)
    requires m < 12 && MonthStart(m, leap) <= dayInYear < MonthStart(12, leap)
    ensures m <= month < 12 && MonthStart(month, leap) <= dayInYear < MonthStart(month + 1, leap)
    decreases 12 - m
  {
    if dayInYear < MonthStart(m + 1, leap) then m else MonthFrom(dayInYear, leap, m + 1)
  }

  /** First day of a month, months 0 to 12 (the 12th is the first of the next year). */
  function FirstOf(y: int, m: nat): int
    requires m <= 12
  {
    DayFromYear(y) + MonthStart(m, Leap(y))
  }

  /** Month of a day, 0 for January. */
  function MonthOf(day: int): (m: nat)
    ensures m < 12 && FirstOf(YearOf(day), m) <= day < FirstOf(YearOf(day), m + 1)
  {
    var y := YearOf(day);
    YearLength(y);
    MonthFrom(day - DayFromYear(y), Leap(y), 0)
  }

  /** Day of the month, from 1. */
  function DateOf(day: int): int {
    day - FirstOf(YearOf(day), MonthOf(day)) + 1
  }

  /** `MakeDay`: months beyond the year and days beyond the month carry over. */
  function MakeDay(year: int, month: int, date: int): int {
    FirstOf(year + month / 12, month % 12) + date - 1
  }

  lemma TwelfthMonth(y: int)
    ensures FirstOf(y + 1, 0) == FirstOf(y, 12)
  {
    YearLength(y);
  }

  lemma MakeDayInYear(y: int, m: nat, date: int)
    requires m <= 12
    ensures MakeDay(y, m, date) == FirstOf(y, m) + date - 1
  {
    TwelfthMonth(y);
  }

  lemma MonthsOrdered(y: int, m: nat, n: nat)
    requires m <= n <= 12
    ensures FirstOf(y, m) <= FirstOf(y, n)
  {
    if m < n { MonthsGrow(m, n, Leap(y)); }
  }

  lemma MonthIsUnique(day: int, y: int, m: nat)
    requires m < 12 && FirstOf(y, m) <= day < FirstOf(y, m + 1)
    ensures YearOf(day) == y && MonthOf(day) == m
  {
    MonthsOrdered(y, 0, m);
    MonthsOrdered(y, m + 1, 12);
    TwelfthMonth(y);
    YearIsUnique(day, y);
    var n := MonthOf(day);
    if n < m { MonthsOrdered(y, n + 1, m); }
    if m < n { MonthsOrdered(y, m + 1, n); }
  }

  /** All days up to the first day of the next month, as `MakeDay` gives it, are of the same month. */
  lemma SameMonth(day: int, other: int)
    requires day <= other < MakeDay(YearOf(day), MonthOf(day) + 1, 1)
    ensures YearOf(other) == YearOf(day) && MonthOf(other) == MonthOf(day)
  {
    MakeDayInYear(YearOf(day), MonthOf(day) + 1, 1);
    MonthIsUnique(other, YearOf(day), MonthOf(day));
  }

  lemma NextMonthIsLater(day: int)
    ensures day < MakeDay(YearOf(day), MonthOf(day) + 1, 1)
  {
    MakeDayInYear(YearOf(day), MonthOf(day) + 1, 1);
  }

  /** Reading the fields of a day and making a day of them are inverse. */
  lemma DayRoundTrip(day: int)
    ensures MakeDay(YearOf(day), MonthOf(day), DateOf(day)) == day
    ensures 1 <= DateOf(day)
  {
    MakeDayInYear(YearOf(day), MonthOf(day), DateOf(day));
  }

  lemma FieldsRoundTrip(year: int, month: int, date: int)
    requires 0 <= month < 12 && 1 <= date && MakeDay(year, month, date) < MakeDay(year, month + 1, 1)
    ensures var day := MakeDay(year, month, date);
            YearOf(day) == year && MonthOf(day) == month && DateOf(day) == date
  {
    MakeDayInYear(year, month, date);
    MakeDayInYear(year, month + 1, 1);
    MonthIsUnique(MakeDay(year, month, date), year, month);
  }

  /** Day of the week, 0 for Sunday: the epoch was a Thursday. */
  function WeekdayOf(day: int): int {
    (day + 4) % 7
  }

  // ----- Minutes -----

  function Day(t: int): int { t / MINUTES_PER_DAY }
  function HourOf(t: int): int { t % MINUTES_PER_DAY / 60 }
  function MinuteOf(t: int): int { t % 60 }

  function SetMonth(t: int, month: int, date: int): int {
    MakeDay(YearOf(Day(t)), month, date) * MINUTES_PER_DAY + t % MINUTES_PER_DAY
  }

  function SetDate(t: int, date: int): int {
    MakeDay(YearOf(Day(t)), MonthOf(Day(t)), date) * MINUTES_PER_DAY + t % MINUTES_PER_DAY
  }

  function SetHours(t: int, hour: int, minute: int): int {
    Day(t) * MINUTES_PER_DAY + hour * 60 + minute
  }

  function SetMinutes(t: int, minute: int): int {
    Day(t) * MINUTES_PER_DAY + HourOf(t) * 60 + minute
  }

  // ----- Wall clocks -----

  /** What a clock shows; months from 1. */
  datatype WallClock = WallClock(year: int, month: int, day: int, hour: int, minute: int)

  function ToWall(t: int): WallClock {
    WallClock(YearOf(Day(t)), MonthOf(Day(t)) + 1, DateOf(Day(t)), HourOf(t), MinuteOf(t))
  }

  /** `Date.UTC` of the fields. */
  function FromWall(w: WallClock): int {
    MakeDay(w.year, w.month - 1, w.day) * MINUTES_PER_DAY + w.hour * 60 + w.minute
  }

  lemma ClockParts(t: int)
    ensures Day(t) * MINUTES_PER_DAY + HourOf(t) * 60 + MinuteOf(t) == t
    ensures 0 <= HourOf(t) < 24 && 0 <= MinuteOf(t) < 60
  {
    var r := t % MINUTES_PER_DAY;
    assert r % 60 == t % 60;
  }

  lemma WallOfDay(day: int, hour: int, minute: int)
    ensures FromWall(WallClock(YearOf(day), MonthOf(day) + 1, DateOf(day), hour, minute))
            == day * MINUTES_PER_DAY + hour * 60 + minute
  {
    DayRoundTrip(day);
  }

  lemma WallRoundTrip(t: int)
    ensures FromWall(ToWall(t)) == t
  {
    ClockParts(t);
    WallOfDay(Day(t), HourOf(t), MinuteOf(t));
  }

  lemma WallInjective(t: int, u: int)
    requires ToWall(t) == ToWall(u)
    ensures t == u
  {
    WallRoundTrip(t);
    WallRoundTrip(u);
  }

  /** Days of a month, 0 for January. */
  function LengthOf(y: int, m: nat): int {
    if m == 1 then (if y % 4 == 0 && (y % 100 != 0 || y % 400 == 0) then 29 else 28)
    else if m in {3, 5, 8, 10} then 30 else 31
  }

  lemma MonthHasLength(y: int, m: nat)
    requires m < 12
    ensures FirstOf(y, m + 1) == FirstOf(y, m) + LengthOf(y, m) && LengthOf(y, m) >= 28
  {
    hide DayFromYear;
  }

  lemma DateIs(day: int, y: int, m: nat)
    requires m < 12 && FirstOf(y, m) <= day < FirstOf(y, m + 1)
    ensures YearOf(day) == y && MonthOf(day) == m && DateOf(day) == day - FirstOf(y, m) + 1
  {
    MonthIsUnique(day, y, m);
    hide YearOf, MonthOf, FirstOf;
  }

  lemma DateFacts(day: int)
    ensures DateOf(day) == day - FirstOf(YearOf(day), MonthOf(day)) + 1
    ensures FirstOf(YearOf(day), MonthOf(day)) <= day < FirstOf(YearOf(day), MonthOf(day) + 1)
  {
    hide YearOf, MonthOf, FirstOf;
  }

  /** Each day is the next one of its month, or after the last one the first of the next month. */
  lemma DatesGoOn(day: int)
    ensures var (y, m, d) := (YearOf(day), MonthOf(day), DateOf(day));
            (YearOf(day + 1), MonthOf(day + 1), DateOf(day + 1))
            == if d < LengthOf(y, m) then (y, m, d + 1) else if m < 11 then (y, m + 1, 1) else (y + 1, 0, 1)
  {
    hide *;
    var y, m, d := YearOf(day), MonthOf(day), DateOf(day);
    DateFacts(day);
    MonthHasLength(y, m);
    if d < LengthOf(y, m) {
      DateIs(day + 1, y, m);
    } else if m < 11 {
      MonthHasLength(y, m + 1);
      DateIs(day + 1, y, m + 1);
    } else {
      TwelfthMonth(y);
      MonthHasLength(y + 1, 0);
      DateIs(day + 1, y + 1, 0);
    }
  }

  lemma FirstOf1970()
    ensures FirstOf(1970, 0) == 0
  {
  }

  lemma EpochIsFirst()
    ensures ToWall(0) == WallClock(1970, 1, 1, 0, 0)
  {
    hide YearOf, MonthOf, DateOf, FirstOf;
    FirstOf1970();
    MonthHasLength(1970, 0);
    DateIs(0, 1970, 0);
  }

  lemma PartsAre(day: int, hour: int, minute: int)
    requires 0 <= hour < 24 && 0 <= minute < 60
    ensures var t := day * MINUTES_PER_DAY + hour * 60 + minute;
            Day(t) == day && HourOf(t) == hour && MinuteOf(t) == minute
  {
    var t := day * MINUTES_PER_DAY + hour * 60 + minute;
    assert t / MINUTES_PER_DAY == day && t % MINUTES_PER_DAY == hour * 60 + minute;
    assert t == 60 * (24 * day + hour) + minute;
  }

  lemma NextMinute(t: int)
    ensures (Day(t + 1), HourOf(t + 1), MinuteOf(t + 1))
            == if MinuteOf(t) < 59 then (Day(t), HourOf(t), MinuteOf(t) + 1)
               else if HourOf(t) < 23 then (Day(t), HourOf(t) + 1, 0)
               else (Day(t) + 1, 0, 0)
  {
    hide Day, HourOf, MinuteOf;
    ClockParts(t);
    var day, hour, minute := Day(t), HourOf(t), MinuteOf(t);
    if minute < 59 {
      PartsAre(day, hour, minute + 1);
    } else if hour < 23 {
      PartsAre(day, hour + 1, 0);
    } else {
      PartsAre(day + 1, 0, 0);
    }
  }

  lemma WallShows(t: int)
    ensures ToWall(t) == WallClock(YearOf(Day(t)), MonthOf(Day(t)) + 1, DateOf(Day(t)), HourOf(t), MinuteOf(t))
    ensures 0 <= HourOf(t) < 24 && 0 <= MinuteOf(t) < 60 && MonthOf(Day(t)) < 12
  {
    ClockParts(t);
    hide YearOf, MonthOf, DateOf, Day, HourOf, MinuteOf;
  }

  /**
   * The clock shows the first minute of 1970 at the epoch and goes on minute by minute: hours of sixty,
   * days of twenty-four, months of their lengths, and years of twelve.
   */
  lemma ClocksGoOn(t: int)
    ensures ToWall(0) == WallClock(1970, 1, 1, 0, 0)
    ensures var w := ToWall(t);
            ToWall(t + 1)
            == if w.minute < 59 then w.(minute := w.minute + 1)
               else if w.hour < 23 then w.(minute := 0, hour := w.hour + 1)
               else if w.day < LengthOf(w.year, w.month - 1) then w.(minute := 0, hour := 0, day := w.day + 1)
               else if w.month < 12 then WallClock(w.year, w.month + 1, 1, 0, 0)
               else WallClock(w.year + 1, 1, 1, 0, 0)
  {
    hide *;
    EpochIsFirst();
    WallShows(t);
    WallShows(t + 1);
    NextMinute(t);
    DatesGoOn(Day(t));
  }

  /** Days at most two apart have different dates. */
  lemma DatesDiffer(day: int, other: int)
    requires day < other <= day + 2
    ensures DateOf(day) != DateOf(other)
  {
    var y, m := YearOf(day), MonthOf(day);
    var first := other - DateOf(other) + 1;
    MonthLasts(y, m);
    MonthLasts(YearOf(other), MonthOf(other));
    MonthIsUnique(first, YearOf(other), MonthOf(other));
    if FirstOf(y, m) <= first < FirstOf(y, m) + 28 { MonthIsUnique(first, y, m); }
    hide YearOf, MonthOf, FirstOf;
  }

  lemma MonthLasts(y: int, m: nat)
    requires m < 12
    ensures FirstOf(y, m) + 28 <= FirstOf(y, m + 1)
  {
    MonthsGrow(m, m + 1, Leap(y));
  }

  /** Whether a clock at most two days away shows the same date and hour. */
  lemma SameDateAndHour(t: int, u: int)
    requires -2880 <= u - t <= 2880
    ensures ToWall(u).hour == ToWall(t).hour && ToWall(u).day == ToWall(t).day <==> 0 <= MinuteOf(t) + (u - t) < 60
  {
    ClockParts(t);
    ClockParts(u);
    if Day(t) < Day(u) { DatesDiffer(Day(t), Day(u)); }
    if Day(u) < Day(t) { DatesDiffer(Day(u), Day(t)); }
    hide DateOf, YearOf, MonthOf;
  }
}
