/**
 * Cron schedules in a time zone. `CronNext` walks the wall clock with month, day and hour jumps; it is
 * proved equal to `Scan`, which goes minute by minute to the earliest occurrence.
 */
module Cron {
  import opened Options
  import opened Calendar
  import opened TimeZone

  const MS_PER_MINUTE := 60_000
  const HORIZON := 5 * 366 * MINUTES_PER_DAY

  datatype CronSpec = CronSpec(
    minutes: set<int>,
    hours: set<int>,
    daysOfMonth: set<int>,
    months: set<int>,
    daysOfWeek: set<int>,
    domRestricted: bool,
    dowRestricted: bool
  )

  /** When both day fields are restricted, either one is enough. */
  predicate DayOk(spec: CronSpec, date: int, weekday: int) {
    var domOk := date in spec.daysOfMonth;
    var dowOk := weekday in spec.daysOfWeek;
    if spec.domRestricted && spec.dowRestricted then domOk || dowOk
    else if spec.domRestricted then domOk
    else if spec.dowRestricted then dowOk
    else true
  }

  predicate WallMatches(spec: CronSpec, wall: WallClock, weekday: int) {
    && wall.minute in spec.minutes
    && wall.hour in spec.hours
    && wall.month in spec.months
    && DayOk(spec, wall.day, weekday)
  }

  function DayOfWeek(wall: WallClock): int {
    WeekdayOf(MakeDay(wall.year, wall.month - 1, wall.day))
  }

  /** Does the schedule match the wall clock shown at the time `ts`, in milliseconds? */
  predicate CronMatches(spec: CronSpec, ts: int, zone: Zone) {
    var wall := WallClockIn(zone, ts / MS_PER_MINUTE);
    WallMatches(spec, wall, DayOfWeek(wall))
  }

  // ----- The naive scan -----

  predicate Matches(spec: CronSpec, w: int) {
    WallMatches(spec, ToWall(w), DayOfWeek(ToWall(w)))
  }

  /** The wall minute `w` matches and stands for an instant after `after`. */
  predicate Hit(spec: CronSpec, zone: Zone, after: int, w: int) {
    && Matches(spec, w)
    && var instant := InstantOfWallClock(zone, ToWall(w));
       instant.Some? && after < instant.value * MS_PER_MINUTE
  }

  /** The instant of the first hit among the wall minutes from `w` to `limit`. */
  function Scan(spec: CronSpec, zone: Zone, after: int, w: int, limit: int): Option<int>
    decreases limit - w
  {
    if limit < w then None
    else if Hit(spec, zone, after, w) then Some(InstantOfWallClock(zone, ToWall(w)).value * MS_PER_MINUTE)
    else Scan(spec, zone, after, w + 1, limit)
  }

  function Start(zone: Zone, after: int): int {
    Shown(zone, after / MS_PER_MINUTE) + 1
  }

  function NextOccurrence(spec: CronSpec, zone: Zone, after: int): Option<int> {
    Scan(spec, zone, after, Start(zone, after), Start(zone, after) + HORIZON)
  }

  // ----- No jump steps over a match -----

  /** What the walk reads from its cursor decides whether a wall minute matches. */
  lemma MatchesByFields(spec: CronSpec, w: int)
    ensures Matches(spec, w) <==>
            && MinuteOf(w) in spec.minutes
            && HourOf(w) in spec.hours
            && MonthOf(Day(w)) + 1 in spec.months
            && DayOk(spec, DateOf(Day(w)), WeekdayOf(Day(w)))
  {
    hide MakeDay, DateOf, MonthOf, YearOf, WeekdayOf, DayOk;
    DayRoundTrip(Day(w));
  }

  ghost predicate NothingBetween(spec: CronSpec, w: int, u: int) {
    w < u && forall v :: w <= v < u ==> !Matches(spec, v)
  }

  lemma {:induction false} SkipsNothing(spec: CronSpec, zone: Zone, after: int, w: int, u: int, limit: int)
    requires w <= u && forall v :: w <= v < u ==> !Matches(spec, v)
    ensures Scan(spec, zone, after, w, limit) == Scan(spec, zone, after, u, limit)
    decreases u - w
  {
    hide Matches, InstantOfWallClock;
    if w < u { SkipsNothing(spec, zone, after, w + 1, u, limit); }
  }

  lemma DayOfSum(day: int, rest: int)
    requires 0 <= rest < MINUTES_PER_DAY
    ensures Day(day * MINUTES_PER_DAY + rest) == day
    ensures (day * MINUTES_PER_DAY + rest) % MINUTES_PER_DAY == rest
  {
  }

  lemma MinutesOfDays(w: int, v: int, day: int)
    requires w <= v < day * MINUTES_PER_DAY
    ensures Day(w) <= Day(v) < day
  {
  }

  /** The first midnight of the next month, as the walk computes it. */
  function NextMonth(w: int): int {
    SetHours(SetMonth(w, MonthOf(Day(w)) + 1, 1), 0, 0)
  }

  function NextDay(w: int): int {
    SetHours(SetDate(w, DateOf(Day(w)) + 1), 0, 0)
  }

  function NextHour(w: int): int {
    SetHours(w, HourOf(w) + 1, 0)
  }

  function NextMinute(w: int): int {
    SetMinutes(w, MinuteOf(w) + 1)
  }

  lemma NextMonthIs(w: int)
    ensures NextMonth(w) == MakeDay(YearOf(Day(w)), MonthOf(Day(w)) + 1, 1) * MINUTES_PER_DAY
    ensures w < NextMonth(w)
  {
    hide MakeDay, MonthOf, YearOf;
    var day := MakeDay(YearOf(Day(w)), MonthOf(Day(w)) + 1, 1);
    DayOfSum(day, w % MINUTES_PER_DAY);
    NextMonthIsLater(Day(w));
  }

  lemma MonthJump(spec: CronSpec, w: int)
    requires MonthOf(Day(w)) + 1 !in spec.months
    ensures NothingBetween(spec, w, NextMonth(w))
  {
    hide MakeDay, MonthOf, YearOf, Matches, DateOf, DayOk, NextMonth;
    NextMonthIs(w);
    forall v | w <= v < NextMonth(w) ensures !Matches(spec, v) {
      MinutesOfDays(w, v, MakeDay(YearOf(Day(w)), MonthOf(Day(w)) + 1, 1));
      SameMonth(Day(w), Day(v));
      MatchesByFields(spec, v);
    }
  }

  lemma NextDayIs(w: int)
    ensures NextDay(w) == (Day(w) + 1) * MINUTES_PER_DAY && w < NextDay(w)
  {
    hide MonthOf, YearOf, DateOf, FirstOf;
    DayRoundTrip(Day(w));
    assert MakeDay(YearOf(Day(w)), MonthOf(Day(w)), DateOf(Day(w)) + 1) == Day(w) + 1;
    DayOfSum(Day(w) + 1, w % MINUTES_PER_DAY);
  }

  lemma DayJump(spec: CronSpec, w: int)
    requires !DayOk(spec, DateOf(Day(w)), WeekdayOf(Day(w)))
    ensures NothingBetween(spec, w, NextDay(w))
  {
    hide MonthOf, Matches, DateOf, DayOk, NextDay, WeekdayOf;
    NextDayIs(w);
    forall v | w <= v < NextDay(w) ensures !Matches(spec, v) {
      MinutesOfDays(w, v, Day(w) + 1);
      MatchesByFields(spec, v);
    }
  }

  lemma SameHour(w: int, v: int)
    requires w <= v < NextHour(w)
    ensures HourOf(v) == HourOf(w)
  {
    ClockParts(w);
    assert w % MINUTES_PER_DAY == HourOf(w) * 60 + MinuteOf(w);
    var d := v - w;
    assert v % MINUTES_PER_DAY == HourOf(w) * 60 + (MinuteOf(w) + d);
  }

  lemma HourJump(spec: CronSpec, w: int)
    requires HourOf(w) !in spec.hours
    ensures NothingBetween(spec, w, NextHour(w))
  {
    hide MonthOf, Matches, DateOf, DayOk, NextHour, HourOf;
    assert w < NextHour(w) by { NextHourIsLater(w); }
    forall v | w <= v < NextHour(w) ensures !Matches(spec, v) {
      SameHour(w, v);
      MatchesByFields(spec, v);
    }
  }

  lemma NextHourIsLater(w: int)
    ensures w < NextHour(w)
  {
    ClockParts(w);
  }

  lemma NextMinuteIs(w: int)
    ensures NextMinute(w) == w + 1
  {
    ClockParts(w);
  }

  // ----- The walk -----

  /** The source's loop: the cursor jumps over months, days and hours, and is proved to miss nothing. */
  method CronNext(spec: CronSpec, after: int, zone: Zone) returns (next: Option<int>)
    ensures next == NextOccurrence(spec, zone, after)
  {
    hide Matches, MonthOf, DateOf, HourOf, MinuteOf, WeekdayOf, DayOk, InstantOfWallClock, FromWall, ToWall,
         NextMonth, NextDay, NextHour, NextMinute;
    WallRoundTrip(Shown(zone, after / MS_PER_MINUTE));
    var cursor := FromWall(WallClockIn(zone, after / MS_PER_MINUTE));
    NextMinuteIs(cursor);
    cursor := NextMinute(cursor);
    var limit := cursor + HORIZON;
    while cursor <= limit
      invariant limit == Start(zone, after) + HORIZON
      invariant NextOccurrence(spec, zone, after) == Scan(spec, zone, after, cursor, limit)
      decreases limit - cursor
    {
      MatchesByFields(spec, cursor);
      if MonthOf(Day(cursor)) + 1 !in spec.months {
        MonthJump(spec, cursor);
        SkipsNothing(spec, zone, after, cursor, NextMonth(cursor), limit);
        cursor := NextMonth(cursor);
        continue;
      }
      if !DayOk(spec, DateOf(Day(cursor)), WeekdayOf(Day(cursor))) {
        DayJump(spec, cursor);
        SkipsNothing(spec, zone, after, cursor, NextDay(cursor), limit);
        cursor := NextDay(cursor);
        continue;
      }
      if HourOf(cursor) !in spec.hours {
        HourJump(spec, cursor);
        SkipsNothing(spec, zone, after, cursor, NextHour(cursor), limit);
        cursor := NextHour(cursor);
        continue;
      }
      NextMinuteIs(cursor);
      if MinuteOf(cursor) !in spec.minutes {
        cursor := NextMinute(cursor);
        continue;
      }
      var instant := InstantOfWallClock(zone, ToWall(cursor));
      // A wall clock the zone skips, or one already behind us: try the next minute.
      if instant.None? || instant.value * MS_PER_MINUTE <= after {
        cursor := NextMinute(cursor);
        continue;
      }
      return Some(instant.value * MS_PER_MINUTE);
    }
    return None;
  }

  /** The earliest of the next occurrences of several schedules; an invalid one (`None`) has no occurrence. */
  method NextOfList(specs: seq<Option<CronSpec>>, after: int, zone: Zone) returns (best: Option<int>)
    ensures best.None? <==>
            forall s <- specs :: s.Some? ==> NextOccurrence(s.value, zone, after).None?
    ensures best.Some? ==>
              && (exists s <- specs :: s.Some? && NextOccurrence(s.value, zone, after) == best)
              && (forall s <- specs :: s.Some? && NextOccurrence(s.value, zone, after).Some?
                    ==> best.value <= NextOccurrence(s.value, zone, after).value)
  {
    hide NextOccurrence;
    best := None;
    for i := 0 to |specs|
      invariant best.None? <==>
                forall s <- specs[..i] :: s.Some? ==> NextOccurrence(s.value, zone, after).None?
      invariant best.Some? ==>
                  && (exists s <- specs[..i] :: s.Some? && NextOccurrence(s.value, zone, after) == best)
                  && (forall s <- specs[..i] :: s.Some? && NextOccurrence(s.value, zone, after).Some?
                        ==> best.value <= NextOccurrence(s.value, zone, after).value)
    {
      assert specs[..i + 1] == specs[..i] + [specs[i]];
      assert forall s :: s in specs[..i + 1] <==> s in specs[..i] || s == specs[i];
      if specs[i].Some? {
        var next := CronNext(specs[i].value, after, zone);
        if next.Some? && (best.None? || next.value < best.value) { best := next; }
      }
    }
    assert specs[..|specs|] == specs;
  }

  // ----- What the result means -----

  /** An instant at which the schedule fires: it matches, and its clock was not shown before. */
  ghost predicate Occurrence(spec: CronSpec, zone: Zone, t: int) {
    Matches(spec, Shown(zone, t)) && EarliestShowing(zone, WallClockIn(zone, t), t)
  }

  /** Where the scan stopped. */
  lemma {:induction false} ScanStops(spec: CronSpec, zone: Zone, after: int, w: int, limit: int) returns (v: int)
    ensures forall u :: w <= u < v ==> !Hit(spec, zone, after, u)
    ensures match Scan(spec, zone, after, w, limit)
            case None => v > limit
            case Some(x) =>
              && w <= v <= limit && Hit(spec, zone, after, v)
              && x == InstantOfWallClock(zone, ToWall(v)).value * MS_PER_MINUTE
    decreases limit - w
  {
    hide Hit, InstantOfWallClock;
    v := w;
    if w <= limit && !Hit(spec, zone, after, w) {
      v := ScanStops(spec, zone, after, w + 1, limit);
    }
  }

  /** First showings come in clock order: a later one shows a later clock than any earlier instant. */
  lemma FirstShowingsAdvance(zone: Zone, a: int, u: int)
    requires OneHourChanges(zone) && a < u
    requires EarliestShowing(zone, WallClockIn(zone, u), u)
    ensures Shown(zone, a) < Shown(zone, u)
  {
    hide WallClockIn;
    if Shown(zone, u) <= Shown(zone, a) {
      var w := Shown(zone, u);
      var last := AtMostOneChange(zone, w - REACH, w + REACH);
      assert zone(a) == if a <= last then zone(w - REACH) else zone(w + REACH);
      assert zone(u) == if u <= last then zone(w - REACH) else zone(w + REACH);
      assert a <= last < u && zone(w - REACH) == zone(w + REACH) + 60 && u - 60 <= a;
      assert zone(u - 60) == zone(w - REACH);
      assert Shown(zone, u - 60) == Shown(zone, u);
      SameShownSameClock(zone, u - 60, u);
      assert false;
    }
  }

  lemma SameShownSameClock(zone: Zone, t: int, u: int)
    requires Shown(zone, t) == Shown(zone, u)
    ensures WallClockIn(zone, t) == WallClockIn(zone, u)
  {
    hide ToWall;
  }

  /** Hits of the scan and occurrences after the given time are the same thing. */
  lemma HitIsOccurrence(spec: CronSpec, zone: Zone, after: int, v: int)
    requires OneHourChanges(zone) && Hit(spec, zone, after, v)
    ensures var t := InstantOfWallClock(zone, ToWall(v)).value;
            Occurrence(spec, zone, t) && Shown(zone, t) == v && after < t * MS_PER_MINUTE
  {
    hide InstantOfWallClock, ToWall, Matches, OneHourChanges;
    InstantInvertsWallClock(zone, v);
    var t := InstantOfWallClock(zone, ToWall(v)).value;
    ShowsMinute(zone, t, v);
  }

  lemma OccurrenceIsHit(spec: CronSpec, zone: Zone, after: int, t: int)
    requires OneHourChanges(zone) && Occurrence(spec, zone, t) && after < t * MS_PER_MINUTE
    ensures Hit(spec, zone, after, Shown(zone, t)) && InstantOfWallClock(zone, ToWall(Shown(zone, t))) == Some(t)
    ensures Start(zone, after) <= Shown(zone, t)
  {
    hide InstantOfWallClock, ToWall, Matches, OneHourChanges, EarliestShowing;
    OccurrenceIsInstant(zone, t);
    FirstShowingsAdvance(zone, after / MS_PER_MINUTE, t);
  }

  /** The first instant showing a clock is the one returned for it. */
  lemma OccurrenceIsInstant(zone: Zone, t: int)
    requires OneHourChanges(zone) && EarliestShowing(zone, WallClockIn(zone, t), t)
    ensures InstantOfWallClock(zone, ToWall(Shown(zone, t))) == Some(t)
  {
    hide InstantOfWallClock, ToWall, OneHourChanges;
    InstantInvertsWallClock(zone, Shown(zone, t));
    hide Shown;
  }

  lemma OccurrencesAdvance(spec: CronSpec, zone: Zone, t: int, u: int)
    requires OneHourChanges(zone) && Occurrence(spec, zone, u) && t < u
    ensures Shown(zone, t) < Shown(zone, u)
  {
    hide Matches, OneHourChanges, EarliestShowing;
    FirstShowingsAdvance(zone, t, u);
  }

  /** `t` is the first occurrence after the time `after`. */
  ghost predicate FirstAfter(spec: CronSpec, zone: Zone, after: int, t: int) {
    && Occurrence(spec, zone, t) && after < t * MS_PER_MINUTE
    && forall u :: Occurrence(spec, zone, u) && after < u * MS_PER_MINUTE ==> t <= u
  }

  lemma FirstHitIsFirst(spec: CronSpec, zone: Zone, after: int, v: int)
    requires OneHourChanges(zone) && Hit(spec, zone, after, v)
    requires forall u :: Start(zone, after) <= u < v ==> !Hit(spec, zone, after, u)
    ensures FirstAfter(spec, zone, after, InstantOfWallClock(zone, ToWall(v)).value)
  {
    HitIsOccurrence(spec, zone, after, v);
    var x := InstantOfWallClock(zone, ToWall(v)).value;
    hide Hit, Occurrence, InstantOfWallClock, ToWall;
    forall u | Occurrence(spec, zone, u) && after < u * MS_PER_MINUTE ensures x <= u {
      OccurrenceIsHit(spec, zone, after, u);
      if u < x { OccurrencesAdvance(spec, zone, u, x); }
    }
  }

  /** The scan as its stopping place tells it. */
  lemma ScanOutcome(spec: CronSpec, zone: Zone, after: int) returns (v: int)
    ensures forall u :: Start(zone, after) <= u < v ==> !Hit(spec, zone, after, u)
    ensures NextOccurrence(spec, zone, after).Some? ==>
              Hit(spec, zone, after, v)
              && NextOccurrence(spec, zone, after).value == InstantOfWallClock(zone, ToWall(v)).value * MS_PER_MINUTE
    ensures NextOccurrence(spec, zone, after).None? ==> v > Start(zone, after) + HORIZON
  {
    hide Matches, InstantOfWallClock, ToWall, Start;
    v := ScanStops(spec, zone, after, Start(zone, after), Start(zone, after) + HORIZON);
  }

  /** Without a hit up to the limit, every later occurrence is shown after the limit. */
  lemma NoHitNoOccurrence(spec: CronSpec, zone: Zone, after: int, v: int, t: int)
    requires OneHourChanges(zone) && Occurrence(spec, zone, t) && after < t * MS_PER_MINUTE
    requires forall u :: Start(zone, after) <= u < v ==> !Hit(spec, zone, after, u)
    ensures v <= Shown(zone, t)
  {
    hide Hit, Occurrence, InstantOfWallClock, ToWall, OneHourChanges;
    OccurrenceIsHit(spec, zone, after, t);
  }

  /**
   * The result is the first occurrence after the given time; there is no result exactly when no
   * occurrence comes before the horizon.
   */
  lemma NextIsFirstOccurrence(spec: CronSpec, zone: Zone, after: int)
    requires OneHourChanges(zone)
    ensures match NextOccurrence(spec, zone, after)
            case None =>
              forall t :: Occurrence(spec, zone, t) && after < t * MS_PER_MINUTE
                          ==> Start(zone, after) + HORIZON < Shown(zone, t)
            case Some(x) => exists t :: x == t * MS_PER_MINUTE && FirstAfter(spec, zone, after, t)
  {
    hide Hit, Occurrence, InstantOfWallClock, ToWall, FirstAfter, NextOccurrence, Start, Shown, OneHourChanges;
    var v := ScanOutcome(spec, zone, after);
    if NextOccurrence(spec, zone, after).Some? {
      FirstHitIsFirst(spec, zone, after, v);
    } else {
      forall t | Occurrence(spec, zone, t) && after < t * MS_PER_MINUTE ensures v <= Shown(zone, t) {
        NoHitNoOccurrence(spec, zone, after, v, t);
      }
    }
  }

  lemma SomeIsFirst(spec: CronSpec, zone: Zone, after: int) returns (t: int)
    requires OneHourChanges(zone) && NextOccurrence(spec, zone, after).Some?
    ensures NextOccurrence(spec, zone, after) == Some(t * MS_PER_MINUTE) && FirstAfter(spec, zone, after, t)
  {
    hide NextOccurrence, FirstAfter;
    NextIsFirstOccurrence(spec, zone, after);
    t :| NextOccurrence(spec, zone, after).value == t * MS_PER_MINUTE && FirstAfter(spec, zone, after, t);
  }

  lemma OccurrenceInReach(spec: CronSpec, zone: Zone, after: int, t: int)
    requires OneHourChanges(zone) && Occurrence(spec, zone, t) && after < t * MS_PER_MINUTE
    requires Shown(zone, t) <= Start(zone, after) + HORIZON
    ensures NextOccurrence(spec, zone, after).Some?
  {
    hide NextOccurrence, Occurrence, Shown, Start;
    NextIsFirstOccurrence(spec, zone, after);
  }

  lemma MinuteOfMs(t: int)
    ensures t * MS_PER_MINUTE / MS_PER_MINUTE == t
  {
  }

  /** Every result matches its own schedule. */
  lemma NextMatches(spec: CronSpec, zone: Zone, after: int)
    requires OneHourChanges(zone) && NextOccurrence(spec, zone, after).Some?
    ensures CronMatches(spec, NextOccurrence(spec, zone, after).value, zone)
  {
    hide NextOccurrence, ToWall, WallMatches, DayOfWeek;
    var t := SomeIsFirst(spec, zone, after);
    MinuteOfMs(t);
  }

  /** Between the given time and the result, only clocks already shown once match. */
  lemma NothingFiresBefore(spec: CronSpec, zone: Zone, after: int, t: int)
    requires OneHourChanges(zone) && NextOccurrence(spec, zone, after).Some?
    requires after < t * MS_PER_MINUTE < NextOccurrence(spec, zone, after).value
    requires CronMatches(spec, t * MS_PER_MINUTE, zone)
    ensures exists u :: u < t && WallClockIn(zone, u) == WallClockIn(zone, t)
  {
    hide NextOccurrence, ToWall, WallMatches, DayOfWeek;
    MinuteOfMs(t);
    var x := SomeIsFirst(spec, zone, after);
    assert Matches(spec, Shown(zone, t));
    assert !Occurrence(spec, zone, t);
  }

  /** A later question never gets an earlier answer. */
  lemma NextIsMonotone(spec: CronSpec, zone: Zone, after: int, later: int)
    requires OneHourChanges(zone) && after <= later
    requires NextOccurrence(spec, zone, after).Some? && NextOccurrence(spec, zone, later).Some?
    ensures NextOccurrence(spec, zone, after).value <= NextOccurrence(spec, zone, later).value
  {
    hide NextOccurrence, Occurrence;
    var t := SomeIsFirst(spec, zone, after);
    var u := SomeIsFirst(spec, zone, later);
  }
}
