/**
 * What the fields of a cron expression ask for, read off the answers alone: the clock shown at a
 * result, the two day fields, and the days of the week.
 */
module CronFields {
  import opened Options
  import opened Calendar
  import opened TimeZone
  import opened Cron

  // ----- Two schedules -----

  /** The two schedules fire on the same clocks. */
  ghost predicate Alike(a: CronSpec, b: CronSpec) {
    forall w :: Matches(a, w) <==> Matches(b, w)
  }

  lemma {:induction false} ScanAlike(a: CronSpec, b: CronSpec, zone: Zone, after: int, w: int, limit: int)
    requires Alike(a, b)
    ensures Scan(a, zone, after, w, limit) == Scan(b, zone, after, w, limit)
    decreases limit - w
  {
    hide Matches, InstantOfWallClock;
    if w <= limit { ScanAlike(a, b, zone, after, w + 1, limit); }
  }

  /** The set of a day field that is not restricted never matters. */
  lemma UnrestrictedIsIgnored(spec: CronSpec, dates: set<int>, weekdays: set<int>, zone: Zone, after: int)
    ensures !spec.domRestricted ==>
              NextOccurrence(spec.(daysOfMonth := dates), zone, after) == NextOccurrence(spec, zone, after)
    ensures !spec.dowRestricted ==>
              NextOccurrence(spec.(daysOfWeek := weekdays), zone, after) == NextOccurrence(spec, zone, after)
  {
    hide ToWall, DayOfWeek, Scan, Start;
    var start := Start(zone, after);
    if !spec.domRestricted {
      assert Alike(spec.(daysOfMonth := dates), spec);
      ScanAlike(spec.(daysOfMonth := dates), spec, zone, after, start, start + HORIZON);
    }
    if !spec.dowRestricted {
      assert Alike(spec.(daysOfWeek := weekdays), spec);
      ScanAlike(spec.(daysOfWeek := weekdays), spec, zone, after, start, start + HORIZON);
    }
  }

  // ----- Either day field is enough -----

  /** `spec` fires when `a` or `b` does. */
  ghost predicate EitherOf(spec: CronSpec, a: CronSpec, b: CronSpec) {
    forall w :: Matches(spec, w) <==> Matches(a, w) || Matches(b, w)
  }

  lemma {:induction false} ScanEither(
    spec: CronSpec, a: CronSpec, b: CronSpec, zone: Zone, after: int, w: int, limit: int)
    requires EitherOf(spec, a, b)
    ensures Scan(spec, zone, after, w, limit) in {Scan(a, zone, after, w, limit), Scan(b, zone, after, w, limit)}
    ensures Scan(spec, zone, after, w, limit).None?
            <==> Scan(a, zone, after, w, limit).None? && Scan(b, zone, after, w, limit).None?
    decreases limit - w
  {
    hide Matches, InstantOfWallClock;
    if w <= limit { ScanEither(spec, a, b, zone, after, w + 1, limit); }
  }

  /** What one of the two finds is no earlier than what `spec` finds. */
  lemma NoEarlierThanEither(spec: CronSpec, a: CronSpec, b: CronSpec, zone: Zone, after: int)
    requires OneHourChanges(zone) && EitherOf(spec, a, b)
    requires NextOccurrence(spec, zone, after).Some? && NextOccurrence(a, zone, after).Some?
    ensures NextOccurrence(spec, zone, after).value <= NextOccurrence(a, zone, after).value
  {
    hide NextOccurrence, Matches, EarliestShowing, WallClockIn, OneHourChanges;
    var t := SomeIsFirst(spec, zone, after);
    var u := SomeIsFirst(a, zone, after);
    assert Matches(spec, Shown(zone, u));
    assert Occurrence(spec, zone, u);
  }

  /** `x` is the earlier of two answers. */
  predicate IsEarlier(x: Option<int>, y: Option<int>, z: Option<int>) {
    && x in {y, z} && (x.None? ==> y.None? && z.None?)
    && (y.Some? ==> x.Some? && x.value <= y.value) && (z.Some? ==> x.Some? && x.value <= z.value)
  }

  lemma EitherDayMatches(spec: CronSpec)
    requires spec.domRestricted && spec.dowRestricted
    ensures EitherOf(spec, spec.(dowRestricted := false), spec.(domRestricted := false))
  {
    hide ToWall, DayOfWeek;
  }

  lemma EitherSwaps(spec: CronSpec, a: CronSpec, b: CronSpec)
    requires EitherOf(spec, a, b)
    ensures EitherOf(spec, b, a)
  {
    hide Matches;
  }

  lemma EitherIsEarlier(spec: CronSpec, a: CronSpec, b: CronSpec, zone: Zone, after: int)
    requires OneHourChanges(zone) && EitherOf(spec, a, b)
    ensures IsEarlier(NextOccurrence(spec, zone, after), NextOccurrence(a, zone, after), NextOccurrence(b, zone, after))
  {
    hide EitherOf, OneHourChanges, Scan, Start;
    var start := Start(zone, after);
    ScanEither(spec, a, b, zone, after, start, start + HORIZON);
    EitherSwaps(spec, a, b);
    if NextOccurrence(a, zone, after).Some? { NoEarlierThanEither(spec, a, b, zone, after); }
    if NextOccurrence(b, zone, after).Some? { NoEarlierThanEither(spec, b, a, zone, after); }
  }

  /**
   * With both day fields restricted either one is enough: the answer is the earlier of the answers
   * for the date alone and for the weekday alone, and there is none exactly when neither has one.
   */
  lemma EitherDayIsEnough(spec: CronSpec, zone: Zone, after: int)
    requires OneHourChanges(zone) && spec.domRestricted && spec.dowRestricted
    ensures IsEarlier(NextOccurrence(spec, zone, after),
                      NextOccurrence(spec.(dowRestricted := false), zone, after),
                      NextOccurrence(spec.(domRestricted := false), zone, after))
  {
    hide *;
    EitherDayMatches(spec);
    EitherIsEarlier(spec, spec.(dowRestricted := false), spec.(domRestricted := false), zone, after);
  }

  // ----- The clock at a result -----

  /** The weekday of a clock: the epoch was a Thursday, and each day is one further round the week. */
  lemma WeekdaysGoRound(day: int)
    ensures WeekdayOf(0) == 4
    ensures WeekdayOf(day + 1) == if WeekdayOf(day) == 6 then 0 else WeekdayOf(day) + 1
    ensures 0 <= WeekdayOf(day) <= 6
  {
  }

  lemma WeekdayOfClock(t: int)
    ensures DayOfWeek(ToWall(t)) == WeekdayOf(t / (24 * 60))
  {
    DayRoundTrip(Day(t));
    hide WeekdayOf, MakeDay, YearOf, MonthOf, DateOf;
  }

  /**
   * At a result the clock shows a minute, an hour and a month of the expression. A day field that is
   * restricted alone holds there too; of two restricted ones at least one does.
   */
  lemma ResultShowsFields(spec: CronSpec, zone: Zone, after: int) returns (t: int)
    requires OneHourChanges(zone) && NextOccurrence(spec, zone, after).Some?
    ensures NextOccurrence(spec, zone, after) == Some(60_000 * t) && after < 60_000 * t
    ensures var clock := WallClockIn(zone, t);
            var weekday := WeekdayOf((t + zone(t)) / (24 * 60));
            && clock.minute in spec.minutes && clock.hour in spec.hours && clock.month in spec.months
            && (spec.domRestricted && !spec.dowRestricted ==> clock.day in spec.daysOfMonth)
            && (spec.dowRestricted && !spec.domRestricted ==> weekday in spec.daysOfWeek)
            && (spec.domRestricted && spec.dowRestricted ==>
                  clock.day in spec.daysOfMonth || weekday in spec.daysOfWeek)
  {
    hide NextOccurrence, ToWall, DayOfWeek, WeekdayOf, EarliestShowing, OneHourChanges;
    t := SomeIsFirst(spec, zone, after);
    WeekdayOfClock(Shown(zone, t));
  }

  /**
   * Conversely the result is no later than any later instant that is the first to show a clock with
   * all the fields, and there is a result if that clock lies within five years.
   */
  lemma NothingIsMissed(spec: CronSpec, zone: Zone, after: int, t: int)
    requires OneHourChanges(zone) && after < 60_000 * t
    requires forall u :: u < t ==> WallClockIn(zone, u) != WallClockIn(zone, t)
    requires var clock := WallClockIn(zone, t);
             && clock.minute in spec.minutes && clock.hour in spec.hours && clock.month in spec.months
             && (spec.domRestricted ==> clock.day in spec.daysOfMonth)
             && (spec.dowRestricted ==> WeekdayOf((t + zone(t)) / (24 * 60)) in spec.daysOfWeek)
    ensures match NextOccurrence(spec, zone, after)
            case Some(x) => x <= 60_000 * t
            case None => t + zone(t) > after / 60_000 + zone(after / 60_000) + 5 * 366 * 24 * 60
  {
    WeekdayOfClock(Shown(zone, t));
    assert Occurrence(spec, zone, t) by { hide ToWall, DayOfWeek, WeekdayOf; }
    assert Start(zone, after) == after / 60_000 + zone(after / 60_000) + 1;
    hide NextOccurrence, Occurrence, ToWall, OneHourChanges, Start, WeekdayOf;
    if NextOccurrence(spec, zone, after).Some? {
      var x := SomeIsFirst(spec, zone, after);
    } else {
      NextIsFirstOccurrence(spec, zone, after);
    }
  }
}
