/**
 * Wall clocks in a time zone. A zone is the offset, in minutes, in force at each minute since the
 * epoch; instants are whole minutes.
 */
module TimeZone {
  import opened Options
  import opened Calendar

  type Zone = int -> int

  /** The minute since the epoch whose UTC clock shows what the zone's clock shows at `t`. */
  function Shown(zone: Zone, t: int): int {
    t + zone(t)
  }

  function WallClockIn(zone: Zone, t: int): WallClock {
    ToWall(Shown(zone, t))
  }

  /** Measured from the clock itself, as the source does. */
  function UtcOffset(zone: Zone, t: int): int {
    FromWall(WallClockIn(zone, t)) - t
  }

  /** Two corrections from the naive guess. */
  function Candidate(zone: Zone, wall: WallClock): int {
    var asUtc := FromWall(wall);
    asUtc - UtcOffset(zone, asUtc - UtcOffset(zone, asUtc))
  }

  /** The clock of one hour earlier has the same hour and day: the source takes it for a repetition. */
  predicate LooksRepeated(zone: Zone, t: int, wall: WallClock) {
    var earlier := WallClockIn(zone, t - 60);
    earlier.hour == wall.hour && earlier.day == wall.day
  }

  /** The instant a wall clock stands for, if any. */
  function InstantOfWallClock(zone: Zone, wall: WallClock): Option<int> {
    var t := Candidate(zone, wall);
    if WallClockIn(zone, t) != wall then None
    else if LooksRepeated(zone, t, wall) then Some(t - 60)
    else Some(t)
  }

  lemma OffsetIsOffset(zone: Zone, t: int)
    ensures UtcOffset(zone, t) == zone(t)
  {
    WallRoundTrip(Shown(zone, t));
  }

  // ----- Zones with one-hour changes that are far apart -----

  /** The offset changes after the minute `t`. */
  predicate Change(zone: Zone, t: int) {
    zone(t + 1) != zone(t)
  }

  const OFFSET_BOUND := 960
  const APART := 4320

  ghost predicate Bounded(zone: Zone) {
    forall t :: -OFFSET_BOUND <= zone(t) <= OFFSET_BOUND
  }

  ghost predicate OneHourSteps(zone: Zone) {
    forall t :: Change(zone, t) ==> zone(t + 1) - zone(t) == 60 || zone(t + 1) - zone(t) == -60
  }

  ghost predicate FarApart(zone: Zone) {
    forall t, u :: Change(zone, t) && Change(zone, u) && t < u ==> u > t + APART
  }

  ghost predicate OneHourChanges(zone: Zone) {
    Bounded(zone) && OneHourSteps(zone) && FarApart(zone)
  }

  /** Between `lo` and `hi` the offset is one value up to the minute `last`, and another one after it. */
  ghost predicate OneChange(zone: Zone, lo: int, hi: int, last: int) {
    forall t :: lo <= t <= hi ==> zone(t) == if t <= last then zone(lo) else zone(hi)
  }

  /** Over a stretch shorter than the distance between changes, the offset changes at most once. */
  lemma {:induction false} AtMostOneChange(zone: Zone, lo: int, hi: int) returns (last: int)
    requires OneHourSteps(zone) && FarApart(zone) && lo <= hi <= lo + APART
    ensures lo <= last <= hi && OneChange(zone, lo, hi, last) && zone(lo) - zone(hi) in {0, 60, -60}
    ensures last < hi ==> Change(zone, last)
    decreases hi - lo
  {
    if lo == hi {
      last := hi;
    } else {
      last := AtMostOneChange(zone, lo, hi - 1);
      if Change(zone, hi - 1) {
        assert last == hi - 1;
      } else if last == hi - 1 {
        last := hi;
      }
    }
  }

  const REACH := 1980

  /** The wall minute `w`, two corrections later. */
  function Corrected(zone: Zone, w: int): int {
    w - zone(w - zone(w))
  }

  /** Around a change from `before` to `after`: the instant `u` shows the wall minute `w`. */
  predicate Shows(before: int, after: int, change: int, w: int, u: int) {
    (u == w - before && u <= change) || (u == w - after && (u > change || before == after))
  }

  /** The wall minute `w`, two corrections later, around such a change. */
  function CorrectedAround(before: int, after: int, change: int, w: int): int {
    var guess := if w <= change then w - before else w - after;
    if guess <= change then w - before else w - after
  }

  /** Every instant showing `w` is one of two. */
  lemma ShowsAround(zone: Zone, w: int, change: int, u: int)
    requires Bounded(zone) && OneChange(zone, w - REACH, w + REACH, change)
    ensures Shown(zone, u) == w <==> Shows(zone(w - REACH), zone(w + REACH), change, w, u)
  {
    var before, after := zone(w - REACH), zone(w + REACH);
    assert -OFFSET_BOUND <= zone(u) <= OFFSET_BOUND;
    if w - OFFSET_BOUND <= u <= w + OFFSET_BOUND { assert zone(u) == if u <= change then before else after; }
  }

  lemma CorrectedIsAround(zone: Zone, w: int, change: int)
    requires Bounded(zone) && OneChange(zone, w - REACH, w + REACH, change)
    ensures Corrected(zone, w) == CorrectedAround(zone(w - REACH), zone(w + REACH), change, w)
  {
    var before, after := zone(w - REACH), zone(w + REACH);
    assert -OFFSET_BOUND <= before <= OFFSET_BOUND && -OFFSET_BOUND <= after <= OFFSET_BOUND;
    assert zone(w) == if w <= change then before else after;
    assert zone(w - before) == if w - before <= change then before else after;
    assert zone(w - after) == if w - after <= change then before else after;
  }

  lemma ShownAnHourEarlier(zone: Zone, w: int, change: int)
    requires Bounded(zone) && OneChange(zone, w - REACH, w + REACH, change)
    ensures var t := CorrectedAround(zone(w - REACH), zone(w + REACH), change, w);
            Shown(zone, t - 60) == t - 60 + if t - 60 <= change then zone(w - REACH) else zone(w + REACH)
  {
    var before, after := zone(w - REACH), zone(w + REACH);
    var t := CorrectedAround(before, after, change, w);
    assert -OFFSET_BOUND <= before <= OFFSET_BOUND && -OFFSET_BOUND <= after <= OFFSET_BOUND;
    assert zone(t - 60) == if t - 60 <= change then before else after;
  }

  /** `instant` is the earliest one whose clock shows `wall`. */
  ghost predicate EarliestShowing(zone: Zone, wall: WallClock, instant: int) {
    && WallClockIn(zone, instant) == wall
    && forall u :: u < instant ==> WallClockIn(zone, u) != wall
  }

  /** The promise: the earliest instant showing the clock, and nothing when no instant shows it. */
  ghost predicate Inverts(zone: Zone, wall: WallClock, result: Option<int>) {
    match result
    case Some(t) => EarliestShowing(zone, wall, t)
    case None => forall u :: WallClockIn(zone, u) != wall
  }

  lemma CandidateOnMinutes(zone: Zone, w: int)
    ensures Candidate(zone, ToWall(w)) == Corrected(zone, w)
  {
    hide FromWall, ToWall;
    WallRoundTrip(w);
    OffsetIsOffset(zone, w);
    OffsetIsOffset(zone, w - zone(w));
  }

  lemma ShowsMinute(zone: Zone, t: int, w: int)
    ensures WallClockIn(zone, t) == ToWall(w) <==> Shown(zone, t) == w
  {
    hide ToWall;
    if WallClockIn(zone, t) == ToWall(w) { WallInjective(Shown(zone, t), w); }
  }

  /** What the source's test and comparison amount to on wall minutes. */
  lemma InstantOnMinutes(zone: Zone, w: int)
    requires Bounded(zone)
    ensures var t := Corrected(zone, w);
            InstantOfWallClock(zone, ToWall(w))
            == if Shown(zone, t) != w then None
               else if 0 <= MinuteOf(w) + (Shown(zone, t - 60) - w) < 60 then Some(t - 60) else Some(t)
  {
    var t := Corrected(zone, w);
    CandidateOnMinutes(zone, w);
    ShowsMinute(zone, t, w);
    hide ToWall, Candidate, Corrected;
    if Shown(zone, t) == w {
      assert -OFFSET_BOUND <= zone(t) <= OFFSET_BOUND && -OFFSET_BOUND <= zone(t - 60) <= OFFSET_BOUND;
      SameDateAndHour(w, Shown(zone, t - 60));
    }
  }

  /** The earliest of the two instants that can show `w`, or none when neither does. */
  predicate IsFirst(before: int, after: int, change: int, w: int, result: Option<int>) {
    match result
    case Some(t) =>
      && Shows(before, after, change, w, t)
      && (Shows(before, after, change, w, w - before) ==> t <= w - before)
      && (Shows(before, after, change, w, w - after) ==> t <= w - after)
    case None => !Shows(before, after, change, w, w - before) && !Shows(before, after, change, w, w - after)
  }

  /** With `IsFirst`, the result is the least of all instants that show `w`, or there is none. */
  lemma FirstOfAll(before: int, after: int, change: int, w: int, result: Option<int>)
    ensures IsFirst(before, after, change, w, result)
            <==> match result
                 case Some(t) =>
                   Shows(before, after, change, w, t) && forall u :: u < t ==> !Shows(before, after, change, w, u)
                 case None => forall u :: !Shows(before, after, change, w, u)
  {
  }

  lemma InvertsAround(zone: Zone, w: int, change: int, result: Option<int>)
    requires Bounded(zone) && OneChange(zone, w - REACH, w + REACH, change)
    ensures Inverts(zone, ToWall(w), result) <==> IsFirst(zone(w - REACH), zone(w + REACH), change, w, result)
  {
    var before, after := zone(w - REACH), zone(w + REACH);
    hide ToWall, WallClockIn, Shows, IsFirst, Bounded, OneChange;
    forall u ensures WallClockIn(zone, u) == ToWall(w) <==> Shows(before, after, change, w, u) {
      ShowsMinute(zone, u, w);
      ShowsAround(zone, w, change, u);
    }
    FirstOfAll(before, after, change, w, result);
  }

  /**
   * The clocks around a backward change from the offset `before` to `after`, other than by one hour,
   * for which the source goes wrong: those shown twice that are behind the minute of the change, and
   * those shown once, less than an hour after it, with minutes high enough.
   */
  predicate Fooled(before: int, after: int, change: int, w: int) {
    var d := before - after;
    && 0 < d && d != 60
    && (|| (w > change && w - before <= change < w - after)
        || (w - before > change && w - after - 60 <= change && MinuteOf(w) >= 60 - d))
  }

  /** The source's answer, from the offsets alone. */
  function Answer(before: int, after: int, change: int, w: int): Option<int> {
    var t := CorrectedAround(before, after, change, w);
    var earlier := t - 60 + if t - 60 <= change then before else after;
    if !Shows(before, after, change, w, t) then None
    else if 0 <= MinuteOf(w) + (earlier - w) < 60 then Some(t - 60) else Some(t)
  }

  lemma AnswerIsFirst(before: int, after: int, change: int, w: int)
    ensures IsFirst(before, after, change, w, Answer(before, after, change, w)) <==> !Fooled(before, after, change, w)
  {
    assert 0 <= MinuteOf(w) < 60;
    hide MinuteOf;
  }

  lemma InstantIsAnswer(zone: Zone, w: int, change: int)
    requires Bounded(zone) && OneChange(zone, w - REACH, w + REACH, change)
    ensures InstantOfWallClock(zone, ToWall(w)) == Answer(zone(w - REACH), zone(w + REACH), change, w)
  {
    hide *;
    CorrectedIsAround(zone, w, change);
    ShownAnHourEarlier(zone, w, change);
    ShowsAround(zone, w, change, Corrected(zone, w));
    InstantOnMinutes(zone, w);
    AnswerIs(zone(w - REACH), zone(w + REACH), change, w);
  }

  lemma AnswerIs(before: int, after: int, change: int, w: int)
    ensures var t := CorrectedAround(before, after, change, w);
            var earlier := t - 60 + if t - 60 <= change then before else after;
            Answer(before, after, change, w)
            == if !Shows(before, after, change, w, t) then None
               else if 0 <= MinuteOf(w) + (earlier - w) < 60 then Some(t - 60) else Some(t)
  {
    hide CorrectedAround, Shows, MinuteOf;
  }

  /**
   * For any zone whose offset changes at most once within 33 hours of the clock asked for,
   * by whatever amount: the result is the earliest instant showing the clock, or nothing exactly when
   * no instant shows it, if and only if the clock is none of those.
   */
  lemma InstantExactly(zone: Zone, w: int, change: int)
    requires Bounded(zone) && OneChange(zone, w - REACH, w + REACH, change)
    ensures Inverts(zone, ToWall(w), InstantOfWallClock(zone, ToWall(w)))
            <==> !Fooled(zone(w - REACH), zone(w + REACH), change, w)
  {
    hide *;
    InstantIsAnswer(zone, w, change);
    InvertsAround(zone, w, change, InstantOfWallClock(zone, ToWall(w)));
    AnswerIsFirst(zone(w - REACH), zone(w + REACH), change, w);
  }

  /**
   * For zones with one-hour changes far apart: the earliest instant showing the wall clock, and
   * nothing exactly when no instant shows it.
   */
  lemma InstantInvertsWallClock(zone: Zone, w: int)
    requires OneHourChanges(zone)
    ensures Inverts(zone, ToWall(w), InstantOfWallClock(zone, ToWall(w)))
  {
    hide ToWall, InstantOfWallClock, Inverts;
    var last := AtMostOneChange(zone, w - REACH, w + REACH);
    InstantExactly(zone, w, last);
  }

  /** The same for any fields, even ones no calendar has: nothing shows them and nothing is returned. */
  lemma InstantInvertsAnyWallClock(zone: Zone, wall: WallClock)
    requires OneHourChanges(zone)
    ensures Inverts(zone, wall, InstantOfWallClock(zone, wall))
  {
    if exists w :: ToWall(w) == wall {
      var w :| ToWall(w) == wall;
      InstantInvertsWallClock(zone, w);
    } else {
      assert forall u :: WallClockIn(zone, u) == ToWall(Shown(zone, u));
    }
  }

  // ----- A half-hour change -----

  /** The clock goes back by half an hour, once. */
  ghost predicate HalfHourBack(zone: Zone, change: int, after: int) {
    forall t :: zone(t) == if t <= change then after + 30 else after
  }

  /**
   * There the test is fooled by any clock with minutes from 30 up that is shown once, in the second
   * half hour after the change: the instant returned shows another clock, half an hour earlier.
   */
  lemma HalfHourChangeFoolsTheTest(zone: Zone, change: int, after: int, w: int)
    requires HalfHourBack(zone, change, after) && -OFFSET_BOUND <= after && after + 30 <= OFFSET_BOUND
    requires change + 30 < w - after <= change + 60 && MinuteOf(w) >= 30
    ensures Fooled(after + 30, after, change, w)
    ensures EarliestShowing(zone, ToWall(w), w - after)
    ensures InstantOfWallClock(zone, ToWall(w)) == Some(w - after - 60)
    ensures WallClockIn(zone, w - after - 60) == ToWall(w - 30) != ToWall(w)
  {
    hide ToWall, InstantOfWallClock, WallClockIn, MinuteOf, Inverts;
    InstantOnMinutes(zone, w);
    assert Corrected(zone, w) == w - after;
    assert 0 <= MinuteOf(w) < 60 by { ClockParts(w); }
    forall u ensures WallClockIn(zone, u) == ToWall(w) <==> Shown(zone, u) == w { ShowsMinute(zone, u, w); }
    ShowsMinute(zone, w - after - 60, w - 30);
  }
}
