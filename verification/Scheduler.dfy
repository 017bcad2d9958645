/**
 * The agent's backup schedules: one tick evaluates every schedule and starts the backups that fell
 * due in the last minute. The time of the last occurrence handled is kept on disk per schedule.
 */
module Scheduler {
  import opened Options
  import opened TimeZone
  import opened Cron

  /** A schedule; `spec` is `None` when its expression does not parse. */
  datatype Schedule = Schedule(id: nat, enabled: bool, spec: Option<CronSpec>, zone: Zone, onlyIfRunning: bool)

  /** What a tick finds when it reaches a schedule. */
  datatype Conditions = Conditions(known: bool, running: bool, busy: bool, startFails: bool)

  datatype Reason = InvalidCron | ServerStopped | TaskRunning | StartFailed

  datatype Signal = Started(id: nat) | Skipped(id: nat, reason: Reason)

  type Runs = map<nat, int>

  /** The occurrence of `s` that is due at `t` and was not handled yet. */
  function Due(s: Schedule, t: int, runs: Runs): Option<int> {
    if s.spec.None? then None
    else
      var due := NextOccurrence(s.spec.value, s.zone, t - MS_PER_MINUTE);
      if due.None? || due.value > t || (s.id in runs && runs[s.id] >= due.value) then None else due
  }

  /** What becomes of a due occurrence: it starts, or a reason is reported. */
  function Outcome(s: Schedule, c: Conditions): Signal {
    if s.onlyIfRunning && !c.running then Skipped(s.id, ServerStopped)
    else if c.busy then Skipped(s.id, TaskRunning)
    else if c.startFails then Skipped(s.id, StartFailed)
    else Started(s.id)
  }

  /** The part of a tick that concerns one schedule. */
  function TickOne(s: Schedule, c: Conditions, t: int, runs: Runs): (Runs, seq<Signal>) {
    if !s.enabled then (runs, [])
    else if s.spec.None? then (runs, [Skipped(s.id, InvalidCron)])
    else
      var due := Due(s, t, runs);
      if due.None? || !c.known then (runs, []) else (runs[s.id := due.value], [Outcome(s, c)])
  }

  lemma TickOneShape(s: Schedule, c: Conditions, t: int, runs: Runs)
    ensures var (r, out) := TickOne(s, c, t, runs);
            && |out| <= 1 && (out != [] ==> out[0].id == s.id)
            && forall id :: id != s.id ==> (id in r <==> id in runs) && (id in r ==> r[id] == runs[id])
  {
    hide Due;
  }

  function TickAll(schedules: seq<Schedule>, conditions: seq<Conditions>, t: int, runs: Runs): (Runs, seq<Signal>)
    requires |conditions| == |schedules|
  {
    if schedules == [] then (runs, [])
    else
      var last := |schedules| - 1;
      var (r1, out1) := TickAll(schedules[..last], conditions[..last], t, runs);
      var (r2, out2) := TickOne(schedules[last], conditions[last], t, r1);
      (r2, out1 + out2)
  }

  class BackupScheduler {
    var schedules: seq<Schedule>
    var runs: Runs             // persisted before anything is started
    var ticking: bool
    var signals: seq<Signal>   // task starts and skip notices, in order

    constructor (schedules: seq<Schedule>, runs: Runs)
      ensures this.schedules == schedules && this.runs == runs && signals == [] && !ticking
    {
      this.schedules, this.runs, ticking, signals := schedules, runs, false, [];
    }

    /** One schedule of a tick. */
    method Evaluate(s: Schedule, c: Conditions, t: int)
      modifies `runs, `signals
      ensures runs == TickOne(s, c, t, old(runs)).0
      ensures signals == old(signals) + TickOne(s, c, t, old(runs)).1
    {
      hide NextOccurrence;
      if !s.enabled { return; }
      if s.spec.None? {
        signals := signals + [Skipped(s.id, InvalidCron)];
        return;
      }
      var due := CronNext(s.spec.value, t - MS_PER_MINUTE, s.zone);
      if due.None? || due.value > t { return; }
      if s.id in runs && runs[s.id] >= due.value { return; }
      if !c.known { return; }
      runs := runs[s.id := due.value];
      if s.onlyIfRunning && !c.running {
        signals := signals + [Skipped(s.id, ServerStopped)];
      } else if c.busy {
        signals := signals + [Skipped(s.id, TaskRunning)];
      } else if c.startFails {
        signals := signals + [Skipped(s.id, StartFailed)];
      } else {
        signals := signals + [Started(s.id)];
      }
    }

    /** One evaluation of every schedule; a tick that finds another one under way does nothing. */
    method Tick(t: int, conditions: seq<Conditions>)
      requires |conditions| == |schedules|
      modifies this
      ensures schedules == old(schedules) && ticking == old(ticking)
      ensures old(ticking) ==> runs == old(runs) && signals == old(signals)
      ensures !old(ticking) ==>
                && runs == TickAll(schedules, conditions, t, old(runs)).0
                && signals == old(signals) + TickAll(schedules, conditions, t, old(runs)).1
    {
      hide NextOccurrence, TickOne;
      if ticking { return; }
      ticking := true;
      for i := 0 to |schedules|
        invariant schedules == old(schedules) && ticking
        invariant runs == TickAll(schedules[..i], conditions[..i], t, old(runs)).0
        invariant signals == old(signals) + TickAll(schedules[..i], conditions[..i], t, old(runs)).1
      {
        assert schedules[..i + 1][..i] == schedules[..i] && conditions[..i + 1][..i] == conditions[..i];
        Evaluate(schedules[i], conditions[i], t);
      }
      assert schedules[..|schedules|] == schedules && conditions[..|schedules|] == conditions;
      ticking := false;
    }
  }

  // ----- One schedule among the others -----

  ghost predicate DistinctIds(schedules: seq<Schedule>) {
    forall i, j :: 0 <= i < j < |schedules| ==> schedules[i].id != schedules[j].id
  }

  /** The signals about one schedule. */
  function About(signals: seq<Signal>, id: nat): seq<Signal> {
    if signals == [] then []
    else
      var last := |signals| - 1;
      About(signals[..last], id) + (if signals[last].id == id then [signals[last]] else [])
  }

  /** The last signal, if it is about this schedule. */
  function AboutLast(signal: Signal, id: nat): seq<Signal> {
    if signal.id == id then [signal] else []
  }

  lemma AboutUnfold(signals: seq<Signal>, id: nat)
    ensures About(signals, id)
            == if signals == [] then []
               else About(signals[..|signals| - 1], id) + AboutLast(signals[|signals| - 1], id)
  {
  }

  lemma {:induction false} AboutConcat(a: seq<Signal>, b: seq<Signal>, id: nat)
    ensures About(a + b, id) == About(a, id) + About(b, id)
  {
    hide About, AboutLast;
    AboutUnfold(b, id);
    if b == [] {
      assert a + b == a;
    } else {
      var rest, last := b[..|b| - 1], b[|b| - 1];
      AboutConcat(a, rest, id);
      AboutUnfold(a + b, id);
      assert (a + b)[..|a + b| - 1] == a + rest;
      assert (About(a, id) + About(rest, id)) + AboutLast(last, id)
          == About(a, id) + (About(rest, id) + AboutLast(last, id));
    }
  }

  lemma AboutOne(signals: seq<Signal>, id: nat)
    requires |signals| <= 1
    ensures About(signals, id) == if signals != [] && signals[0].id == id then signals else []
  {
    if signals != [] { assert signals[..0] == []; }
  }

  ghost predicate SameEntry(a: Runs, b: Runs, id: nat) {
    (id in a <==> id in b) && (id in a ==> a[id] == b[id])
  }

  lemma SameTick(s: Schedule, c: Conditions, t: int, runs: Runs, others: Runs)
    requires SameEntry(runs, others, s.id)
    ensures SameEntry(TickOne(s, c, t, runs).0, TickOne(s, c, t, others).0, s.id)
    ensures TickOne(s, c, t, runs).1 == TickOne(s, c, t, others).1
  {
    hide NextOccurrence;
  }

  /** A tick treats each schedule as if it were the only one. */
  lemma {:induction false} TickIsPointwise(
    schedules: seq<Schedule>, conditions: seq<Conditions>, t: int, runs: Runs, j: nat)
    requires |conditions| == |schedules| && DistinctIds(schedules) && j < |schedules|
    ensures var (all, out) := TickAll(schedules, conditions, t, runs);
            var (one, mine) := TickOne(schedules[j], conditions[j], t, runs);
            SameEntry(all, one, schedules[j].id) && About(out, schedules[j].id) == mine
  {
    hide TickOne, About;
    var last := |schedules| - 1;
    var s := schedules[j];
    var (r1, out1) := TickAll(schedules[..last], conditions[..last], t, runs);
    var (r2, out2) := TickOne(schedules[last], conditions[last], t, r1);
    TickOneShape(schedules[last], conditions[last], t, r1);
    AboutConcat(out1, out2, s.id);
    AboutOne(out2, s.id);
    if j < last {
      TickIsPointwise(schedules[..last], conditions[..last], t, runs, j);
    } else {
      OthersLeaveAlone(schedules[..last], conditions[..last], t, runs, s.id);
      SameTick(s, conditions[j], t, runs, r1);
    }
  }

  lemma {:induction false} OthersLeaveAlone(
    schedules: seq<Schedule>, conditions: seq<Conditions>, t: int, runs: Runs, id: nat)
    requires |conditions| == |schedules| && forall i :: 0 <= i < |schedules| ==> schedules[i].id != id
    ensures SameEntry(TickAll(schedules, conditions, t, runs).0, runs, id)
    ensures About(TickAll(schedules, conditions, t, runs).1, id) == []
  {
    hide TickOne;
    if schedules != [] {
      hide About;
      var last := |schedules| - 1;
      OthersLeaveAlone(schedules[..last], conditions[..last], t, runs, id);
      var (r1, out1) := TickAll(schedules[..last], conditions[..last], t, runs);
      var (r2, out2) := TickOne(schedules[last], conditions[last], t, r1);
      TickOneShape(schedules[last], conditions[last], t, r1);
      AboutConcat(out1, out2, id);
      AboutOne(out2, id);
    }
  }

  // ----- Many ticks -----

  datatype Tick = Tick(at: int, conditions: seq<Conditions>)

  /** Effective ticks, at most a minute apart on a clock that does not go back. */
  ghost predicate Paced(ticks: seq<Tick>) {
    forall i :: 0 <= i < |ticks| - 1 ==> ticks[i].at <= ticks[i + 1].at <= ticks[i].at + MS_PER_MINUTE
  }

  /** `states[i]` is what is on disk before the `i`-th tick, whichever process runs it. */
  ghost predicate IsHistory(schedules: seq<Schedule>, states: seq<Runs>, ticks: seq<Tick>) {
    && DistinctIds(schedules)
    && |states| == |ticks| + 1
    && (forall i :: 0 <= i < |ticks| ==> |ticks[i].conditions| == |schedules|)
    && (forall i :: 0 <= i < |ticks| ==>
          states[i + 1] == TickAll(schedules, ticks[i].conditions, ticks[i].at, states[i]).0)
  }

  /** What the `i`-th tick says about one schedule. */
  function Signals(schedules: seq<Schedule>, states: seq<Runs>, ticks: seq<Tick>, i: nat, id: nat): seq<Signal>
    requires i < |ticks| && i < |states| && |ticks[i].conditions| == |schedules|
  {
    About(TickAll(schedules, ticks[i].conditions, ticks[i].at, states[i]).1, id)
  }

  /** Between two states, schedule `id` has been recorded as having run at `due`. */
  ghost predicate Marks(before: Runs, after: Runs, id: nat, due: int) {
    id in after && after[id] == due && !(id in before && before[id] == due)
  }

  /** Nothing at or after `due` is recorded for schedule `id`. */
  ghost predicate Behind(runs: Runs, id: nat, due: int) {
    id in runs ==> runs[id] < due
  }

  /** An enabled schedule with a valid expression, of a server that is known throughout. */
  ghost predicate Live(schedules: seq<Schedule>, ticks: seq<Tick>, j: nat) {
    && j < |schedules| && schedules[j].enabled && schedules[j].spec.Some?
    && forall i :: 0 <= i < |ticks| && j < |ticks[i].conditions| ==> ticks[i].conditions[j].known
  }

  lemma FirstAfterIs(spec: CronSpec, zone: Zone, after: int, x: int, o: int)
    requires FirstAfter(spec, zone, after, x)
    requires Occurrence(spec, zone, o) && after < o * MS_PER_MINUTE <= after + MS_PER_MINUTE
    ensures x == o
  {
    hide Occurrence;
  }

  lemma WithinHorizon(zone: Zone, o: int, after: int)
    requires OneHourChanges(zone) && after < o * MS_PER_MINUTE <= after + MS_PER_MINUTE
    ensures Shown(zone, o) <= Start(zone, after) + HORIZON
  {
    hide OneHourSteps, FarApart;
    assert after / MS_PER_MINUTE >= o - 1;
  }

  /** When the schedule fires at minute `o`, asking within the minute before finds it. */
  lemma DueIsTheOccurrence(spec: CronSpec, zone: Zone, o: int, after: int)
    requires OneHourChanges(zone) && Occurrence(spec, zone, o)
    requires after < o * MS_PER_MINUTE <= after + MS_PER_MINUTE
    ensures NextOccurrence(spec, zone, after) == Some(o * MS_PER_MINUTE)
  {
    hide NextOccurrence, Occurrence, OneHourChanges, FirstAfter, Start, Shown;
    WithinHorizon(zone, o, after);
    OccurrenceInReach(spec, zone, after, o);
    var x := SomeIsFirst(spec, zone, after);
    FirstAfterIs(spec, zone, after, x, o);
  }

  lemma DueWhenBehind(s: Schedule, o: int, t: int, runs: Runs)
    requires s.spec.Some? && OneHourChanges(s.zone) && Occurrence(s.spec.value, s.zone, o)
    requires o * MS_PER_MINUTE <= t < o * MS_PER_MINUTE + MS_PER_MINUTE
    requires Behind(runs, s.id, o * MS_PER_MINUTE)
    ensures Due(s, t, runs) == Some(o * MS_PER_MINUTE)
  {
    hide NextOccurrence, Occurrence, OneHourChanges;
    DueIsTheOccurrence(s.spec.value, s.zone, o, t - MS_PER_MINUTE);
  }

  lemma DueIsAnOccurrence(s: Schedule, t: int, runs: Runs) returns (o: int)
    requires s.spec.Some? && OneHourChanges(s.zone) && Due(s, t, runs).Some?
    ensures Due(s, t, runs) == Some(o * MS_PER_MINUTE) && Occurrence(s.spec.value, s.zone, o)
    ensures t - MS_PER_MINUTE < o * MS_PER_MINUTE <= t
  {
    hide NextOccurrence, Occurrence, OneHourChanges;
    o := SomeIsFirst(s.spec.value, s.zone, t - MS_PER_MINUTE);
  }

  /** What the `i`-th tick does for a live schedule. */
  lemma OneTick(schedules: seq<Schedule>, states: seq<Runs>, ticks: seq<Tick>, j: nat, i: nat)
    requires IsHistory(schedules, states, ticks) && Live(schedules, ticks, j) && i < |ticks|
    ensures var s, due := schedules[j], Due(schedules[j], ticks[i].at, states[i]);
            if due.Some? then
              && Behind(states[i], s.id, due.value)
              && s.id in states[i + 1] && states[i + 1][s.id] == due.value
              && Signals(schedules, states, ticks, i, s.id) == [Outcome(s, ticks[i].conditions[j])]
            else
              SameEntry(states[i + 1], states[i], s.id) && Signals(schedules, states, ticks, i, s.id) == []
  {
    DueIsLater(schedules[j], ticks[i].at, states[i]);
    hide Due, Outcome, Behind;
    TickIsPointwise(schedules, ticks[i].conditions, ticks[i].at, states[i], j);
  }

  lemma DueIsLater(s: Schedule, t: int, runs: Runs)
    ensures Due(s, t, runs).Some? ==> Behind(runs, s.id, Due(s, t, runs).value)
  {
    hide NextOccurrence;
  }

  /** A tick says something about a live schedule exactly when it marks an occurrence of the last minute. */
  lemma SaysWhatItMarks(schedules: seq<Schedule>, states: seq<Runs>, ticks: seq<Tick>, j: nat, i: nat)
    requires IsHistory(schedules, states, ticks) && Live(schedules, ticks, j) && i < |ticks|
    requires OneHourChanges(schedules[j].zone)
    ensures Signals(schedules, states, ticks, i, schedules[j].id) == []
            <==> SameEntry(states[i + 1], states[i], schedules[j].id)
    ensures Signals(schedules, states, ticks, i, schedules[j].id) != [] ==>
              exists o :: ticks[i].at - MS_PER_MINUTE < o * MS_PER_MINUTE <= ticks[i].at
                          && Marks(states[i], states[i + 1], schedules[j].id, o * MS_PER_MINUTE)
  {
    OneTick(schedules, states, ticks, j, i);
    hide TickAll, Due, Outcome, Signals, IsHistory, OneHourChanges, Occurrence;
    if Due(schedules[j], ticks[i].at, states[i]).Some? {
      var o := DueIsAnOccurrence(schedules[j], ticks[i].at, states[i]);
      assert Marks(states[i], states[i + 1], schedules[j].id, o * MS_PER_MINUTE);
    }
  }

  /** A tick only records something later than what it found, and nothing from the future. */
  lemma OneTickAdvances(schedules: seq<Schedule>, states: seq<Runs>, ticks: seq<Tick>, j: nat, i: nat, due: int)
    requires IsHistory(schedules, states, ticks) && Live(schedules, ticks, j) && i < |ticks|
    ensures ticks[i].at < due && Behind(states[i], schedules[j].id, due) ==> Behind(states[i + 1], schedules[j].id, due)
    ensures !Behind(states[i], schedules[j].id, due) ==>
              && !Behind(states[i + 1], schedules[j].id, due)
              && !Marks(states[i], states[i + 1], schedules[j].id, due)
  {
    hide TickAll, NextOccurrence, Outcome, Live, IsHistory, Signals;
    OneTick(schedules, states, ticks, j, i);
  }

  lemma {:induction false} BehindUntil(
    schedules: seq<Schedule>, states: seq<Runs>, ticks: seq<Tick>, j: nat, i: nat, due: int)
    requires IsHistory(schedules, states, ticks) && Live(schedules, ticks, j) && i <= |ticks|
    requires forall k :: 0 <= k < i ==> ticks[k].at < due
    requires Behind(states[0], schedules[j].id, due)
    ensures Behind(states[i], schedules[j].id, due)
  {
    hide Behind, TickAll;
    if i > 0 {
      BehindUntil(schedules, states, ticks, j, i - 1, due);
      OneTickAdvances(schedules, states, ticks, j, i - 1, due);
    }
  }

  lemma {:induction false} NeverAgain(
    schedules: seq<Schedule>, states: seq<Runs>, ticks: seq<Tick>, j: nat, i: nat, k: nat, due: int)
    requires IsHistory(schedules, states, ticks) && Live(schedules, ticks, j) && i <= k < |ticks|
    requires !Behind(states[i], schedules[j].id, due)
    ensures !Behind(states[k], schedules[j].id, due)
    ensures !Marks(states[k], states[k + 1], schedules[j].id, due)
    decreases k
  {
    hide Behind, TickAll, Marks;
    if i < k {
      NeverAgain(schedules, states, ticks, j, i, k - 1, due);
      OneTickAdvances(schedules, states, ticks, j, k - 1, due);
    }
    OneTickAdvances(schedules, states, ticks, j, k, due);
  }

  lemma FirstTickFrom(ticks: seq<Tick>, due: int) returns (i: nat)
    requires Paced(ticks) && |ticks| > 0
    requires ticks[0].at - MS_PER_MINUTE < due <= ticks[|ticks| - 1].at
    ensures i < |ticks| && due <= ticks[i].at < due + MS_PER_MINUTE
    ensures forall k :: 0 <= k < i ==> ticks[k].at < due
  {
    i := 0;
    while ticks[i].at < due
      invariant i < |ticks|
      invariant forall k :: 0 <= k < i ==> ticks[k].at < due
      invariant ticks[i].at < due + MS_PER_MINUTE
      decreases |ticks| - i
    {
      i := i + 1;
    }
  }

  /**
   * The one thing said about a schedule whose occurrence is due: it started exactly when the server runs
   * as far as that matters, no task of it is running, and the start succeeds; otherwise the first of
   * these that fails is the reason.
   */
  predicate TellsOutcome(out: seq<Signal>, s: Schedule, c: Conditions) {
    && |out| == 1 && out[0].id == s.id
    && (out[0].Started? <==> (s.onlyIfRunning ==> c.running) && !c.busy && !c.startFails)
    && (out[0].Skipped? ==>
          && out[0].reason != InvalidCron
          && (out[0].reason == ServerStopped <==> s.onlyIfRunning && !c.running)
          && (out[0].reason == TaskRunning <==> (s.onlyIfRunning ==> c.running) && c.busy))
  }

  lemma OutcomeTells(s: Schedule, c: Conditions)
    ensures TellsOutcome([Outcome(s, c)], s, c)
  {
  }

  /** The tick that handles an occurrence for the first time. */
  lemma HandledOnce(schedules: seq<Schedule>, states: seq<Runs>, ticks: seq<Tick>, j: nat, o: int, i: nat)
    requires IsHistory(schedules, states, ticks) && Live(schedules, ticks, j) && i < |ticks|
    requires OneHourChanges(schedules[j].zone) && Occurrence(schedules[j].spec.value, schedules[j].zone, o)
    requires o * MS_PER_MINUTE <= ticks[i].at < o * MS_PER_MINUTE + MS_PER_MINUTE
    requires Behind(states[i], schedules[j].id, o * MS_PER_MINUTE)
    ensures Marks(states[i], states[i + 1], schedules[j].id, o * MS_PER_MINUTE)
    ensures TellsOutcome(Signals(schedules, states, ticks, i, schedules[j].id), schedules[j], ticks[i].conditions[j])
  {
    DueWhenBehind(schedules[j], o, ticks[i].at, states[i]);
    OutcomeTells(schedules[j], ticks[i].conditions[j]);
    hide TickAll, Due, Outcome, Occurrence, OneHourChanges, Signals, Live, TellsOutcome;
    OneTick(schedules, states, ticks, j, i);
  }

  /**
   * Every occurrence is handled by exactly one tick, and that tick says exactly one thing about the
   * schedule: the task was started, or why it was not; the other ticks of that minute say nothing. Ticks
   * are at most a minute apart; between them the agent may have been restarted.
   */
  lemma EveryOccurrenceOnce(
    schedules: seq<Schedule>, states: seq<Runs>, ticks: seq<Tick>, j: nat, o: int) returns (i: nat)
    requires IsHistory(schedules, states, ticks) && Live(schedules, ticks, j) && Paced(ticks) && |ticks| > 0
    requires OneHourChanges(schedules[j].zone) && Occurrence(schedules[j].spec.value, schedules[j].zone, o)
    requires ticks[0].at - MS_PER_MINUTE < o * MS_PER_MINUTE <= ticks[|ticks| - 1].at
    requires Behind(states[0], schedules[j].id, o * MS_PER_MINUTE)
    ensures i < |ticks| && Marks(states[i], states[i + 1], schedules[j].id, o * MS_PER_MINUTE)
    ensures forall k :: 0 <= k < |ticks| && k != i ==>
              !Marks(states[k], states[k + 1], schedules[j].id, o * MS_PER_MINUTE)
    ensures forall k :: 0 <= k < |ticks| && k != i && 0 <= ticks[k].at - o * MS_PER_MINUTE < MS_PER_MINUTE ==>
              Signals(schedules, states, ticks, k, schedules[j].id) == []
    ensures TellsOutcome(Signals(schedules, states, ticks, i, schedules[j].id), schedules[j], ticks[i].conditions[j])
  {
    hide Occurrence, TickAll, OneHourChanges, TellsOutcome, Signals;
    var id, due := schedules[j].id, o * MS_PER_MINUTE;
    i := FirstTickFrom(ticks, due);
    BehindUntil(schedules, states, ticks, j, i, due);
    HandledOnce(schedules, states, ticks, j, o, i);
    forall k | 0 <= k < |ticks| && k != i ensures !Marks(states[k], states[k + 1], id, due) {
      if k < i {
        BehindUntil(schedules, states, ticks, j, k + 1, due);
      } else {
        NeverAgain(schedules, states, ticks, j, i + 1, k, due);
      }
    }
    forall k | 0 <= k < |ticks| && k != i && 0 <= ticks[k].at - due < MS_PER_MINUTE
      ensures Signals(schedules, states, ticks, k, id) == []
    {
      SilentUnlessMarked(schedules, states, ticks, j, k, o);
    }
  }

  lemma SilentUnlessMarked(schedules: seq<Schedule>, states: seq<Runs>, ticks: seq<Tick>, j: nat, k: nat, o: int)
    requires IsHistory(schedules, states, ticks) && Live(schedules, ticks, j) && k < |ticks|
    requires OneHourChanges(schedules[j].zone)
    requires 0 <= ticks[k].at - o * MS_PER_MINUTE < MS_PER_MINUTE
    requires !Marks(states[k], states[k + 1], schedules[j].id, o * MS_PER_MINUTE)
    ensures Signals(schedules, states, ticks, k, schedules[j].id) == []
  {
    SaysWhatItMarks(schedules, states, ticks, j, k);
    hide Marks, Signals, OneHourChanges, TickAll;
    var t := ticks[k].at;
    assert forall x: int :: t - MS_PER_MINUTE < x * MS_PER_MINUTE <= t ==> x == o;
  }

  /** Conversely, whatever a tick marks is an occurrence of its schedule that fell in the last minute. */
  lemma OnlyOccurrencesAreMarked(
    schedules: seq<Schedule>, states: seq<Runs>, ticks: seq<Tick>, j: nat, i: nat, due: int)
    requires IsHistory(schedules, states, ticks) && Live(schedules, ticks, j) && i < |ticks|
    requires OneHourChanges(schedules[j].zone)
    requires Marks(states[i], states[i + 1], schedules[j].id, due)
    ensures ticks[i].at - MS_PER_MINUTE < due <= ticks[i].at
    ensures exists o :: due == o * MS_PER_MINUTE && Occurrence(schedules[j].spec.value, schedules[j].zone, o)
    ensures TellsOutcome(Signals(schedules, states, ticks, i, schedules[j].id), schedules[j], ticks[i].conditions[j])
  {
    var s := schedules[j];
    OutcomeTells(s, ticks[i].conditions[j]);
    hide Occurrence, TickAll, OneHourChanges, Due, Signals, Outcome, IsHistory, TellsOutcome;
    OneTick(schedules, states, ticks, j, i);
    var o := DueIsAnOccurrence(s, ticks[i].at, states[i]);
  }

  /**
   * The other schedules: a disabled one and one of an unknown server are passed over, and an expression
   * that does not parse is reported at every tick; nothing is recorded for any of them.
   */
  lemma OthersAreOnlyReported(schedules: seq<Schedule>, states: seq<Runs>, ticks: seq<Tick>, j: nat, i: nat)
    requires IsHistory(schedules, states, ticks) && j < |schedules| && i < |ticks|
    ensures var s, c := schedules[j], ticks[i].conditions[j];
            !s.enabled || s.spec.None? || !c.known ==>
              && SameEntry(states[i + 1], states[i], s.id)
              && Signals(schedules, states, ticks, i, s.id)
                 == if s.enabled && s.spec.None? then [Skipped(s.id, InvalidCron)] else []
  {
    hide NextOccurrence;
    TickIsPointwise(schedules, ticks[i].conditions, ticks[i].at, states[i], j);
    hide TickAll, About;
  }
}
