/**
 * The agent's watchdog for one server: automatic restarts bounded in a sliding window, and kills
 * after repeated probe timeouts.
 */
module Watchdog {
  import opened Options

  datatype Policy = Policy(autoRestart: bool, crashLoopMax: nat, killOnFreeze: bool)

  /** `policy` is absent while none was pushed; times are in milliseconds. */
  datatype Config = Config(
    policy: Option<Policy>,
    crashWindow: nat,
    restartDelay: nat,
    restartDelayMax: nat,
    freezeFailures: nat)

  datatype Server = Server(
    crashes: seq<int>,
    restartAt: Option<int>,   // when the pending restart is due
    probeOn: bool,
    probing: bool,
    failures: nat,
    freezeAlerted: bool,
    ramAlerted: bool)

  datatype Event =
    | Decided(at: int)     // an automatic restart is scheduled
    | GaveUp               // the crash loop limit is reached
    | Cancelled            // an explicit stop was asked for
    | Halted               // the server is stopped
    | Restarted            // the restart is carried out
    | Expired              // a counted probe timeout
    | Answered             // a probe succeeded
    | Entered              // the server is starting or running
    | Killed               // the frozen server is killed

  datatype World = World(
    server: Server,
    clock: int,
    horizon: int,          // where the last pruning cut the restarts that count
    inFlight: nat,         // probes under way
    log: seq<Event>)

  datatype RunState = Starting | Running | Stopping | Stopped

  /** How a probe ends: an answer, or an error seen while the server is alive and running or not. */
  datatype ProbeEnd = Success | Failure(runs: bool, timedOut: bool)

  datatype Step =
    | Cancel
    | Enter(state: RunState, probes: bool)
    | Crash(now: int)
    | Attempts(now: int)
    | Ram
    | RestartDue(now: int)
    | ProbeStart(runs: bool)
    | ProbeStop(end: ProbeEnd, now: int)

  // ----- The operations -----

  function Recent(times: seq<int>, since: int): seq<int> {
    if times == [] then []
    else (if times[0] >= since then [times[0]] else []) + Recent(times[1..], since)
  }

  function StopProbe(s: Server): Server {
    s.(probeOn := false, probing := false)
  }

  /** Forgets the restarts that left the window. */
  function Prune(w: World, c: Config, now: int): World {
    w.(server := w.server.(crashes := Recent(w.server.crashes, now - c.crashWindow)),
       clock := now, horizon := now - c.crashWindow)
  }

  function Delay(c: Config, attempt: nat): nat {
    if c.restartDelay * attempt < c.restartDelayMax then c.restartDelay * attempt else c.restartDelayMax
  }

  function OnCancel(w: World): World {
    w.(server := StopProbe(w.server).(restartAt := None, crashes := []), log := w.log + [Cancelled])
  }

  /** `probes` tells whether the server can be probed at all. */
  function OnEnter(w: World, state: RunState, probes: bool, c: Config): World {
    var s := w.server;
    match state
    case Starting =>
      w.(server := StopProbe(s).(failures := 0, freezeAlerted := false, ramAlerted := false), log := w.log + [Entered])
    case Running =>
      w.(server := StopProbe(s).(failures := 0, freezeAlerted := false, probeOn := c.policy.Some? && probes),
         log := w.log + [Entered])
    case Stopping => w.(server := StopProbe(s))
    case Stopped => w.(server := StopProbe(s).(crashes := []), log := w.log + [Halted])
  }

  function OnCrash(w: World, c: Config, now: int): World {
    var stopped := w.(server := StopProbe(w.server), clock := now);
    if c.policy.None? || !c.policy.value.autoRestart then stopped
    else
      var pruned := Prune(stopped, c, now);
      var attempts := |pruned.server.crashes|;
      if attempts >= c.policy.value.crashLoopMax
      then pruned.(server := pruned.server.(crashes := []), log := w.log + [GaveUp])
      else
        pruned.(server := pruned.server.(crashes := pruned.server.crashes + [now],
                                         restartAt := Some(now + Delay(c, attempts + 1))),
                log := w.log + [Decided(now)])
  }

  /** The alert counts the attempts, and so prunes; only then the server may be killed. */
  function OnFreeze(w: World, c: Config, now: int): World
    requires c.policy.Some?
  {
    if !c.policy.value.killOnFreeze then w.(clock := now)
    else
      var pruned := Prune(w, c, now);
      pruned.(server := StopProbe(pruned.server), log := w.log + [Killed])
  }

  function OnProbeEnd(w: World, end: ProbeEnd, c: Config, now: int): World {
    var done := w.(clock := now, inFlight := if w.inFlight > 0 then w.inFlight - 1 else 0,
                   server := w.server.(probing := false));
    match end
    case Success => done.(server := done.server.(failures := 0, freezeAlerted := false), log := w.log + [Answered])
    case Failure(runs, timedOut) =>
      if !runs || !timedOut then done
      else
        var counted := done.(server := done.server.(failures := w.server.failures + 1), log := w.log + [Expired]);
        if counted.server.failures >= c.freezeFailures && !w.server.freezeAlerted && c.policy.Some?
        then OnFreeze(counted.(server := counted.server.(freezeAlerted := true)), c, now)
        else counted
  }

  /** Probes start only while the timer is on, one at a time as far as the flag tells. */
  predicate CanProbe(w: World, runs: bool, c: Config) {
    w.server.probeOn && !w.server.probing && runs && c.policy.Some?
  }

  predicate Can(w: World, step: Step, c: Config) {
    match step
    case Crash(now) => w.clock <= now
    case Attempts(now) => w.clock <= now
    case RestartDue(now) => w.clock <= now && w.server.restartAt.Some? && w.server.restartAt.value <= now
    case ProbeStart(runs) => CanProbe(w, runs, c)
    case ProbeStop(_, now) => w.clock <= now && w.inFlight > 0
    case _ => true
  }

  function Next(w: World, step: Step, c: Config): World
    requires Can(w, step, c)
  {
    match step
    case Cancel => OnCancel(w)
    case Enter(state, probes) => OnEnter(w, state, probes, c)
    case Crash(now) => OnCrash(w, c, now)
    case Attempts(now) => Prune(w, c, now)
    case Ram => w.(server := w.server.(ramAlerted := true))
    case RestartDue(now) => w.(server := w.server.(restartAt := None), clock := now, log := w.log + [Restarted])
    case ProbeStart(_) => w.(server := w.server.(probing := true), inFlight := w.inFlight + 1)
    case ProbeStop(end, now) => OnProbeEnd(w, end, c, now)
  }

  function Begin(now: int, c: Config): World {
    World(Server([], None, false, false, 0, false, false), now, now - c.crashWindow, 0, [])
  }

  ghost predicate IsRun(run: seq<World>, steps: seq<Step>, c: Config) {
    && |run| == |steps| + 1 && run[0] == Begin(run[0].clock, c)
    && forall i :: 0 <= i < |steps| ==> Can(run[i], steps[i], c) && run[i + 1] == Next(run[i], steps[i], c)
  }

  // ----- Restarts in a window -----

  predicate Resets(e: Event) { e.GaveUp? || e.Cancelled? || e.Halted? }

  /** The restarts decided since the counter was last reset. */
  function Decisions(log: seq<Event>): seq<int> {
    if log == [] then []
    else
      var last, before := log[|log| - 1], log[..|log| - 1];
      if Resets(last) then [] else if last.Decided? then Decisions(before) + [last.at] else Decisions(before)
  }

  predicate Sorted(times: seq<int>) {
    forall i, k :: 0 <= i < k < |times| ==> times[i] <= times[k]
  }

  /** Any `max + 1` of them span more than the window. */
  predicate Spaced(times: seq<int>, max: nat, window: nat) {
    forall i, k :: 0 <= i && i + max <= k < |times| ==> times[i] + window < times[k]
  }

  lemma DecisionsSnoc(log: seq<Event>, e: Event)
    ensures Decisions(log + [e])
            == if Resets(e) then [] else if e.Decided? then Decisions(log) + [e.at] else Decisions(log)
  {
    assert (log + [e])[..|log|] == log;
  }

  lemma RecentCons(x: int, times: seq<int>, s: int)
    ensures Recent([x] + times, s) == (if x >= s then [x] else []) + Recent(times, s)
  {
    assert ([x] + times)[1..] == times;
  }

  lemma {:induction false} RecentOfRecent(times: seq<int>, s: int, t: int)
    requires s <= t
    ensures Recent(Recent(times, s), t) == Recent(times, t)
  {
    if times != [] {
      RecentOfRecent(times[1..], s, t);
      RecentCons(times[0], Recent(times[1..], s), t);
      assert [] + Recent(times[1..], s) == Recent(times[1..], s);
      assert [] + Recent(times[1..], t) == Recent(times[1..], t);
    }
  }

  lemma {:induction false} RecentSnoc(times: seq<int>, x: int, s: int)
    ensures Recent(times + [x], s) == Recent(times, s) + if x >= s then [x] else []
  {
    if times == [] {
      assert times + [x] == [x] && [x][1..] == [];
    } else {
      RecentSnoc(times[1..], x, s);
      assert (times + [x])[1..] == times[1..] + [x];
    }
  }

  /** Of sorted times, everything from a recent one on is recent. */
  lemma {:induction false} RecentCounts(times: seq<int>, s: int, k: nat)
    requires Sorted(times) && k < |times| && times[k] >= s
    ensures |Recent(times, s)| >= |times| - k
  {
    if |times| > 1 {
      if k > 0 { RecentCounts(times[1..], s, k - 1); } else { RecentCounts(times[1..], s, 0); }
    }
  }

  lemma SortedSnoc(times: seq<int>, now: int)
    requires Sorted(times) && (times != [] ==> times[|times| - 1] <= now)
    ensures Sorted(times + [now])
  {
  }

  /** The limit leaves the new time far from the one `max` places before it. */
  lemma FarFromNow(times: seq<int>, now: int, max: nat, window: nat, i: nat)
    requires Sorted(times) && |Recent(times, now - window)| < max && i + max <= |times|
    ensures times[i] + window < now
  {
    if times[i] >= now - window { RecentCounts(times, now - window, i); }
    hide Sorted, Recent;
  }

  lemma SpacedSnoc(times: seq<int>, now: int, max: nat, window: nat)
    requires Sorted(times) && Spaced(times, max, window)
    requires |Recent(times, now - window)| < max
    ensures Spaced(times + [now], max, window)
  {
    hide Sorted, Recent;
    var longer := times + [now];
    forall i, k | 0 <= i && i + max <= k < |longer| ensures longer[i] + window < longer[k] {
      if k < |times| {
        assert times[i] + window < times[k];
      } else {
        FarFromNow(times, now, max, window, i);
      }
    }
  }

  ghost predicate RestartsOk(w: World, c: Config) {
    var decided := Decisions(w.log);
    && Sorted(decided) && (decided != [] ==> decided[|decided| - 1] <= w.clock)
    && w.server.crashes == Recent(decided, w.horizon) && w.horizon <= w.clock - c.crashWindow
    && (c.policy.Some? ==> Spaced(decided, c.policy.value.crashLoopMax, c.crashWindow))
  }

  lemma PruneKeepsRestarts(w: World, c: Config, now: int)
    requires RestartsOk(w, c) && w.clock <= now
    ensures RestartsOk(Prune(w, c, now), c)
    ensures Prune(w, c, now).server.crashes == Recent(Decisions(w.log), now - c.crashWindow)
  {
    RecentOfRecent(Decisions(w.log), w.horizon, now - c.crashWindow);
    hide Recent, Decisions, Spaced, Sorted;
  }

  /** A decision that the limit allows keeps the restarts spaced. */
  lemma DecisionKeepsSpaced(decided: seq<int>, max: nat, window: nat, now: int)
    requires Sorted(decided) && (decided != [] ==> decided[|decided| - 1] <= now)
    requires Spaced(decided, max, window) && |Recent(decided, now - window)| < max
    ensures Sorted(decided + [now]) && Spaced(decided + [now], max, window)
    ensures Recent(decided + [now], now - window) == Recent(decided, now - window) + [now]
  {
    hide Sorted, Spaced, Recent;
    SpacedSnoc(decided, now, max, window);
    SortedSnoc(decided, now);
    RecentSnoc(decided, now, now - window);
  }

  lemma RestartsOkIs(w: World, c: Config)
    ensures RestartsOk(w, c) <==>
              var decided := Decisions(w.log);
              && Sorted(decided) && (decided != [] ==> decided[|decided| - 1] <= w.clock)
              && w.server.crashes == Recent(decided, w.horizon) && w.horizon <= w.clock - c.crashWindow
              && (c.policy.Some? ==> Spaced(decided, c.policy.value.crashLoopMax, c.crashWindow))
  {
  }

  lemma NothingDecided(c: Config, since: int)
    ensures Recent([], since) == [] && Sorted([])
    ensures c.policy.Some? ==> Spaced([], c.policy.value.crashLoopMax, c.crashWindow)
  {
  }

  lemma CrashKeepsRestarts(w: World, c: Config, now: int)
    requires RestartsOk(w, c) && w.clock <= now
    ensures RestartsOk(OnCrash(w, c, now), c)
  {
    var stopped := w.(server := StopProbe(w.server), clock := now);
    var t := OnCrash(w, c, now);
    var decided := Decisions(w.log);
    RestartsOkIs(w, c);
    RestartsOkIs(stopped, c);
    RestartsOkIs(t, c);
    DecisionsSnoc(w.log, Decided(now));
    DecisionsSnoc(w.log, GaveUp);
    NothingDecided(c, now - c.crashWindow);
    hide RestartsOk, Decisions, Recent, Spaced, Sorted, Delay;
    PruneKeepsRestarts(stopped, c, now);
    if c.policy.Some? && c.policy.value.autoRestart
       && |Recent(decided, now - c.crashWindow)| < c.policy.value.crashLoopMax {
      DecisionKeepsSpaced(decided, c.policy.value.crashLoopMax, c.crashWindow, now);
    }
  }

  /** What the end of a probe does: to the log, to the freeze counters, to the restart counter. */
  ghost predicate ProbeChanges(w: World, t: World, end: ProbeEnd, c: Config, now: int) {
    && t.clock == now
    && (|| (t.server.crashes == w.server.crashes && t.horizon == w.horizon)
        || (t.server.crashes == Recent(w.server.crashes, now - c.crashWindow) && t.horizon == now - c.crashWindow))
    && (if end.Success? then t.log == w.log + [Answered] && t.server.failures == 0
        else if !(end.runs && end.timedOut) then
          t.log == w.log && t.server.failures == w.server.failures && t.server.freezeAlerted == w.server.freezeAlerted
        else
          && t.server.failures == w.server.failures + 1
          && (w.server.freezeAlerted ==> t.server.freezeAlerted)
          && (|| t.log == Counted(w).log
              || (t.log == Counted(w).log + [Killed] && t.server.freezeAlerted && !w.server.freezeAlerted
                  && w.server.failures + 1 >= c.freezeFailures)))
  }

  /** A counted timeout, before anything is done about it. */
  function Counted(w: World): World {
    w.(server := w.server.(failures := w.server.failures + 1), log := w.log + [Expired])
  }

  lemma ProbeEffect(w: World, end: ProbeEnd, c: Config, now: int)
    ensures ProbeChanges(w, OnProbeEnd(w, end, c, now), end, c, now)
  {
    hide Recent;
  }

  lemma ProbeKeepsRestarts(w: World, t: World, end: ProbeEnd, c: Config, now: int)
    requires RestartsOk(w, c) && w.clock <= now && ProbeChanges(w, t, end, c, now)
    ensures RestartsOk(t, c)
  {
    DecisionsSnoc(w.log, Answered);
    DecisionsSnoc(w.log, Expired);
    DecisionsSnoc(w.log + [Expired], Killed);
    hide Decisions, Spaced, Sorted;
    RecentOfRecent(Decisions(w.log), w.horizon, now - c.crashWindow);
    hide Recent;
  }

  /** An event that decides no restart, and a counter that is emptied exactly when the event says so. */
  lemma EventKeepsRestarts(w: World, t: World, e: Event, c: Config)
    requires RestartsOk(w, c) && t.log == w.log + [e] && !e.Decided?
    requires t.server.crashes == (if Resets(e) then [] else w.server.crashes)
    requires t.horizon == w.horizon && w.clock <= t.clock
    ensures RestartsOk(t, c)
  {
    DecisionsSnoc(w.log, e);
    NothingDecided(c, w.horizon);
    hide Recent, Sorted, Spaced, Decisions;
  }

  lemma SameKeepsRestarts(w: World, t: World, c: Config)
    requires RestartsOk(w, c) && t.log == w.log && t.server.crashes == w.server.crashes
    requires t.horizon == w.horizon && w.clock <= t.clock
    ensures RestartsOk(t, c)
  {
    hide Recent, Sorted, Spaced, Decisions;
  }

  lemma StepKeepsRestarts(w: World, step: Step, c: Config)
    requires RestartsOk(w, c) && Can(w, step, c)
    ensures RestartsOk(Next(w, step, c), c)
  {
    hide RestartsOk, OnCrash, Prune, OnProbeEnd;
    var t := Next(w, step, c);
    match step
    case Crash(now) => CrashKeepsRestarts(w, c, now);
    case Attempts(now) => PruneKeepsRestarts(w, c, now);
    case ProbeStop(end, now) => ProbeEffect(w, end, c, now); hide ProbeChanges; ProbeKeepsRestarts(w, t, end, c, now);
    case Cancel => EventKeepsRestarts(w, t, Cancelled, c);
    case RestartDue(_) => EventKeepsRestarts(w, t, Restarted, c);
    case Enter(state, _) =>
      if state.Stopping? { SameKeepsRestarts(w, t, c); }
      else { EventKeepsRestarts(w, t, if state.Stopped? then Halted else Entered, c); }
    case _ => SameKeepsRestarts(w, t, c);
  }

  lemma {:induction false} RunKeepsRestarts(run: seq<World>, steps: seq<Step>, c: Config, n: nat)
    requires IsRun(run, steps, c) && n < |run|
    ensures RestartsOk(run[n], c)
    decreases n
  {
    if n > 0 {
      RunKeepsRestarts(run, steps, c, n - 1);
      StepKeepsRestarts(run[n - 1], steps[n - 1], c);
    }
  }

  /** The numbers from `lo` on, `n` of them. */
  function Range(lo: int, n: nat): set<int> {
    if n == 0 then {} else Range(lo, n - 1) + {lo + n - 1}
  }

  lemma {:induction false} RangeSize(lo: int, n: nat)
    ensures |Range(lo, n)| == n && forall i :: i in Range(lo, n) <==> lo <= i < lo + n
  {
    if n > 0 { RangeSize(lo, n - 1); }
  }

  lemma WindowHoldsFew(times: seq<int>, max: nat, window: nat, start: int)
    requires Sorted(times) && Spaced(times, max, window)
    ensures |set i | 0 <= i < |times| && start <= times[i] <= start + window| <= max
  {
    var inside := set i | 0 <= i < |times| && start <= times[i] <= start + window;
    if inside != {} {
      var some :| some in inside;
      var first := FirstInside(times, start, some);
      assert forall k :: first + max <= k < |times| ==> times[first] + window < times[k];
      RangeSize(first, max);
      SubsetSize(inside, Range(first, max));
    }
  }

  lemma SubsetSize(a: set<int>, b: set<int>)
    requires a <= b
    ensures |a| <= |b|
  {
    assert b == a + (b - a);
  }

  /** The first time that is not before the start. */
  lemma {:induction false} FirstInside(times: seq<int>, start: int, some: int) returns (first: int)
    requires Sorted(times) && 0 <= some < |times| && start <= times[some]
    ensures 0 <= first <= some && start <= times[first]
    ensures forall i :: 0 <= i < first ==> times[i] < start
    decreases some
  {
    if some == 0 || times[some - 1] < start {
      first := some;
    } else {
      first := FirstInside(times, start, some - 1);
    }
  }

  /**
   * Between resets, any closed window of the configured length holds at most `crashLoopMax`
   * automatic restarts, for every run of crashes, stops, probes and cancellations.
   */
  lemma RestartsAreBounded(run: seq<World>, steps: seq<Step>, c: Config, n: nat, start: int)
    requires IsRun(run, steps, c) && n < |run| && c.policy.Some?
    ensures var decided := Decisions(run[n].log);
            |set i | 0 <= i < |decided| && start <= decided[i] <= start + c.crashWindow| <= c.policy.value.crashLoopMax
  {
    RunKeepsRestarts(run, steps, c, n);
    WindowHoldsFew(Decisions(run[n].log), c.policy.value.crashLoopMax, c.crashWindow, start);
  }

  // ----- Kills -----

  /** Counted timeouts since the last answer or entry to starting or running. */
  function Expirations(log: seq<Event>): nat {
    if log == [] then 0
    else
      var last, before := log[|log| - 1], log[..|log| - 1];
      if last.Answered? || last.Entered? then 0
      else if last.Expired? then Expirations(before) + 1
      else Expirations(before)
  }

  /** A kill since the last answer or entry. */
  predicate KilledSince(log: seq<Event>) {
    log != [] &&
    var last, before := log[|log| - 1], log[..|log| - 1];
    if last.Answered? || last.Entered? then false else last.Killed? || KilledSince(before)
  }

  lemma FreezeSnoc(log: seq<Event>, e: Event)
    ensures Expirations(log + [e])
            == if e.Answered? || e.Entered? then 0 else if e.Expired? then Expirations(log) + 1 else Expirations(log)
    ensures KilledSince(log + [e]) <==> if e.Answered? || e.Entered? then false else e.Killed? || KilledSince(log)
  {
    assert (log + [e])[..|log|] == log;
  }

  /** Every kill comes after enough timeouts, and is the first one of its freeze. */
  ghost predicate KillsOk(log: seq<Event>, c: Config) {
    forall k :: 0 <= k < |log| && log[k].Killed? ==>
      Expirations(log[..k]) >= c.freezeFailures && !KilledSince(log[..k])
  }

  lemma KillsSnoc(log: seq<Event>, e: Event, c: Config)
    requires KillsOk(log, c)
    requires e.Killed? ==> Expirations(log) >= c.freezeFailures && !KilledSince(log)
    ensures KillsOk(log + [e], c)
  {
    hide Expirations, KilledSince;
    var longer := log + [e];
    forall k | 0 <= k < |longer| && longer[k].Killed?
      ensures Expirations(longer[..k]) >= c.freezeFailures && !KilledSince(longer[..k])
    {
      assert longer[..k] == if k < |log| then log[..k] else log;
    }
  }

  ghost predicate FreezeOk(w: World, c: Config) {
    && w.server.failures == Expirations(w.log)
    && (KilledSince(w.log) ==> w.server.freezeAlerted)
    && KillsOk(w.log, c)
  }

  /** One event more, and the counters follow it. */
  lemma EventKeepsFreeze(w: World, t: World, e: Event, c: Config)
    requires FreezeOk(w, c) && t.log == w.log + [e]
    requires e.Killed? ==> w.server.failures >= c.freezeFailures && !KilledSince(w.log) && t.server.freezeAlerted
    requires t.server.failures
             == if e.Answered? || e.Entered? then 0
                else if e.Expired? then w.server.failures + 1 else w.server.failures
    requires !e.Answered? && !e.Entered? && w.server.freezeAlerted ==> t.server.freezeAlerted
    ensures FreezeOk(t, c)
  {
    FreezeSnoc(w.log, e);
    KillsSnoc(w.log, e, c);
    hide KillsOk, Expirations, KilledSince;
  }

  lemma ProbeKeepsFreeze(w: World, t: World, end: ProbeEnd, c: Config, now: int)
    requires FreezeOk(w, c) && ProbeChanges(w, t, end, c, now)
    ensures FreezeOk(t, c)
  {
    AlertedIfKilled(w, c);
    FreezeSnoc(w.log, Expired);
    hide FreezeOk, KilledSince, Expirations, Recent;
    if end.Success? {
      EventKeepsFreeze(w, t, Answered, c);
    } else if end.runs && end.timedOut {
      var counted := Counted(w);
      EventKeepsFreeze(w, counted, Expired, c);
      if t.log == counted.log {
        AlertKeepsFreeze(counted, t, c);
      } else {
        var alerted := counted.(server := counted.server.(freezeAlerted := true));
        AlertKeepsFreeze(counted, alerted, c);
        EventKeepsFreeze(alerted, t, Killed, c);
      }
    } else {
      AlertKeepsFreeze(w, t, c);
    }
  }

  lemma AlertedIfKilled(w: World, c: Config)
    requires FreezeOk(w, c)
    ensures KilledSince(w.log) ==> w.server.freezeAlerted
  {
  }

  /** Nothing but the alert flag may be raised. */
  lemma AlertKeepsFreeze(w: World, t: World, c: Config)
    requires FreezeOk(w, c) && t.log == w.log && t.server.failures == w.server.failures
    requires w.server.freezeAlerted ==> t.server.freezeAlerted
    ensures FreezeOk(t, c)
  {
    hide KillsOk, Expirations, KilledSince;
  }

  lemma StepKeepsFreeze(w: World, step: Step, c: Config)
    requires FreezeOk(w, c) && Can(w, step, c)
    ensures FreezeOk(Next(w, step, c), c)
  {
    var t := Next(w, step, c);
    if step.ProbeStop? {
      ProbeEffect(w, step.end, c, step.now);
      hide FreezeOk, ProbeChanges, OnProbeEnd;
      ProbeKeepsFreeze(w, t, step.end, c, step.now);
    } else {
      hide FreezeOk, KilledSince, Recent, OnProbeEnd, Delay;
      if t.log == w.log {
        AlertKeepsFreeze(w, t, c);
      } else {
        var e := t.log[|t.log| - 1];
        assert t.log == w.log + [e];
        EventKeepsFreeze(w, t, e, c);
      }
    }
  }

  lemma {:induction false} RunKeepsFreeze(run: seq<World>, steps: seq<Step>, c: Config, n: nat)
    requires IsRun(run, steps, c) && n < |run|
    ensures FreezeOk(run[n], c)
    decreases n
  {
    if n > 0 {
      RunKeepsFreeze(run, steps, c, n - 1);
      StepKeepsFreeze(run[n - 1], steps[n - 1], c);
    }
  }

  /**
   * A server is killed for a freeze only after at least `freezeFailures` counted timeouts since the
   * last answered probe or entry to starting or running, and once per such period.
   */
  lemma KillsNeedTimeouts(run: seq<World>, steps: seq<Step>, c: Config, n: nat, k: nat)
    requires IsRun(run, steps, c) && n < |run| && k < |run[n].log| && run[n].log[k].Killed?
    ensures Expirations(run[n].log[..k]) >= c.freezeFailures
    ensures !KilledSince(run[n].log[..k])
  {
    RunKeepsFreeze(run, steps, c, n);
    hide Expirations, KilledSince;
  }

  // ----- Pending restarts -----

  /** The pending restart was decided after the last cancellation and not carried out yet. */
  predicate Owed(log: seq<Event>) {
    log != [] &&
    var last, before := log[|log| - 1], log[..|log| - 1];
    if last.Cancelled? || last.Restarted? then false else last.Decided? || Owed(before)
  }

  lemma OwedSnoc(log: seq<Event>, e: Event)
    ensures Owed(log + [e]) <==> if e.Cancelled? || e.Restarted? then false else e.Decided? || Owed(log)
  {
    assert (log + [e])[..|log|] == log;
  }

  ghost predicate RestartsOwed(log: seq<Event>) {
    forall k :: 0 <= k < |log| && log[k].Restarted? ==> Owed(log[..k])
  }

  lemma RestartsOwedSnoc(log: seq<Event>, e: Event)
    requires RestartsOwed(log) && (e.Restarted? ==> Owed(log))
    ensures RestartsOwed(log + [e])
  {
    hide Owed;
    var longer := log + [e];
    forall k | 0 <= k < |longer| && longer[k].Restarted? ensures Owed(longer[..k]) {
      assert longer[..k] == if k < |log| then log[..k] else log;
    }
  }

  ghost predicate OwedOk(w: World) {
    RestartsOwed(w.log) && (w.server.restartAt.Some? <==> Owed(w.log))
  }

  lemma EventKeepsOwed(w: World, t: World, e: Event)
    requires OwedOk(w) && t.log == w.log + [e] && (e.Restarted? ==> w.server.restartAt.Some?)
    requires t.server.restartAt.Some? <==>
               if e.Cancelled? || e.Restarted? then false else e.Decided? || w.server.restartAt.Some?
    ensures OwedOk(t)
  {
    OwedSnoc(w.log, e);
    RestartsOwedSnoc(w.log, e);
    hide RestartsOwed, Owed;
  }

  lemma SameKeepsOwed(w: World, t: World)
    requires OwedOk(w) && t.log == w.log && t.server.restartAt == w.server.restartAt
    ensures OwedOk(t)
  {
    hide RestartsOwed, Owed;
  }

  lemma ProbeKeepsOwed(w: World, end: ProbeEnd, c: Config, now: int)
    requires OwedOk(w)
    ensures OwedOk(OnProbeEnd(w, end, c, now))
  {
    var t := OnProbeEnd(w, end, c, now);
    hide OwedOk, Recent;
    if end.Success? {
      EventKeepsOwed(w, t, Answered);
    } else if t.log == w.log {
      SameKeepsOwed(w, t);
    } else {
      var counted := w.(log := w.log + [Expired]);
      EventKeepsOwed(w, counted, Expired);
      if t.log == counted.log { SameKeepsOwed(counted, t); } else { EventKeepsOwed(counted, t, Killed); }
    }
  }

  lemma StepKeepsOwed(w: World, step: Step, c: Config)
    requires Can(w, step, c) && OwedOk(w)
    ensures OwedOk(Next(w, step, c))
  {
    var t := Next(w, step, c);
    if step.ProbeStop? {
      ProbeKeepsOwed(w, step.end, c, step.now);
    } else {
      hide OwedOk, Recent, Delay, OnProbeEnd;
      if t.log == w.log {
        SameKeepsOwed(w, t);
      } else {
        var e := t.log[|t.log| - 1];
        assert t.log == w.log + [e];
        EventKeepsOwed(w, t, e);
      }
    }
  }

  /** Every restart carries out one decision, made after the last cancellation, and only once. */
  lemma {:induction false} RestartsFollowDecisions(run: seq<World>, steps: seq<Step>, c: Config, n: nat)
    requires IsRun(run, steps, c) && n < |run|
    ensures OwedOk(run[n])
    decreases n
  {
    if n > 0 {
      RestartsFollowDecisions(run, steps, c, n - 1);
      hide OwedOk, Next, Can;
      StepKeepsOwed(run[n - 1], steps[n - 1], c);
    }
  }

  // ----- The watchdog as the object the agent holds -----

  /** Everything the three main results rest on is kept. */
  ghost predicate Keeps(w: World, t: World, c: Config) {
    && (RestartsOk(w, c) ==> RestartsOk(t, c))
    && (FreezeOk(w, c) ==> FreezeOk(t, c))
    && (OwedOk(w) ==> OwedOk(t))
  }

  lemma StepKeeps(w: World, step: Step, c: Config)
    requires Can(w, step, c)
    ensures Keeps(w, Next(w, step, c), c)
  {
    hide RestartsOk, FreezeOk, OwedOk, Next, Can;
    if RestartsOk(w, c) { StepKeepsRestarts(w, step, c); }
    if FreezeOk(w, c) { StepKeepsFreeze(w, step, c); }
    if OwedOk(w) { StepKeepsOwed(w, step, c); }
  }

  lemma CrashKeeps(w: World, c: Config, now: int)
    requires w.clock <= now
    ensures Keeps(w, OnCrash(w, c, now), c) && Keeps(w, Prune(w, c, now), c)
  {
    StepKeeps(w, Crash(now), c);
    StepKeeps(w, Attempts(now), c);
    hide Keeps, OnCrash, Prune;
  }

  lemma StateKeeps(w: World, state: RunState, probes: bool, c: Config)
    ensures Keeps(w, OnEnter(w, state, probes, c), c) && Keeps(w, OnCancel(w), c)
  {
    StepKeeps(w, Enter(state, probes), c);
    StepKeeps(w, Cancel, c);
    hide Keeps, OnEnter, OnCancel;
  }

  lemma ProbeKeeps(w: World, end: ProbeEnd, c: Config, now: int)
    requires w.clock <= now && w.inFlight > 0
    ensures Keeps(w, OnProbeEnd(w, end, c, now), c)
  {
    StepKeeps(w, ProbeStop(end, now), c);
    hide Keeps, OnProbeEnd;
  }

  class ServerWatch {
    var server: Server
    ghost var clock: int
    ghost var horizon: int
    ghost var inFlight: nat
    ghost var log: seq<Event>

    ghost function Value(): World
      reads this
    {
      World(server, clock, horizon, inFlight, log)
    }

    constructor (now: int, c: Config)
      ensures Value() == Begin(now, c)
    {
      server := Server([], None, false, false, 0, false, false);
      clock, horizon, inFlight, log := now, now - c.crashWindow, 0, [];
    }

    /** Drops the restarts that left the window, keeping the order of the others. */
    method CountAttempts(now: int, c: Config) returns (attempts: nat)
      modifies this
      ensures Value() == Prune(old(Value()), c, now) && attempts == |server.crashes|
      ensures old(clock) <= now ==> Keeps(old(Value()), Value(), c)
    {
      hide Keeps;
      if clock <= now { CrashKeeps(Value(), c, now); }
      var since := now - c.crashWindow;
      var kept: seq<int> := [];
      ghost var all := server.crashes;
      assert all[0..] == all;
      for i := 0 to |server.crashes|
        invariant server == old(server) && clock == old(clock) && horizon == old(horizon)
        invariant inFlight == old(inFlight) && log == old(log)
        invariant kept + Recent(all[i..], since) == Recent(all, since)
      {
        assert all[i..][1..] == all[i + 1..];
        if server.crashes[i] >= since { kept := kept + [server.crashes[i]]; }
      }
      assert all[|all|..] == [] && kept + [] == kept;
      server := server.(crashes := kept);
      clock, horizon := now, since;
      attempts := |kept|;
    }

    method HandleCrash(now: int, c: Config)
      modifies this
      ensures Value() == OnCrash(old(Value()), c, now)
      ensures old(clock) <= now ==> Keeps(old(Value()), Value(), c)
    {
      hide Keeps;
      if clock <= now { CrashKeeps(Value(), c, now); }
      server := StopProbe(server);
      clock := now;
      if c.policy.None? || !c.policy.value.autoRestart { return; }
      var attempts := CountAttempts(now, c);
      if attempts >= c.policy.value.crashLoopMax {
        server := server.(crashes := []);
        log := log + [GaveUp];
        return;
      }
      server := server.(crashes := server.crashes + [now], restartAt := Some(now + Delay(c, attempts + 1)));
      log := log + [Decided(now)];
    }

    method HandleState(state: RunState, probes: bool, c: Config)
      modifies this
      ensures Value() == OnEnter(old(Value()), state, probes, c)
      ensures Keeps(old(Value()), Value(), c)
    {
      hide Keeps;
      StateKeeps(Value(), state, probes, c);
      server := StopProbe(server);
      match state
      case Starting =>
        server := server.(failures := 0, freezeAlerted := false, ramAlerted := false);
        log := log + [Entered];
      case Running =>
        server := server.(failures := 0, freezeAlerted := false, probeOn := c.policy.Some? && probes);
        log := log + [Entered];
      case Stopping =>
      case Stopped =>
        server := server.(crashes := []);
        log := log + [Halted];
    }

    method CancelRestart()
      modifies this
      ensures Value() == OnCancel(old(Value()))
      ensures forall c :: Keeps(old(Value()), Value(), c)
    {
      hide Keeps;
      forall c ensures Keeps(Value(), OnCancel(Value()), c) { StateKeeps(Value(), Stopping, false, c); }
      server := StopProbe(server).(restartAt := None, crashes := []);
      log := log + [Cancelled];
    }

    /** The end of a probe; says whether the server is to be killed. */
    method EndProbe(end: ProbeEnd, now: int, c: Config) returns (kill: bool)
      modifies this
      ensures Value() == OnProbeEnd(old(Value()), end, c, now)
      ensures kill ==> log == old(log) + [Expired, Killed]
      ensures old(clock) <= now && old(inFlight) > 0 ==> Keeps(old(Value()), Value(), c)
    {
      hide Keeps;
      if clock <= now && inFlight > 0 { ProbeKeeps(Value(), end, c, now); }
      kill := false;
      var failures, alerted := server.failures, server.freezeAlerted;
      server := server.(probing := false);
      clock, inFlight := now, if inFlight > 0 then inFlight - 1 else 0;
      if end.Success? {
        server := server.(failures := 0, freezeAlerted := false);
        log := log + [Answered];
        return;
      }
      if !end.runs || !end.timedOut { return; }
      server := server.(failures := failures + 1);
      log := log + [Expired];
      if failures + 1 >= c.freezeFailures && !alerted && c.policy.Some? {
        server := server.(freezeAlerted := true);
        if c.policy.value.killOnFreeze {
          var _ := CountAttempts(now, c);
          server := StopProbe(server);
          kill := true;
          log := log + [Killed];
        }
      }
    }
  }
}
