/**
 * What the watchdog must do, over every run: decide and carry out a restart, kill a frozen server, and
 * probe exactly while a running server can be probed.
 */
module WatchdogDuties {
  import opened Options
  import opened Watchdog

  lemma RunStep(run: seq<World>, steps: seq<Step>, c: Config, n: nat)
    requires IsRun(run, steps, c) && n < |steps|
    ensures |run| == |steps| + 1 && Can(run[n], steps[n], c) && run[n + 1] == Next(run[n], steps[n], c)
  {
  }

  // ----- Restarts -----

  /** How many decisions fall at or after `since`. */
  function Since(times: seq<int>, since: int): set<nat> {
    set i: nat | i < |times| && times[i] >= since
  }

  lemma {:induction false} RecentIsSince(times: seq<int>, since: int)
    ensures |Recent(times, since)| == |Since(times, since)|
  {
    if times != [] {
      var rest, last := times[..|times| - 1], times[|times| - 1];
      assert times == rest + [last];
      RecentIsSince(rest, since);
      RecentSnoc(rest, last, since);
      assert Since(times, since) == Since(rest, since) + if last >= since then {|rest|} else {};
    }
  }

  /**
   * A crash. Without automatic restarts nothing is decided. With fewer decisions than the limit in the
   * window that ends now, a restart is decided and falls due after a delay that grows with their
   * number up to the maximum; otherwise the watchdog gives up.
   */
  lemma CrashDecidesExactly(run: seq<World>, steps: seq<Step>, c: Config, n: nat)
    requires IsRun(run, steps, c) && n < |steps| && steps[n].Crash?
    ensures var w, t, now := run[n], run[n + 1], steps[n].now;
            var recent := |Since(Decisions(w.log), now - c.crashWindow)|;
            if c.policy.None? || !c.policy.value.autoRestart
            then t.log == w.log && t.server.restartAt == w.server.restartAt
            else if recent >= c.policy.value.crashLoopMax
            then t.log == w.log + [GaveUp] && t.server.restartAt == w.server.restartAt
            else
              && t.log == w.log + [Decided(now)] && t.server.restartAt.Some?
              && var delay := t.server.restartAt.value - now;
                 && delay in {c.restartDelay * (recent + 1), c.restartDelayMax as int}
                 && delay <= c.restartDelay * (recent + 1) && delay <= c.restartDelayMax
  {
    var w, now := run[n], steps[n].now;
    RunStep(run, steps, c, n);
    RunKeepsRestarts(run, steps, c, n);
    hide IsRun;
    var stopped := w.(server := StopProbe(w.server), clock := now);
    StoppedIsOk(w, c, now);
    PruneKeepsRestarts(stopped, c, now);
    RecentIsSince(Decisions(w.log), now - c.crashWindow);
    hide Recent, Decisions, Since, RestartsOk, Prune;
    CrashIs(w, c, now);
  }

  lemma StoppedIsOk(w: World, c: Config, now: int)
    requires RestartsOk(w, c) && w.clock <= now
    ensures RestartsOk(w.(server := StopProbe(w.server), clock := now), c)
  {
    hide Recent, Decisions, Sorted, Spaced;
  }

  lemma CrashIs(w: World, c: Config, now: int)
    ensures var pruned := Prune(w.(server := StopProbe(w.server), clock := now), c, now);
            var attempts := |pruned.server.crashes|;
            var t := OnCrash(w, c, now);
            if c.policy.None? || !c.policy.value.autoRestart
            then t.log == w.log && t.server.restartAt == w.server.restartAt
            else if attempts >= c.policy.value.crashLoopMax
            then t.log == w.log + [GaveUp] && t.server.restartAt == w.server.restartAt
            else
              && t.log == w.log + [Decided(now)] && t.server.restartAt.Some?
              && var delay := t.server.restartAt.value - now;
                 && delay in {c.restartDelay * (attempts + 1), c.restartDelayMax as int}
                 && delay <= c.restartDelay * (attempts + 1) && delay <= c.restartDelayMax
  {
    hide Recent;
  }

  /** Nothing that would take a pending restart back, replace it or carry it out. */
  predicate LeavesRestart(step: Step) {
    !step.Cancel? && !step.Crash? && !step.RestartDue?
  }

  lemma StepLeavesRestart(w: World, step: Step, c: Config)
    requires Can(w, step, c) && LeavesRestart(step)
    ensures Next(w, step, c).server.restartAt == w.server.restartAt
  {
    hide Recent;
  }

  /** A decided restart stays pending until it is cancelled or carried out, and is carried out once it is due. */
  lemma {:induction false} PendingRestartIsDue(run: seq<World>, steps: seq<Step>, c: Config, i: nat, n: nat, now: int)
    requires IsRun(run, steps, c) && i <= n < |run| && run[i].server.restartAt.Some?
    requires forall k :: i <= k < n ==> LeavesRestart(steps[k])
    requires run[n].clock <= now && run[i].server.restartAt.value <= now
    ensures run[n].server.restartAt == run[i].server.restartAt
    ensures Can(run[n], RestartDue(now), c)
    ensures var t := Next(run[n], RestartDue(now), c);
            t.log == run[n].log + [Restarted] && t.server.restartAt.None?
  {
    PendingStays(run, steps, c, i, n);
  }

  lemma {:induction false} PendingStays(run: seq<World>, steps: seq<Step>, c: Config, i: nat, n: nat)
    requires IsRun(run, steps, c) && i <= n < |run|
    requires forall k :: i <= k < n ==> LeavesRestart(steps[k])
    ensures run[n].server.restartAt == run[i].server.restartAt
    decreases n
  {
    if i < n {
      hide *;
      RunStep(run, steps, c, n - 1);
      PendingStays(run, steps, c, i, n - 1);
      StepLeavesRestart(run[n - 1], steps[n - 1], c);
    }
  }

  // ----- Kills -----

  /** The alert was raised in this freeze exactly when enough timeouts were counted, and then the server killed. */
  ghost predicate AlertOk(w: World, c: Config) {
    && (w.server.freezeAlerted ==> w.server.failures >= c.freezeFailures)
    && (c.policy.Some? && w.server.failures >= c.freezeFailures && w.server.failures > 0 ==> w.server.freezeAlerted)
    && (c.policy.Some? && c.policy.value.killOnFreeze ==> (w.server.freezeAlerted <==> KilledSince(w.log)))
  }

  lemma ProbeKeepsAlert(w: World, end: ProbeEnd, c: Config, now: int)
    requires AlertOk(w, c)
    ensures AlertOk(OnProbeEnd(w, end, c, now), c)
  {
    FreezeSnoc(w.log, Answered);
    FreezeSnoc(w.log, Expired);
    FreezeSnoc(w.log + [Expired], Killed);
    hide Recent, KilledSince, Expirations;
  }

  /** What a step other than the end of a probe does to the freeze counters and to the log. */
  lemma StepLeavesFreeze(w: World, step: Step, c: Config)
    requires Can(w, step, c) && !step.ProbeStop?
    ensures var t := Next(w, step, c);
            if t.log == w.log + [Entered] then t.server.failures == 0 && !t.server.freezeAlerted
            else
              && t.server.failures == w.server.failures && t.server.freezeAlerted == w.server.freezeAlerted
              && (|| t.log == w.log
                  || (|t.log| == |w.log| + 1 && t.log == w.log + [t.log[|w.log|]]
                      && var e := t.log[|w.log|]; !e.Answered? && !e.Entered? && !e.Expired? && !e.Killed?))
  {
    hide Recent, OnProbeEnd, Delay;
  }

  lemma StepKeepsAlert(w: World, step: Step, c: Config)
    requires AlertOk(w, c) && Can(w, step, c)
    ensures AlertOk(Next(w, step, c), c)
  {
    if step.ProbeStop? {
      ProbeKeepsAlert(w, step.end, c, step.now);
      hide AlertOk, OnProbeEnd;
    } else {
      StepLeavesFreeze(w, step, c);
      hide Next, Can, KilledSince, Expirations;
      var t := Next(w, step, c);
      FreezeSnoc(w.log, Entered);
      if |t.log| == |w.log| + 1 { FreezeSnoc(w.log, t.log[|w.log|]); }
    }
  }

  lemma {:induction false} RunKeepsAlert(run: seq<World>, steps: seq<Step>, c: Config, n: nat)
    requires IsRun(run, steps, c) && n < |run|
    ensures AlertOk(run[n], c)
    decreases n
  {
    if n > 0 {
      RunKeepsAlert(run, steps, c, n - 1);
      RunStep(run, steps, c, n - 1);
      hide AlertOk, Next, Can;
      StepKeepsAlert(run[n - 1], steps[n - 1], c);
    }
  }

  /**
   * The end of a probe, told from the log: an answer ends the freeze; a timeout of a live, running
   * server counts; and the server is killed at once when that makes enough of them and it was not
   * killed in this freeze yet. Nothing else counts or kills.
   */
  lemma FrozenServerIsKilled(run: seq<World>, steps: seq<Step>, c: Config, n: nat)
    requires IsRun(run, steps, c) && n < |steps| && steps[n].ProbeStop?
    ensures var log, end := run[n].log, steps[n].end;
            run[n + 1].log
            == log + if end.Success? then [Answered]
                     else if !end.runs || !end.timedOut then []
                     else if c.policy.Some? && c.policy.value.killOnFreeze && !KilledSince(log)
                             && Expirations(log) + 1 >= c.freezeFailures
                     then [Expired, Killed] else [Expired]
  {
    RunStep(run, steps, c, n);
    RunKeepsAlert(run, steps, c, n);
    RunKeepsFreeze(run, steps, c, n);
    hide IsRun, KillsOk, KilledSince, Expirations, Recent;
    assert run[n].log + [] == run[n].log;
    assert run[n].log + [Expired, Killed] == run[n].log + [Expired] + [Killed];
  }

  // ----- Probes -----

  /** Probing is due: the server entered running, can be probed, and nothing stopped probing since. */
  ghost function ShouldProbe(run: seq<World>, steps: seq<Step>, c: Config, n: nat): bool
    requires IsRun(run, steps, c) && n < |run|
  {
    if n == 0 then false
    else
      match steps[n - 1]
      case Enter(state, probes) => state.Running? && probes && c.policy.Some?
      case Cancel => false
      case Crash(_) => false
      case ProbeStop(_, _) =>
        ShouldProbe(run, steps, c, n - 1) && !(run[n - 1].log + [Expired, Killed] == run[n].log)
      case _ => ShouldProbe(run, steps, c, n - 1)
  }

  lemma ProbeOnAfter(w: World, step: Step, c: Config)
    requires Can(w, step, c)
    ensures Next(w, step, c).server.probeOn
            == match step
               case Enter(state, probes) => state.Running? && probes && c.policy.Some?
               case Cancel => false
               case Crash(_) => false
               case ProbeStop(_, _) => w.server.probeOn && Next(w, step, c).log != w.log + [Expired, Killed]
               case _ => w.server.probeOn
  {
    hide Recent;
    assert w.log + [Expired, Killed] == w.log + [Expired] + [Killed];
    if step.ProbeStop? {
      assert |w.log + [Expired, Killed]| == |w.log| + 2;
    }
  }

  /** Over every run the probe timer is on exactly while probing is due. */
  lemma {:induction false} ProbesWhenDue(run: seq<World>, steps: seq<Step>, c: Config, n: nat)
    requires IsRun(run, steps, c) && n < |run|
    ensures run[n].server.probeOn == ShouldProbe(run, steps, c, n)
    decreases n
  {
    if n > 0 {
      ProbesWhenDue(run, steps, c, n - 1);
      RunStep(run, steps, c, n - 1);
      ProbeOnAfter(run[n - 1], steps[n - 1], c);
      hide Next, Can;
    }
  }

  // ----- Flags -----

  predicate StartsProbe(step: Step) { step.ProbeStart? }

  predicate StopsProbing(step: Step) { step.Enter? || step.Cancel? || step.Crash? || step.ProbeStop? }

  predicate TellsRam(step: Step) { step.Ram? }

  predicate StartsServer(step: Step) { step.Enter? && step.state.Starting? }

  /** The probes started less those that ended. */
  function UnderWay(steps: seq<Step>, n: nat): int
    requires n <= |steps|
  {
    if n == 0 then 0
    else UnderWay(steps, n - 1) + if steps[n - 1].ProbeStart? then 1 else if steps[n - 1].ProbeStop? then -1 else 0
  }

  /** The time of the last step that has one. */
  function TimeOf(start: int, steps: seq<Step>, n: nat): int
    requires n <= |steps|
  {
    if n == 0 then start
    else
      match steps[n - 1]
      case Crash(now) => now
      case Attempts(now) => now
      case RestartDue(now) => now
      case ProbeStop(_, now) => now
      case _ => TimeOf(start, steps, n - 1)
  }

  lemma FlagsAfter(w: World, step: Step, c: Config)
    requires Can(w, step, c)
    ensures var t := Next(w, step, c);
            && (t.server.probing <==> StartsProbe(step) || (!StopsProbing(step) && w.server.probing))
            && (t.server.ramAlerted <==> TellsRam(step) || (!StartsServer(step) && w.server.ramAlerted))
            && t.inFlight == w.inFlight + (if step.ProbeStart? then 1 else if step.ProbeStop? then -1 else 0)
            && t.clock == match step
                          case Crash(now) => now
                          case Attempts(now) => now
                          case RestartDue(now) => now
                          case ProbeStop(_, now) => now
                          case _ => w.clock
  {
    hide Recent;
  }

  /** What the steps tell about the flags is what they are. */
  ghost predicate FlagsTold(run: seq<World>, steps: seq<Step>, n: nat)
    requires n <= |steps| && n < |run|
  {
    && run[n].clock == TimeOf(run[0].clock, steps, n)
    && (run[n].server.probing <==> Raised(steps, n, StartsProbe, StopsProbing))
    && (run[n].server.ramAlerted <==> Raised(steps, n, TellsRam, StartsServer))
    && run[n].inFlight == UnderWay(steps, n)
  }

  lemma NextFlagsTold(run: seq<World>, steps: seq<Step>, c: Config, n: nat)
    requires n < |steps| && n + 1 < |run| && Can(run[n], steps[n], c) && run[n + 1] == Next(run[n], steps[n], c)
    requires FlagsTold(run, steps, n)
    ensures FlagsTold(run, steps, n + 1)
  {
    FlagsAfter(run[n], steps[n], c);
    RaisedSnoc(steps, n, StartsProbe, StopsProbing);
    RaisedSnoc(steps, n, TellsRam, StartsServer);
    hide Next, Can, Raised, StartsProbe, StopsProbing, TellsRam, StartsServer;
  }

  lemma {:induction false} RunTellsFlags(run: seq<World>, steps: seq<Step>, c: Config, n: nat)
    requires IsRun(run, steps, c) && n < |run|
    ensures n <= |steps| && FlagsTold(run, steps, n)
    decreases n
  {
    if n > 0 {
      RunTellsFlags(run, steps, c, n - 1);
      RunStep(run, steps, c, n - 1);
      NextFlagsTold(run, steps, c, n - 1);
      hide FlagsTold, Next, Can;
    }
  }

  /**
   * Over every run: a probe counts as under way from its start until the first step that stops probing,
   * though as many are under way as started and did not end; the memory alert stands until the server
   * starts anew; and a probe may start exactly while probing is due and none counts as under way.
   */
  lemma FlagsFollowSteps(run: seq<World>, steps: seq<Step>, c: Config, n: nat)
    requires IsRun(run, steps, c) && n < |run|
    ensures n <= |steps| && run[n].clock == TimeOf(run[0].clock, steps, n)
    ensures run[n].server.probing <==> Raised(steps, n, StartsProbe, StopsProbing)
    ensures run[n].server.ramAlerted <==> Raised(steps, n, TellsRam, StartsServer)
    ensures run[n].inFlight == UnderWay(steps, n)
    ensures forall runs :: Can(run[n], ProbeStart(runs), c) <==>
              c.policy.Some? && runs && ShouldProbe(run, steps, c, n) && !Raised(steps, n, StartsProbe, StopsProbing)
    ensures forall now, end :: Can(run[n], ProbeStop(end, now), c) <==>
              now >= TimeOf(run[0].clock, steps, n) && UnderWay(steps, n) > 0
  {
    ProbesWhenDue(run, steps, c, n);
    RunTellsFlags(run, steps, c, n);
    hide IsRun, Raised, ShouldProbe, UnderWay, TimeOf, Next;
  }
}
