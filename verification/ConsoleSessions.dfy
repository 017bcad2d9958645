/**
 * Sessions and subscriptions of the console stream, told from the steps of a run: when the agent
 * sends live lines, what a request asks for and brings, and what counts as lost.
 */
module ConsoleSessions {
  import opened Options
  import opened Properties
  import opened Console
  import opened ConsoleRelay
  import opened ConsoleStream
  import opened ConsolePublications

  predicate Opens(step: Step) { step.Connect? }

  predicate Closes(step: Step) { step.Disconnect? || step.RestartAgent? || step.RestartPanel? }

  /** Somebody watches: a session was opened for watched channels, or a request was answered. */
  predicate StartsLive(step: Step) { (step.Connect? && step.watched) || step.Respond? }

  predicate EndsLive(step: Step) { (step.Connect? && !step.watched) || step.Unsubscribe? || step.RestartAgent? }

  /** The request under way: where the panel stood when it asked, in this session. */
  ghost function Asked(run: seq<Stream>, steps: seq<Step>, limits: Limits, n: nat): Option<nat>
    requires IsRun(run, steps, limits) && n < |run|
  {
    if n == 0 then None
    else if steps[n - 1].Ask? then Some(run[n - 1].panel.latest)
    else if Opens(steps[n - 1]) || Closes(steps[n - 1]) || steps[n - 1].Respond? then None
    else Asked(run, steps, limits, n - 1)
  }

  /** The step loses a line for the panel: a message of it is dropped, or a catch-up has a gap. */
  predicate Loses(s: Stream, step: Step) {
    match step
    case Print(_, dropped) => dropped && s.connected && s.subscribed && |s.pending| + 1 >= 50
    case Flush(dropped) => dropped && s.connected && s.subscribed && s.pending != []
    case Connect(watched, dropped) =>
      watched && (Misses(s.(wire := [])) || Drops(Chunks(Above(s.buffer, s.panel.latest)), dropped))
    case Respond(dropped) => dropped || Misses(s)
    case _ => false
  }

  ghost predicate HasLost(run: seq<Stream>, steps: seq<Step>, limits: Limits, n: nat)
    requires IsRun(run, steps, limits) && n < |run|
  {
    exists k :: 0 <= k < n && Loses(run[k], steps[k]) && forall j :: k < j < n ==> !steps[j].RestartPanel?
  }

  lemma HasLostStep(run: seq<Stream>, steps: seq<Step>, limits: Limits, n: nat)
    requires IsRun(run, steps, limits) && 0 < n < |run|
    ensures HasLost(run, steps, limits, n)
            <==> Loses(run[n - 1], steps[n - 1]) || (!steps[n - 1].RestartPanel? && HasLost(run, steps, limits, n - 1))
  {
    hide Next, Can, Loses;
    if !Loses(run[n - 1], steps[n - 1]) && HasLost(run, steps, limits, n) {
      var k :| 0 <= k < n && Loses(run[k], steps[k]) && forall j :: k < j < n ==> !steps[j].RestartPanel?;
    }
  }

  lemma SessionAfter(s: Stream, step: Step, limits: Limits)
    requires Can(s, step)
    ensures var t := Next(s, step, limits);
            && (t.connected <==> Opens(step) || (!Closes(step) && s.connected))
            && (t.subscribed <==> StartsLive(step) || (!EndsLive(step) && s.subscribed))
            && t.ask == (if step.Ask? then Some(s.panel.latest)
                         else if Opens(step) || Closes(step) || step.Respond? then None else s.ask)
            && (t.wire == [] || t.connected || (!s.connected && s.wire != []))
  {
    hide Retained, Above, Misses, Drops, Chunks, Without, Handle, LatestNumber;
  }

  lemma MissesOnlyLooksAt(s: Stream, t: Stream)
    requires t.panel == s.panel && t.wire == s.wire && t.buffer == s.buffer && t.counter == s.counter
    ensures Misses(t) == Misses(s)
  {
    hide Arrived;
  }

  lemma LossAfter(s: Stream, step: Step, limits: Limits)
    requires Can(s, step)
    ensures Next(s, step, limits).lost <==> Loses(s, step) || (!step.RestartPanel? && s.lost)
  {
    if step.Connect? {
      MissesOnlyLooksAt(s.(wire := []),
                        s.(wire := [], connected := true, subscribed := step.watched, ask := None));
    }
    hide Retained, Above, Misses, Drops, Chunks, Without, Handle, LatestNumber;
  }

  /** What the steps tell about the session is how it stands. */
  ghost predicate SessionTold(run: seq<Stream>, steps: seq<Step>, limits: Limits, n: nat)
    requires IsRun(run, steps, limits) && n < |run| && n <= |steps|
  {
    && (run[n].connected <==> Raised(steps, n, Opens, Closes))
    && (run[n].subscribed <==> Raised(steps, n, StartsLive, EndsLive))
    && run[n].ask == Asked(run, steps, limits, n) && (run[n].wire != [] ==> run[n].connected)
    && (run[n].lost <==> HasLost(run, steps, limits, n))
  }

  lemma AskedStep(run: seq<Stream>, steps: seq<Step>, limits: Limits, n: nat)
    requires IsRun(run, steps, limits) && 0 < n < |run|
    ensures Asked(run, steps, limits, n)
            == if steps[n - 1].Ask? then Some(run[n - 1].panel.latest)
               else if Opens(steps[n - 1]) || Closes(steps[n - 1]) || steps[n - 1].Respond? then None
               else Asked(run, steps, limits, n - 1)
  {
    hide Next, Can;
  }

  lemma {:induction false} RunTellsSession(run: seq<Stream>, steps: seq<Step>, limits: Limits, n: nat)
    requires IsRun(run, steps, limits) && n < |run|
    ensures n <= |steps| && SessionTold(run, steps, limits, n)
    decreases n
  {
    if n > 0 {
      RunTellsSession(run, steps, limits, n - 1);
      StepOf(run, steps, limits, n - 1);
      SessionAfter(run[n - 1], steps[n - 1], limits);
      LossAfter(run[n - 1], steps[n - 1], limits);
      HasLostStep(run, steps, limits, n);
      AskedStep(run, steps, limits, n);
      RaisedSnoc(steps, n - 1, Opens, Closes);
      RaisedSnoc(steps, n - 1, StartsLive, EndsLive);
      hide IsRun, Next, Can, Loses, Raised, HasLost, Asked, Opens, Closes, StartsLive, EndsLive;
    }
  }

  /**
   * Over every run: when a session is open, when live lines are sent in it, what a request under way
   * asks for, when one can be made and answered, and what has been lost since the panel started.
   */
  lemma SessionsFollowSteps(run: seq<Stream>, steps: seq<Step>, limits: Limits, n: nat)
    requires IsRun(run, steps, limits) && n < |run|
    ensures n <= |steps| && (run[n].connected <==> Raised(steps, n, Opens, Closes))
    ensures run[n].subscribed <==> Raised(steps, n, StartsLive, EndsLive)
    ensures run[n].ask == Asked(run, steps, limits, n) && (run[n].wire != [] ==> run[n].connected)
    ensures run[n].lost <==> HasLost(run, steps, limits, n)
    ensures Can(run[n], Ask) <==> Raised(steps, n, Opens, Closes) && Asked(run, steps, limits, n).None?
    ensures forall dropped :: Can(run[n], Respond(dropped)) <==>
              Raised(steps, n, Opens, Closes) && Asked(run, steps, limits, n).Some?
  {
    RunTellsSession(run, steps, limits, n);
    hide IsRun, Next, Raised, HasLost, Asked;
  }

  lemma AboveIsConsecutive(lines: Lines, n: nat)
    requires Consecutive(lines)
    ensures Consecutive(Above(lines, n))
  {
    AboveIsSuffix(lines, n);
    ConsecutiveTail(lines, SplitPoint(lines, n));
  }

  /** An answer carries every retained line above the number asked for, in order, and the last number. */
  lemma AnswersCarryTheRest(run: seq<Stream>, steps: seq<Step>, limits: Limits, n: nat)
    requires IsRun(run, steps, limits) && n < |steps| && steps[n].Respond? && !steps[n].dropped
    ensures Asked(run, steps, limits, n).Some?
    ensures var s, t, asked := run[n], run[n + 1], Asked(run, steps, limits, n).value;
            && |t.wire| == |s.wire| + 1 && t.wire[..|s.wire|] == s.wire
            && var m := t.wire[|s.wire|];
               && m.Reply? && m.latest == s.counter && Consecutive(m.lines)
               && forall line :: line in m.lines <==> line in s.buffer && line.number > asked
  {
    SessionsFollowSteps(run, steps, limits, n);
    StepOf(run, steps, limits, n);
    RunIsSound(run, steps, limits, n);
    var s := run[n];
    LatestIsCounter(s);
    AboveMembers(s.buffer, s.ask.value);
    hide IsRun, Above, Misses, LatestNumber, Raised, HasLost, Asked;
    AboveIsConsecutive(s.buffer, s.ask.value);
  }
}
