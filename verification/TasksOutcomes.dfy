/**
 * Which outcome a task gets: told from the steps of the run alone, and what is recorded and announced.
 */
module TasksOutcomes {
  import opened Options
  import opened StateStore
  import opened Tasks
  import opened TasksSafety
  import opened TasksSteps
  import opened TasksResults

  // ----- Told from the steps -----

  /** The step cancels the task while its executor runs. */
  predicate Cancels(s: Agent, step: Step, id: Id, task: nat) {
    step.Cancel? && step.id == id && id in s.procs && s.procs[id].Executing? && s.procs[id].run == task
  }

  /** The executor throws a cancellation of its own. */
  predicate ThrowsOwn(s: Agent, step: Step, id: Id, task: nat) {
    step.Throw? && step.own && step.id == id && id in s.procs && s.procs[id].run == task
  }

  ghost predicate WasCancelled(run: seq<Agent>, steps: seq<Step>, n: nat, id: Id, task: nat)
    requires |run| == |steps| + 1 && n < |run|
  {
    exists k :: 0 <= k < n && Cancels(run[k], steps[k], id, task)
  }

  ghost predicate ThrewOwn(run: seq<Agent>, steps: seq<Step>, n: nat, id: Id, task: nat)
    requires |run| == |steps| + 1 && n < |run|
  {
    exists k :: 0 <= k < n && ThrowsOwn(run[k], steps[k], id, task)
  }

  lemma WasCancelledStep(run: seq<Agent>, steps: seq<Step>, n: nat, id: Id, task: nat)
    requires |run| == |steps| + 1 && 0 < n < |run|
    ensures WasCancelled(run, steps, n, id, task)
            <==> WasCancelled(run, steps, n - 1, id, task) || Cancels(run[n - 1], steps[n - 1], id, task)
    ensures ThrewOwn(run, steps, n, id, task)
            <==> ThrewOwn(run, steps, n - 1, id, task) || ThrowsOwn(run[n - 1], steps[n - 1], id, task)
  {
    hide Cancels, ThrowsOwn;
  }

  // ----- The executions in hand -----

  /** What the process knows about a cancellation of the task is what the steps tell. */
  predicate Knows(p: Proc, cancelled: bool, own: bool) {
    match p
    case Putting(_, _, _) => !cancelled && !own
    case Executing(_, aborted) => (aborted <==> cancelled) && !own
    case Cleaning(_, told, _, _) => told <==> cancelled || own
    case Ending(_, _, _, _) => true
  }

  ghost predicate AllKnown(run: seq<Agent>, steps: seq<Step>, n: nat)
    requires |run| == |steps| + 1 && n < |run|
  {
    && (forall id <- run[n].procs :: var p := run[n].procs[id];
          Knows(p, WasCancelled(run, steps, n, id, p.run), ThrewOwn(run, steps, n, id, p.run)))
    && (forall id, task: nat :: task >= |run[n].runs|
          ==> !WasCancelled(run, steps, n, id, task) && !ThrewOwn(run, steps, n, id, task))
  }

  lemma RunnerStep(s: Agent, step: Step)
    requires CanStep(s, step)
    ensures step.Start? && step.id !in Mem(s) ==>
              var t := Apply(s, step);
              && step.id in t.procs && t.procs == s.procs[step.id := t.procs[step.id]]
              && t.procs[step.id].Putting? && t.procs[step.id].run == |s.runs|
    ensures step.Launch? ==>
              Apply(s, step).procs == s.procs[step.id := Executing(s.procs[step.id].run, false)]
    ensures step.Cancel? ==>
              Apply(s, step).procs
              == if step.id in s.procs && s.procs[step.id].Executing?
                 then s.procs[step.id := Executing(s.procs[step.id].run, true)] else s.procs
    ensures step.Throw? ==>
              var p := s.procs[step.id];
              Apply(s, step).procs
              == s.procs[step.id := Cleaning(p.run, p.aborted || step.own, [], Mem(s)[step.id].artifacts)]
  {
    hide Put;
  }

  lemma EndingStep(s: Agent, step: Step)
    requires CanStep(s, step)
    ensures step.CleanOne? ==>
              var p, q := s.procs[step.id], Apply(s, step).procs;
              step.id in q && q == s.procs[step.id := q[step.id]]
              && q[step.id].Cleaning? && q[step.id].run == p.run && q[step.id].cancelled == p.cancelled
    ensures step.Succeed? || step.FailPut? ==>
              var p, q := s.procs[step.id], Apply(s, step).procs;
              step.id in q && q == s.procs[step.id := q[step.id]] && q[step.id].Ending? && q[step.id].run == p.run
              && q[step.id].status
                 == if step.Succeed? then Done else if p.cancelled then Cancelled else Failed
    ensures step.Finish? ==> Apply(s, step).procs == s.procs - {step.id}
  {
    hide Put, Ended;
  }

  /** The steps that start no execution and change none. */
  predicate LeavesProcs(s: Agent, step: Step) {
    && !(step.Start? && step.id !in Mem(s)) && !step.Launch? && !step.Cancel? && !step.Throw? && !step.CleanOne?
    && !step.Succeed? && !step.FailPut? && !step.Finish? && !step.Reboot?
  }

  lemma QuietStep(s: Agent, step: Step)
    requires CanStep(s, step)
    ensures LeavesProcs(s, step) ==> Apply(s, step).procs == s.procs
    ensures step.Reboot? ==> Apply(s, step).procs == map[]
  {
    hide Put, Patch, FlushJournal, PurgeJournal, NextBoot, Reloaded, WithFile, WithoutFile;
  }

  /** How a step may change the execution of one task. */
  predicate Evolves(s: Agent, step: Step, id: Id, q: Proc) {
    if step.Start? && step.id == id && id !in Mem(s) then q.Putting? && q.run == |s.runs|
    else
      && id in s.procs
      && q.run == s.procs[id].run
      && (s.procs[id].Putting? ==> q == s.procs[id] || q == Executing(q.run, false))
      && (s.procs[id].Executing? ==>
            || q == s.procs[id] || q.Ending?
            || (q.Executing? && q.aborted && Cancels(s, step, id, q.run))
            || (q.Cleaning? && step.Throw? && step.id == id
                && q.cancelled == (s.procs[id].aborted || step.own)))
      && (s.procs[id].Cleaning? ==> q.Ending? || (q.Cleaning? && q.cancelled == s.procs[id].cancelled))
      && (s.procs[id].Ending? ==> q == s.procs[id])
      && (Cancels(s, step, id, q.run) ==> q.Executing? && q.aborted)
      && (ThrowsOwn(s, step, id, q.run) ==> q.Cleaning? && s.procs[id].Executing?)
  }

  lemma EndingEvolves(s: Agent, step: Step, id: Id)
    requires CanStep(s, step) && id in Apply(s, step).procs
    requires step.CleanOne? || step.Succeed? || step.FailPut? || step.Finish?
    requires step.id == id
    ensures Evolves(s, step, id, Apply(s, step).procs[id])
  {
    assert Guards(s, step);
    EndingStep(s, step);
    hide Apply, CanStep;
  }

  lemma RunnerEvolves(s: Agent, step: Step, id: Id)
    requires CanStep(s, step) && id in Apply(s, step).procs
    requires (step.Start? && step.id !in Mem(s)) || step.Launch? || step.Cancel? || step.Throw?
    requires step.id == id
    ensures Evolves(s, step, id, Apply(s, step).procs[id])
  {
    assert Guards(s, step);
    RunnerStep(s, step);
    hide Apply, CanStep;
  }

  lemma ProcAfter(s: Agent, step: Step, id: Id)
    requires CanStep(s, step) && id in Apply(s, step).procs
    ensures Evolves(s, step, id, Apply(s, step).procs[id])
  {
    hide Apply, CanStep;
    if LeavesProcs(s, step) || step.Reboot? || step.id != id {
      UntouchedProc(s, step, id);
    } else {
      hide Evolves;
      if step.CleanOne? || step.Succeed? || step.FailPut? || step.Finish? {
        EndingEvolves(s, step, id);
      } else {
        RunnerEvolves(s, step, id);
      }
    }
  }

  /** A step about another task, or about none, leaves the execution alone. */
  lemma UntouchedProc(s: Agent, step: Step, id: Id)
    requires CanStep(s, step) && id in Apply(s, step).procs
    requires !LeavesProcs(s, step) && !step.Reboot? ==> step.id != id
    ensures id in s.procs && Apply(s, step).procs[id] == s.procs[id]
  {
    hide Apply, CanStep;
    if LeavesProcs(s, step) || step.Reboot? {
      QuietStep(s, step);
    } else if step.CleanOne? || step.Succeed? || step.FailPut? || step.Finish? {
      EndingStep(s, step);
    } else {
      RunnerStep(s, step);
    }
  }

  /** Which stage a step finds the execution in. */
  predicate Guards(s: Agent, step: Step) {
    && (step.Launch? ==> step.id in s.procs && s.procs[step.id].Putting?)
    && (step.CleanOne? || step.FailPut? ==> step.id in s.procs && s.procs[step.id].Cleaning?)
    && (step.Throw? || step.Succeed? ==> step.id in s.procs && s.procs[step.id].Executing?)
  }

  lemma KnowsAfter(s: Agent, step: Step, id: Id, cancelled: bool, own: bool)
    requires Inv(s) && CanStep(s, step) && id in Apply(s, step).procs
    requires !(step.Start? && step.id == id && id !in Mem(s))
    requires id in s.procs && Knows(s.procs[id], cancelled, own)
    ensures var q := Apply(s, step).procs[id];
            && q.run == s.procs[id].run
            && Knows(q, cancelled || Cancels(s, step, id, q.run), own || ThrowsOwn(s, step, id, q.run))
  {
    ProcAfter(s, step, id);
    hide Inv, Apply, CanStep;
  }

  /** Nothing happened yet to a run number that was not given out. */
  lemma FreshIsQuiet(s: Agent, step: Step, id: Id, task: nat)
    requires Inv(s) && CanStep(s, step) && task >= |s.runs|
    ensures !Cancels(s, step, id, task) && !ThrowsOwn(s, step, id, task)
  {
    if id in s.procs { ProcFacts(s, id); }
    hide Inv, CanStep;
  }

  lemma RunsOnlyGrow(s: Agent, step: Step)
    requires CanStep(s, step)
    ensures |s.runs| <= |Apply(s, step).runs|
    ensures step.Start? && step.id !in Mem(s) ==> |Apply(s, step).runs| == |s.runs| + 1
  {
  }

  /** A proc of the state after a step is new, or it was there before. */
  lemma StepKnows(run: seq<Agent>, steps: seq<Step>, n: nat, id: Id)
    requires IsTrace(run, steps) && 0 < n < |run| && Inv(run[n - 1]) && AllKnown(run, steps, n - 1)
    requires id in run[n].procs
    ensures var p := run[n].procs[id];
            Knows(p, WasCancelled(run, steps, n, id, p.run), ThrewOwn(run, steps, n, id, p.run))
  {
    var s, step := run[n - 1], steps[n - 1];
    TraceStep(run, steps, n - 1);
    ProcAfter(s, step, id);
    var p := run[n].procs[id];
    WasCancelledStep(run, steps, n, id, p.run);
    hide IsTrace, Inv, Apply, CanStep, WasCancelled, ThrewOwn;
    if step.Start? && step.id == id && id !in Mem(s) {
      hide Knows;
      assert !WasCancelled(run, steps, n - 1, id, p.run) && !ThrewOwn(run, steps, n - 1, id, p.run);
      NewlyStarted(s, step, p, id);
    } else {
      hide Knows, Cancels, ThrowsOwn;
      KnowsAfter(s, step, id, WasCancelled(run, steps, n - 1, id, p.run), ThrewOwn(run, steps, n - 1, id, p.run));
    }
  }

  lemma NewlyStarted(s: Agent, step: Step, p: Proc, id: Id)
    requires step.Start? && p.Putting?
    ensures Knows(p, Cancels(s, step, id, p.run), ThrowsOwn(s, step, id, p.run))
  {
  }

  lemma {:induction false} RunKnows(run: seq<Agent>, steps: seq<Step>, files: set<File>, n: nat)
    requires IsTrace(run, steps) && run[0] == Initial(files) && n < |run|
    ensures AllKnown(run, steps, n)
    decreases n
  {
    if n > 0 {
      RunKnows(run, steps, files, n - 1);
      RunKeepsInv(run, steps, files, n - 1);
      forall id <- run[n].procs
        ensures var p := run[n].procs[id];
                Knows(p, WasCancelled(run, steps, n, id, p.run), ThrewOwn(run, steps, n, id, p.run))
      {
        StepKnows(run, steps, n, id);
      }
      forall id, task: nat | task >= |run[n].runs|
        ensures !WasCancelled(run, steps, n, id, task) && !ThrewOwn(run, steps, n, id, task)
      {
        StillQuiet(run, steps, n, id, task);
      }
    }
  }

  lemma StillQuiet(run: seq<Agent>, steps: seq<Step>, n: nat, id: Id, task: nat)
    requires IsTrace(run, steps) && 0 < n < |run| && Inv(run[n - 1]) && AllKnown(run, steps, n - 1)
    requires task >= |run[n].runs|
    ensures !WasCancelled(run, steps, n, id, task) && !ThrewOwn(run, steps, n, id, task)
  {
    TraceStep(run, steps, n - 1);
    RunsOnlyGrow(run[n - 1], steps[n - 1]);
    FreshIsQuiet(run[n - 1], steps[n - 1], id, task);
    WasCancelledStep(run, steps, n, id, task);
    hide Inv, Apply, CanStep, WasCancelled, ThrewOwn, Cancels, ThrowsOwn, Knows;
  }

  // ----- What is recorded -----

  /** The outcome of the task `id`, as far as the steps before `i` and the step that ends it tell. */
  ghost function Told(run: seq<Agent>, steps: seq<Step>, i: nat, id: Id, task: nat): Status
    requires |run| == |steps| + 1 && i < |steps|
  {
    if steps[i].Succeed? then Done
    else if steps[i].FailPut? && (WasCancelled(run, steps, i, id, task) || ThrewOwn(run, steps, i, id, task))
    then Cancelled
    else Failed
  }

  /** What the step that ends a task writes. */
  lemma EndingWrites(s: Agent, step: Step, id: Id)
    requires Inv(s) && CanStep(s, step) && Ends(s, step, id)
    ensures id in Mem(s) && id in Mem(Apply(s, step))
    ensures var r := Mem(Apply(s, step))[id];
            && r.run == Mem(s)[id].run && r.artifacts == []
            && r.finishedAt == Some(step.now) && r.updatedAt == step.now
            && r.acked == Mem(s)[id].acked
            && r.status == if step.Succeed? then Done
                           else if step.FailPut? && s.procs[id].cancelled then Cancelled else Failed
    ensures step.FailPut? ==> id in s.procs && s.procs[id].Cleaning? && s.procs[id].run == Mem(s)[id].run
    ensures step.Succeed? ==> id in s.procs && s.procs[id].Executing? && s.procs[id].run == Mem(s)[id].run
    ensures step.BootPut? ==> s.boot.run == Mem(s)[id].run
  {
    if step.BootPut? { BootFacts(s); } else { ProcFacts(s, id); }
    hide Inv;
    EndsByPut(s, step, id, StatusOf(s, step));
    PutIs(s.journal, id, Ended(Mem(s)[id], StatusOf(s, step), step.now));
    hide Apply, CanStep, Put;
  }

  function StatusOf(s: Agent, step: Step): Status {
    if step.Succeed? then Done
    else if step.FailPut? && step.id in s.procs && s.procs[step.id].Cleaning? && s.procs[step.id].cancelled
    then Cancelled else Failed
  }

  lemma PutIs(j: Store<Records>, id: Id, r: Record)
    ensures Put(j, id, r).0.mem.value == j.mem.value[id := r]
  {
  }

  /**
   * In every run: a success is recorded as done; a failure as cancelled if and only if the task was
   * cancelled while its executor ran or the executor threw a cancellation of its own, and otherwise as
   * failed; what recovery ends as failed.
   */
  lemma OutcomeIsToldBySteps(run: seq<Agent>, steps: seq<Step>, files: set<File>, i: nat, id: Id)
    requires IsTrace(run, steps) && run[0] == Initial(files) && i < |steps| && Ends(run[i], steps[i], id)
    ensures id in Mem(run[i]) && id in Mem(run[i + 1])
    ensures var task, r := Mem(run[i])[id].run, Mem(run[i + 1])[id];
            && r.run == task && r.artifacts == []
            && r.finishedAt == Some(steps[i].now) && r.updatedAt == steps[i].now
            && (steps[i].Succeed? ==> r.status == Done)
            && (steps[i].FailPut? ==>
                  r.status == if WasCancelled(run, steps, i, id, task) || ThrewOwn(run, steps, i, id, task)
                              then Cancelled else Failed)
            && (steps[i].BootPut? ==> r.status == Failed)
  {
    RunKeepsInv(run, steps, files, i);
    RunKnows(run, steps, files, i);
    TraceStep(run, steps, i);
    EndingWrites(run[i], steps[i], id);
    hide IsTrace, Inv, Apply, CanStep, WasCancelled, ThrewOwn, Initial;
  }

  // ----- What is announced -----

  /** Some step before `n` ended the run `task` of `id` with this status, as the steps tell. */
  ghost predicate EndedAs(run: seq<Agent>, steps: seq<Step>, n: nat, id: Id, task: nat, status: Status)
    requires |run| == |steps| + 1 && n < |run|
  {
    exists i :: 0 <= i < n && EndsRun(run[i], steps[i], id, task) && status == Told(run, steps, i, id, task)
  }

  predicate EndsRun(s: Agent, step: Step, id: Id, task: nat) {
    Ends(s, step, id) && id in Mem(s) && Mem(s)[id].run == task
  }

  ghost predicate OutcomesTold(run: seq<Agent>, steps: seq<Step>, n: nat)
    requires |run| == |steps| + 1 && n < |run|
  {
    var s := run[n];
    && (forall id <- s.procs :: s.procs[id].Ending? ==>
          EndedAs(run, steps, n, id, s.procs[id].run, s.procs[id].status))
    && (s.boot.BootEnding? ==> EndedAs(run, steps, n, s.boot.id, s.boot.run, Failed))
    && (forall k :: 0 <= k < |s.log| && s.log[k].Emitted? ==>
          s.log[k].run < |s.runs| && EndedAs(run, steps, n, s.runs[s.log[k].run], s.log[k].run, s.log[k].status))
  }

  lemma EndedAsGrows(run: seq<Agent>, steps: seq<Step>, n: nat, id: Id, task: nat, status: Status)
    requires |run| == |steps| + 1 && 0 < n < |run| && EndedAs(run, steps, n - 1, id, task, status)
    ensures EndedAs(run, steps, n, id, task, status)
  {
    hide EndsRun, Told;
  }

  lemma EndedNow(run: seq<Agent>, steps: seq<Step>, n: nat, id: Id, task: nat)
    requires |run| == |steps| + 1 && 0 < n < |run| && EndsRun(run[n - 1], steps[n - 1], id, task)
    ensures EndedAs(run, steps, n, id, task, Told(run, steps, n - 1, id, task))
  {
    hide EndsRun, Told;
  }

  /** Where an execution that waits for its last write comes from. */
  lemma EndingAfter(s: Agent, step: Step, id: Id)
    requires Inv(s) && CanStep(s, step) && id in Apply(s, step).procs && Apply(s, step).procs[id].Ending?
    ensures var q := Apply(s, step).procs[id];
            || (id in s.procs && s.procs[id] == q)
            || ((step.Succeed? || step.FailPut?) && EndsRun(s, step, id, q.run)
                && id in s.procs && s.procs[id].run == q.run
                && (step.FailPut? ==> s.procs[id].Cleaning?)
                && q.status == if step.Succeed? then Done else if s.procs[id].cancelled then Cancelled else Failed)
  {
    if id in s.procs { ProcFacts(s, id); }
    hide Inv, Apply, CanStep, EndsRun;
    if LeavesProcs(s, step) || step.Reboot? || step.id != id {
      UntouchedProc(s, step, id);
    } else if step.CleanOne? || step.Succeed? || step.FailPut? || step.Finish? {
      hide LeavesProcs;
      EndedHere(s, step, id);
    } else {
      RunnerDoesNotEnd(s, step, id);
    }
  }

  lemma RunnerDoesNotEnd(s: Agent, step: Step, id: Id)
    requires CanStep(s, step) && id in Apply(s, step).procs
    requires (step.Start? && id !in Mem(s)) || step.Launch? || step.Cancel? || step.Throw?
    requires step.id == id
    ensures Apply(s, step).procs[id].Ending? ==> id in s.procs && s.procs[id] == Apply(s, step).procs[id]
  {
    RunnerStep(s, step);
    hide Apply, CanStep;
  }

  lemma EndedHere(s: Agent, step: Step, id: Id)
    requires CanStep(s, step) && (step.CleanOne? || step.Succeed? || step.FailPut? || step.Finish?) && step.id == id
    requires id in Mem(s) && id in s.procs ==> Mem(s)[id].run == s.procs[id].run
    requires id in Apply(s, step).procs && Apply(s, step).procs[id].Ending?
    ensures var q := Apply(s, step).procs[id];
            && (step.Succeed? || step.FailPut?) && EndsRun(s, step, id, q.run)
            && id in s.procs && s.procs[id].run == q.run
            && (step.FailPut? ==> s.procs[id].Cleaning?)
            && q.status == if step.Succeed? then Done else if s.procs[id].cancelled then Cancelled else Failed
  {
    EndingStep(s, step);
    assert Guards(s, step);
    hide Apply;
  }

  lemma BootStep(s: Agent, step: Step)
    requires CanStep(s, step)
    ensures step.BootPut? ==>
              s.boot.BootCleaning? && Apply(s, step).boot.BootEnding? && s.boot.id in Mem(s)
              && Apply(s, step).boot.id == s.boot.id && Apply(s, step).boot.run == s.boot.run
    ensures step.Reboot? || step.BootClean? || step.BootFinish? ==> !Apply(s, step).boot.BootEnding?
  {
    hide Put, Ended, Reloaded;
  }

  lemma BootQuiet(s: Agent, step: Step)
    requires CanStep(s, step) && !step.BootPut? && !step.Reboot? && !step.BootClean? && !step.BootFinish?
    ensures Apply(s, step).boot == s.boot
  {
    hide Put, Patch, FlushJournal, PurgeJournal, WithFile, WithoutFile;
  }

  lemma BootEndingAfter(s: Agent, step: Step)
    requires Inv(s) && CanStep(s, step) && Apply(s, step).boot.BootEnding?
    ensures var b := Apply(s, step).boot;
            s.boot == b || (step.BootPut? && EndsRun(s, step, b.id, b.run))
  {
    BootStep(s, step);
    if step.BootPut? {
      BootFacts(s);
    } else if !step.Reboot? && !step.BootClean? && !step.BootFinish? {
      BootQuiet(s, step);
    }
    hide Inv, Apply, CanStep;
  }

  /** What a step announces: the status of an execution, or of the recovery, that waits for its last write. */
  lemma EmittedAfter(s: Agent, step: Step)
    requires Inv(s) && CanStep(s, step)
    ensures var t := Apply(s, step);
            && s.log <= t.log && s.runs <= t.runs && |t.log| <= |s.log| + 1
            && (|t.log| > |s.log| && t.log[|s.log|].Emitted? ==>
                  var e := t.log[|s.log|];
                  && e.run < |s.runs|
                  && var id := s.runs[e.run];
                     || (step.Finish? && id in s.procs && s.procs[id].Ending?
                         && s.procs[id].run == e.run && s.procs[id].status == e.status)
                     || (step.BootFinish? && s.boot.BootEnding? && s.boot.id == id && s.boot.run == e.run
                         && e.status == Failed))
  {
    if step.Finish? { ProcFacts(s, step.id); }
    if step.BootFinish? { BootEndingFacts(s); }
    hide Inv, Put, Patch, PurgeJournal, FlushJournal, NextBoot, Reloaded, WithFile, WithoutFile;
  }

  lemma BootEndingFacts(s: Agent)
    requires Inv(s) && s.boot.BootEnding?
    ensures s.boot.run < |s.runs| && s.runs[s.boot.run] == s.boot.id
  {
    hide LogOk, ProcsOk, NoOrphans, JournalRuns, PendingOk, NotEmitted, OnlySince, Owed;
  }

  lemma EndingIsTold(run: seq<Agent>, steps: seq<Step>, files: set<File>, n: nat, id: Id)
    requires IsTrace(run, steps) && run[0] == Initial(files) && 0 < n < |run| && OutcomesTold(run, steps, n - 1)
    requires id in run[n].procs && run[n].procs[id].Ending?
    ensures EndedAs(run, steps, n, id, run[n].procs[id].run, run[n].procs[id].status)
  {
    hide *;
    TraceLength(run, steps);
    var s, step, q := run[n - 1], steps[n - 1], run[n].procs[id];
    RunKeepsInv(run, steps, files, n - 1);
    RunKnows(run, steps, files, n - 1);
    TraceStep(run, steps, n - 1);
    EndingAfter(s, step, id);
    if id in s.procs && s.procs[id] == q {
      EndingWasTold(run, steps, n - 1, id);
      EndedAsGrows(run, steps, n, id, q.run, q.status);
    } else {
      EndedNow(run, steps, n, id, q.run);
      ToldOfProc(run, steps, n - 1, id);
    }
  }

  lemma EndingWasTold(run: seq<Agent>, steps: seq<Step>, n: nat, id: Id)
    requires |run| == |steps| + 1 && n < |run| && OutcomesTold(run, steps, n)
    requires id in run[n].procs && run[n].procs[id].Ending?
    ensures EndedAs(run, steps, n, id, run[n].procs[id].run, run[n].procs[id].status)
  {
    hide EndedAs;
  }

  lemma ToldOfProc(run: seq<Agent>, steps: seq<Step>, n: nat, id: Id)
    requires |run| == |steps| + 1 && n < |steps| && AllKnown(run, steps, n) && id in run[n].procs
    ensures steps[n].Succeed? ==> Told(run, steps, n, id, run[n].procs[id].run) == Done
    ensures steps[n].FailPut? && run[n].procs[id].Cleaning? ==>
              Told(run, steps, n, id, run[n].procs[id].run)
              == if run[n].procs[id].cancelled then Cancelled else Failed
  {
    hide WasCancelled, ThrewOwn;
  }

  lemma RecoveryIsTold(run: seq<Agent>, steps: seq<Step>, files: set<File>, n: nat)
    requires IsTrace(run, steps) && run[0] == Initial(files) && 0 < n < |run| && OutcomesTold(run, steps, n - 1)
    requires run[n].boot.BootEnding?
    ensures EndedAs(run, steps, n, run[n].boot.id, run[n].boot.run, Failed)
  {
    var s, step, b := run[n - 1], steps[n - 1], run[n].boot;
    RunKeepsInv(run, steps, files, n - 1);
    TraceStep(run, steps, n - 1);
    BootEndingAfter(s, step);
    hide IsTrace, Inv, Apply, CanStep, WasCancelled, ThrewOwn, Initial, EndedAs;
    if s.boot == b { EndedAsGrows(run, steps, n, b.id, b.run, Failed); } else { EndedNow(run, steps, n, b.id, b.run); }
  }

  lemma EventIsTold(run: seq<Agent>, steps: seq<Step>, files: set<File>, n: nat, k: nat)
    requires IsTrace(run, steps) && run[0] == Initial(files) && 0 < n < |run| && OutcomesTold(run, steps, n - 1)
    requires k < |run[n].log| && run[n].log[k].Emitted?
    ensures run[n].log[k].run < |run[n].runs|
    ensures EndedAs(run, steps, n, run[n].runs[run[n].log[k].run], run[n].log[k].run, run[n].log[k].status)
  {
    hide *;
    TraceLength(run, steps);
    var s, t, e := run[n - 1], run[n], run[n].log[k];
    RunKeepsInv(run, steps, files, n - 1);
    TraceStep(run, steps, n - 1);
    EmittedAfter(s, steps[n - 1]);
    if k < |s.log| {
      assert s.log[k] == e;
      EventWasTold(run, steps, n - 1, k);
    } else if steps[n - 1].Finish? {
      EndingWasTold(run, steps, n - 1, s.runs[e.run]);
    } else {
      RecoveryWasTold(run, steps, n - 1);
    }
    assert t.runs[e.run] == s.runs[e.run];
    EndedAsGrows(run, steps, n, s.runs[e.run], e.run, e.status);
  }

  lemma EventWasTold(run: seq<Agent>, steps: seq<Step>, n: nat, k: nat)
    requires |run| == |steps| + 1 && n < |run| && OutcomesTold(run, steps, n)
    requires k < |run[n].log| && run[n].log[k].Emitted?
    ensures run[n].log[k].run < |run[n].runs|
    ensures EndedAs(run, steps, n, run[n].runs[run[n].log[k].run], run[n].log[k].run, run[n].log[k].status)
  {
    hide EndedAs;
  }

  lemma RecoveryWasTold(run: seq<Agent>, steps: seq<Step>, n: nat)
    requires |run| == |steps| + 1 && n < |run| && OutcomesTold(run, steps, n) && run[n].boot.BootEnding?
    ensures EndedAs(run, steps, n, run[n].boot.id, run[n].boot.run, Failed)
  {
    hide EndedAs;
  }

  lemma {:induction false} RunTells(run: seq<Agent>, steps: seq<Step>, files: set<File>, n: nat)
    requires IsTrace(run, steps) && run[0] == Initial(files) && n < |run|
    ensures OutcomesTold(run, steps, n)
    decreases n
  {
    if n > 0 {
      RunTells(run, steps, files, n - 1);
      hide Inv, Apply, CanStep, Initial, EndedAs;
      forall id <- run[n].procs | run[n].procs[id].Ending?
        ensures EndedAs(run, steps, n, id, run[n].procs[id].run, run[n].procs[id].status)
      {
        EndingIsTold(run, steps, files, n, id);
      }
      if run[n].boot.BootEnding? { RecoveryIsTold(run, steps, files, n); }
      forall k | 0 <= k < |run[n].log| && run[n].log[k].Emitted?
        ensures run[n].log[k].run < |run[n].runs|
        ensures EndedAs(run, steps, n, run[n].runs[run[n].log[k].run], run[n].log[k].run, run[n].log[k].status)
      {
        EventIsTold(run, steps, files, n, k);
      }
    }
  }

  /** The end of a task whose record is still there is announced, at once and with the recorded status. */
  lemma EndIsAnnounced(run: seq<Agent>, steps: seq<Step>, files: set<File>, n: nat)
    requires IsTrace(run, steps) && run[0] == Initial(files) && n < |steps|
    ensures steps[n].Finish? ==>
              var s, id := run[n], steps[n].id;
              && id in s.procs && run[n + 1].procs == s.procs - {id}
              && run[n + 1].log
                 == s.log + if id in Mem(s) then [Emitted(s.procs[id].run, s.procs[id].status)] else []
    ensures steps[n].BootFinish? ==>
              run[n].boot.BootEnding? && run[n + 1].log == run[n].log + [Emitted(run[n].boot.run, Failed)]
  {
    RunKeepsInv(run, steps, files, n);
    TraceStep(run, steps, n);
    if steps[n].Finish? { ProcFacts(run[n], steps[n].id); }
    hide IsTrace, Inv, NextBoot;
  }

  /**
   * In every run, each outcome that is announced is that of a step which ended this run of the task:
   * done after a success, cancelled after a failure that a cancellation preceded, and failed otherwise.
   */
  lemma AnnouncedAsTold(run: seq<Agent>, steps: seq<Step>, files: set<File>, n: nat, k: nat) returns (i: nat, id: Id)
    requires IsTrace(run, steps) && run[0] == Initial(files) && n < |run|
    requires k < |run[n].log| && run[n].log[k].Emitted?
    ensures i < n && Ends(run[i], steps[i], id) && id in Mem(run[i]) && Mem(run[i])[id].run == run[n].log[k].run
    ensures var task, status := run[n].log[k].run, run[n].log[k].status;
            && (steps[i].Succeed? ==> status == Done)
            && (steps[i].FailPut? ==>
                  status == if WasCancelled(run, steps, i, id, task) || ThrewOwn(run, steps, i, id, task)
                            then Cancelled else Failed)
            && (steps[i].BootPut? ==> status == Failed)
  {
    RunTells(run, steps, files, n);
    var e := run[n].log[k];
    id := run[n].runs[e.run];
    hide IsTrace, Inv, Initial, WasCancelled, ThrewOwn, Ends;
    i :| 0 <= i < n && EndsRun(run[i], steps[i], id, e.run) && e.status == Told(run, steps, i, id, e.run);
  }
}
