/**
 * The main results about tasks: started at most once while journaled, one final outcome, nothing
 * left running after recovery, exact cleanup, and how long a result stays listed.
 */
module TasksResults {
  import opened Options
  import opened StateStore
  import opened Tasks
  import opened TasksSafety
  import opened TasksSteps

  // ----- Launches and outcomes -----

  lemma {:induction false} LaunchIsRemembered(log: seq<Event>, i: nat, id: Id)
    requires i < |log| && log[i].Launched? && log[i].id == id
    requires forall m :: i < m < |log| ==> !(log[m].Purged? && id in log[m].ids)
    ensures LaunchedSince(log, id)
  {
    var last := |log| - 1;
    if i < last { LaunchIsRemembered(log[..last], i, id); }
  }

  /** Between two calls of an executor for the same id, the journal forgot that id. */
  lemma LaunchedOncePerRecord(run: seq<Agent>, steps: seq<Step>, files: set<File>, n: nat, i: nat, k: nat)
    requires IsTrace(run, steps) && run[0] == Initial(files) && n < |run|
    requires i < k < |run[n].log| && run[n].log[i].Launched? && run[n].log[k].Launched?
    requires run[n].log[i].id == run[n].log[k].id
    ensures exists m :: i < m < k && run[n].log[m].Purged? && run[n].log[i].id in run[n].log[m].ids
  {
    RunKeepsInv(run, steps, files, n);
    LaunchesAreApart(run[n].log, i, k) by { hide ProcsOk, BootOk, NoOrphans, JournalRuns; }
  }

  lemma LaunchesAreApart(log: seq<Event>, i: nat, k: nat)
    requires LaunchOnce(log) && i < k < |log| && log[i].Launched? && log[k].Launched? && log[i].id == log[k].id
    ensures exists m :: i < m < k && log[m].Purged? && log[i].id in log[m].ids
  {
    var id := log[i].id;
    if forall m :: i < m < k ==> !(log[m].Purged? && id in log[m].ids) {
      forall m | i < m < |log[..k]| ensures !(log[..k][m].Purged? && id in log[..k][m].ids) {
        assert log[..k][m] == log[m];
      }
      LaunchIsRemembered(log[..k], i, id);
      assert false;
    }
  }

  /** Of one run, at most one outcome is ever announced. */
  lemma OneOutcomePerRun(run: seq<Agent>, steps: seq<Step>, files: set<File>, n: nat, i: nat, k: nat)
    requires IsTrace(run, steps) && run[0] == Initial(files) && n < |run|
    requires i < k < |run[n].log| && run[n].log[i].Emitted? && run[n].log[k].Emitted?
    ensures run[n].log[i].run != run[n].log[k].run
  {
    RunKeepsInv(run, steps, files, n);
    hide ProcsOk, BootOk, NoOrphans, JournalRuns, LaunchOnce, EmittedOk, LaunchedOk;
    var log := run[n].log;
    assert NotEmitted(log[..k], log[k].run);
    assert log[..k][i] == log[i];
  }

  lemma {:induction false} LogGrows(run: seq<Agent>, steps: seq<Step>, n: nat, m: nat)
    requires IsTrace(run, steps) && n <= m < |run|
    ensures run[n].log <= run[m].log
    decreases m
  {
    hide IsTrace, CanStep, Apply;
    if n < m {
      LogGrows(run, steps, n, m - 1);
      TraceStep(run, steps, m - 1);
      StepGrowsLog(run[m - 1], steps[m - 1]);
    }
  }

  lemma StepGrowsLog(s: Agent, step: Step)
    requires CanStep(s, step)
    ensures s.log <= Apply(s, step).log
  {
  }

  /**
   * An announced outcome is final: in memory and in the file, at any later point and after any
   * number of crashes, that run has that status or is forgotten.
   */
  lemma OutcomeIsFinal(run: seq<Agent>, steps: seq<Step>, files: set<File>, n: nat, m: nat, k: nat, id: Id)
    requires IsTrace(run, steps) && run[0] == Initial(files) && n <= m < |run|
    requires k < |run[n].log| && run[n].log[k].Emitted?
    ensures var e, s := run[n].log[k], run[m];
            && e.status != Running
            && (id in Mem(s) && Mem(s)[id].run == e.run ==> Mem(s)[id].status == e.status)
            && (id in s.journal.file.value && s.journal.file.value[id].run == e.run ==>
                  s.journal.file.value[id].status == e.status)
  {
    RunKeepsInv(run, steps, files, m);
    LogGrows(run, steps, n, m);
    FinalInState(run[m], k, id);
  }

  lemma FinalInState(s: Agent, k: nat, id: Id)
    requires Inv(s) && k < |s.log| && s.log[k].Emitted?
    ensures var e := s.log[k];
            && e.status != Running
            && (id in Mem(s) && Mem(s)[id].run == e.run ==> Mem(s)[id].status == e.status)
            && (id in s.journal.file.value && s.journal.file.value[id].run == e.run ==>
                  s.journal.file.value[id].status == e.status)
  {
    hide ProcsOk, BootOk, NoOrphans, LaunchOnce, EmitOnce, LaunchedOk;
    OnlyInMem(s.journal, s.runs[s.log[k].run], s.log[k].run, s.log[k].status, 0);
    OnlyInFile(s.journal, s.runs[s.log[k].run], s.log[k].run, s.log[k].status);
    hide OnlySince;
  }

  /** Once recovery is over, everything the journal shows running is running in this process. */
  lemma NothingLeftRunning(run: seq<Agent>, steps: seq<Step>, files: set<File>, n: nat, id: Id)
    requires IsTrace(run, steps) && run[0] == Initial(files) && n < |run|
    requires run[n].boot.Booted? && id in Mem(run[n]) && !Finished(Mem(run[n])[id])
    ensures id in run[n].procs && !run[n].procs[id].Ending? && run[n].procs[id].run == Mem(run[n])[id].run
  {
    RunKeepsInv(run, steps, files, n);
    assert id in run[n].procs by { hide ProcsOk, BootOk, LogOk, JournalRuns; }
    ProcFacts(run[n], id);
  }

  // ----- What a step does to the records -----

  /** The record a step rewrites; acknowledgements and restarts are treated on their own. */
  function Touches(s: Agent, step: Step): Option<Id> {
    match step
    case Start(id, _) => if id in Mem(s) then None else Some(id)
    case Declare(id, _, _) => Some(id)
    case Keep(id, _, _) => Some(id)
    case Progress(id, _) => Some(id)
    case Succeed(id, _) => Some(id)
    case FailPut(id, _) => Some(id)
    case BootPut(_) => if s.boot.BootCleaning? then Some(s.boot.id) else None
    case _ => None
  }

  predicate SameRecord(a: Records, b: Records, id: Id) {
    (id in a <==> id in b) && (id in a ==> a[id] == b[id])
  }

  lemma WriterTouchesNothing(j: Store<Records>)
    ensures FlushJournal(j).mem == j.mem
    ensures j.CanStart() ==> j.StartWrite().mem == j.mem
    ensures j.CanFinish() ==> j.FinishWrite().mem == j.mem
  {
  }

  lemma StepTouchesOne(s: Agent, step: Step, id: Id)
    requires CanStep(s, step) && !step.Reboot? && !step.AckResult?
    requires Touches(s, step) != Some(id)
    ensures SameRecord(Mem(s), Mem(Apply(s, step)), id)
  {
    WriterTouchesNothing(s.journal);
    hide FlushJournal, WithoutFile, WithFile, NextBoot, Reloaded, PurgeJournal, Acknowledge, RebootAgent, Ended;
  }

  lemma AckTouchesOne(s: Agent, acked: Id, now: int, id: Id)
    requires s.journal.Valid()
    ensures var t := Acknowledge(s, acked, now);
            && (id in Mem(t) ==>
                  && id in Mem(s) && Mem(t)[id].run == Mem(s)[id].run && Mem(t)[id].status == Mem(s)[id].status
                  && Mem(t)[id].artifacts == Mem(s)[id].artifacts)
            && (id != acked && id in Mem(s) && !Forgettable(Mem(s)[id], now) ==>
                  id in Mem(t) && Mem(t)[id] == Mem(s)[id])
  {
    if acked in Mem(s) && !IsActive(s, acked) {
      AckMoves(s.journal, acked, Mem(s)[acked].(acked := true, updatedAt := now), now);
      hide FlushJournal, PurgeJournal;
    }
  }

  /** A task being executed or cleaned up is what a step about its outcome needs. */
  lemma TouchedIsRunning(s: Agent, step: Step, id: Id)
    requires Inv(s) && CanStep(s, step) && Touches(s, step) == Some(id)
    ensures id in Mem(s) ==> Mem(s)[id].status == Running
    ensures id in PendingIds(s.boot) ==> step.BootPut? && id == s.boot.id
  {
    if id in PendingIds(s.boot) { PendingListed(s, id); }
    if step.BootPut? { BootFacts(s); PendingFacts(s, s.boot.id); }
    if id in s.procs { ProcFacts(s, id); }
    hide Inv;
  }

  // ----- Cleanup -----

  /** A task that fails while its process lives: exactly the declared and not kept files went. */
  lemma FailureRemovesItsArtifacts(run: seq<Agent>, steps: seq<Step>, files: set<File>, n: nat, id: Id, now: int)
    requires IsTrace(run, steps) && run[0] == Initial(files) && n < |run|
    requires CanFail(run[n], id)
    ensures RemovedFor(run[n].log, run[n].procs[id].run) == SetOf(Mem(run[n])[id].artifacts)
  {
    var s := run[n];
    RunKeepsInv(run, steps, files, n);
    ProcFacts(s, id);
    var p := s.procs[id];
    assert p.gone + [] == p.gone;
    hide Inv;
  }

  lemma StepPending(s: Agent, step: Step, id: Id)
    requires Inv(s) && CanStep(s, step) && !step.Reboot?
    requires id in PendingIds(Apply(s, step).boot)
    ensures id in PendingIds(s.boot) && !(step.BootPut? && id == s.boot.id)
  {
    hide Inv, FlushJournal, PurgeJournal, NextBoot, WithoutFile, WithFile, PendingIds;
    if step.BootFinish? {
      BootFinishPending(s);
    } else if step.BootPut? {
      BootPutOther(s, id, step.now);
      BootPutPending(s, step.now);
    } else if step.BootClean? {
      BootCleanPending(s);
    } else {
      assert Apply(s, step).boot == s.boot;
    }
  }

  /** While a task waits for recovery, nothing changes what its record lists. */
  lemma StepKeepsListed(s: Agent, step: Step, id: Id)
    requires Inv(s) && CanStep(s, step) && !step.Reboot?
    requires id in PendingIds(Apply(s, step).boot)
    ensures id in PendingIds(s.boot) && id in Mem(s) && id in Mem(Apply(s, step))
    ensures Mem(Apply(s, step))[id].artifacts == Mem(s)[id].artifacts
  {
    var t := Apply(s, step);
    StepKeepsInv(s, step);
    PendingListed(t, id);
    StepPending(s, step, id);
    PendingListed(s, id);
    InvIsValid(s);
    if Touches(s, step) == Some(id) { TouchedIsRunning(s, step, id); }
    hide Inv, Touches;
    if step.AckResult? {
      AckTouchesOne(s, step.id, step.now, id);
    } else {
      hide Apply, CanStep;
      StepTouchesOne(s, step, id);
    }
  }

  lemma PendingListed(s: Agent, id: Id)
    requires Inv(s) && id in PendingIds(s.boot)
    ensures id in Mem(s) && id !in s.procs && Mem(s)[id].status == Running
  {
    hide ProcsOk, LogOk, NoOrphans, JournalRuns, NotEmitted;
    assert PendingOk(s.journal, s.procs, s.log, id);
  }

  lemma BootFinishPending(s: Agent)
    requires Inv(s) && CanBootFinish(s)
    ensures PendingIds(FinishAtBoot(s).boot) == PendingIds(s.boot)
  {
    hide Inv;
    NextBootPending(Mem(s), s.boot.todo);
  }

  lemma BootPutPending(s: Agent, now: int)
    requires CanBootPut(s)
    ensures forall id :: id in PendingIds(PutAtBoot(s, now).boot) ==> id in PendingIds(s.boot)
  {
  }

  lemma BootCleanPending(s: Agent)
    requires CanBootClean(s)
    ensures PendingIds(CleanAtBoot(s).boot) == PendingIds(s.boot)
  {
  }

  lemma BootPutOther(s: Agent, id: Id, now: int)
    requires Inv(s) && CanBootPut(s) && id in PendingIds(PutAtBoot(s, now).boot)
    ensures id != s.boot.id
  {
    BootFacts(s);
  }

  /**
   * A task that a crash interrupted: recovery removes exactly the files that the journal file listed
   * when the process died, whatever else happens meanwhile.
   */
  lemma {:induction false} RecoveryRemovesWhatWasWritten(
    dead: Agent, order: seq<Id>, now: int, run: seq<Agent>, steps: seq<Step>, n: nat, id: Id)
    requires Inv(dead) && CanReboot(dead, order, now) && IsTrace(run, steps) && n < |run|
    requires run[0] == RebootAgent(dead, order, now)
    requires forall k :: 0 <= k < n ==> !steps[k].Reboot?
    requires id in PendingIds(run[n].boot)
    ensures Inv(run[n]) && id in Mem(run[n]) && id in dead.journal.file.value
    ensures Mem(run[n])[id].artifacts == dead.journal.file.value[id].artifacts
    ensures var b := run[n].boot;
            b.BootCleaning? && b.id == id ==> b.gone + b.left == dead.journal.file.value[id].artifacts
  {
    ListedAfterReboot(dead, order, now, run, steps, n, id);
    var b := run[n].boot;
    if b.BootCleaning? { BootFacts(run[n]); }
  }

  lemma {:induction false} ListedAfterReboot(
    dead: Agent, order: seq<Id>, now: int, run: seq<Agent>, steps: seq<Step>, n: nat, id: Id)
    requires Inv(dead) && CanReboot(dead, order, now) && IsTrace(run, steps) && n < |run|
    requires run[0] == RebootAgent(dead, order, now)
    requires forall k :: 0 <= k < n ==> !steps[k].Reboot?
    ensures Inv(run[n])
    ensures id in PendingIds(run[n].boot) ==>
              && id in Mem(run[n]) && id in dead.journal.file.value
              && Mem(run[n])[id].artifacts == dead.journal.file.value[id].artifacts
  {
    if n == 0 {
      RebootKeepsInv(dead, order, now);
      if id in PendingIds(run[0].boot) {
        PendingListed(run[0], id);
        hide Inv, Reloaded;
        InvIsValid(dead);
        ReloadedHas(dead, now, id);
      }
    } else {
      hide Inv, Apply, CanStep, IsTrace, PendingIds;
      ListedAfterReboot(dead, order, now, run, steps, n - 1, id);
      TraceStep(run, steps, n - 1);
      StepKeepsInv(run[n - 1], steps[n - 1]);
      if id in PendingIds(run[n].boot) { StepKeepsListed(run[n - 1], steps[n - 1], id); }
    }
  }

  /** With nothing unsaved and no write pending, recovery therefore spares every kept file. */
  lemma QuietJournalIsWritten(s: Agent)
    requires Inv(s) && !s.journal.dirty && s.journal.finished == s.journal.enqueued
    ensures s.journal.file.value == Mem(s)
  {
    hide ProcsOk, BootOk, LogOk, NoOrphans, JournalRuns;
  }

  // ----- Keep, then checkpoint -----

  predicate Unlisted(tasks: Records, id: Id, run: nat, file: File) {
    id in tasks && tasks[id].run == run ==> file !in tasks[id].artifacts
  }

  predicate UnlistedSince(j: Store<Records>, id: Id, run: nat, file: File, since: nat) {
    && Unlisted(j.mem.value, id, run, file)
    && (since <= j.snapshot.version ==> Unlisted(j.snapshot.value, id, run, file))
    && (since <= j.file.version ==> Unlisted(j.file.value, id, run, file))
  }

  lemma MovesKeepUnlisted(j: Store<Records>, k: Store<Records>, id: Id, run: nat, file: File, since: nat)
    requires j.Valid() && Moves(j, k)
    requires UnlistedSince(j, id, run, file, since) && Unlisted(k.mem.value, id, run, file)
    ensures UnlistedSince(k, id, run, file, since)
  {
    hide Unlisted;
  }

  lemma {:induction false} WithoutFileHas(files: seq<File>, file: File, other: File)
    ensures other in WithoutFile(files, file) <==> other in files && other != file
  {
    if files != [] { WithoutFileHas(files[1..], file, other); }
  }

  lemma TouchMoves(s: Agent, step: Step)
    requires s.journal.Valid() && CanStep(s, step) && Touches(s, step).Some?
    ensures Moves(s.journal, Apply(s, step).journal)
  {
    var j := s.journal;
    hide Moves, WithoutFile, WithFile, Put, Patch, NextBoot;
    match step
    case Start(id, now) => PutMoves(j, id, NewRecord(|s.runs|, now));
    case Declare(id, file, now) =>
      PatchMoves(j, id, Mem(s)[id].(artifacts := WithFile(Mem(s)[id].artifacts, file), updatedAt := now));
    case Keep(id, file, now) =>
      PatchMoves(j, id, Mem(s)[id].(artifacts := WithoutFile(Mem(s)[id].artifacts, file), updatedAt := now));
    case Progress(id, now) => PatchMoves(j, id, Mem(s)[id].(artifacts := Mem(s)[id].artifacts, updatedAt := now));
    case Succeed(id, now) => PutMoves(j, id, Ended(Mem(s)[id], Done, now));
    case FailPut(id, now) =>
      PutMoves(j, id, Ended(Mem(s)[id], if s.procs[id].cancelled then Cancelled else Failed, now));
    case BootPut(now) => PutMoves(j, s.boot.id, Ended(Mem(s)[s.boot.id], Failed, now));
    case _ => assert false;
  }

  lemma AckMovesJournal(s: Agent, acked: Id, now: int)
    requires s.journal.Valid()
    ensures Moves(s.journal, Acknowledge(s, acked, now).journal)
  {
    NothingMoves(s.journal);
    if acked in Mem(s) && !IsActive(s, acked) {
      AckMoves(s.journal, acked, Mem(s)[acked].(acked := true, updatedAt := now), now);
    }
    hide Moves, Patch, FlushJournal, PurgeJournal;
  }

  /** Every step but a restart moves the chain of writes as `Moves` says. */
  lemma StepMoves(s: Agent, step: Step)
    requires s.journal.Valid() && CanStep(s, step) && !step.Reboot?
    ensures Moves(s.journal, Apply(s, step).journal)
  {
    if Touches(s, step).Some? {
      TouchMoves(s, step);
    } else if step.AckResult? {
      AckMovesJournal(s, step.id, step.now);
    } else {
      NothingMoves(s.journal);
      FlushMoves(s.journal);
      WriteMoves(s.journal);
      hide Moves, FlushJournal, NextBoot, Acknowledge, RebootAgent, Patch, Put;
    }
  }

  lemma StepKeepsUnlistedInMemory(s: Agent, step: Step, id: Id, run: nat, file: File)
    requires s.journal.Valid() && CanStep(s, step) && !step.Reboot?
    requires !(step.Declare? && step.id == id && step.file == file)
    requires Unlisted(Mem(s), id, run, file)
    ensures Unlisted(Mem(Apply(s, step)), id, run, file)
  {
    if step.AckResult? {
      AckTouchesOne(s, step.id, step.now, id);
    } else if Touches(s, step) != Some(id) {
      StepTouchesOne(s, step, id);
      hide Apply, CanStep, Touches;
    } else {
      TouchKeepsUnlisted(s, step, id, run, file);
    }
  }

  lemma TouchKeepsUnlisted(s: Agent, step: Step, id: Id, run: nat, file: File)
    requires CanStep(s, step) && Touches(s, step) == Some(id)
    requires !(step.Declare? && step.id == id && step.file == file)
    requires Unlisted(Mem(s), id, run, file)
    ensures Unlisted(Mem(Apply(s, step)), id, run, file)
  {
    if step.Keep? { WithoutFileHas(Mem(s)[id].artifacts, step.file, file); }
    hide WithoutFile, NextBoot;
  }

  /** Neither a restart nor a new declaration of the file. */
  predicate Leaves(step: Step, id: Id, file: File) {
    !step.Reboot? && !(step.Declare? && step.id == id && step.file == file)
  }

  lemma TraceStep(run: seq<Agent>, steps: seq<Step>, k: nat)
    requires IsTrace(run, steps) && k + 1 < |run|
    ensures k < |steps| && CanStep(run[k], steps[k]) && run[k + 1] == Apply(run[k], steps[k])
  {
  }

  lemma {:induction false} RunKeepsInvFrom(run: seq<Agent>, steps: seq<Step>, n: nat)
    requires IsTrace(run, steps) && n < |run| && Inv(run[0])
    ensures Inv(run[n])
    decreases n
  {
    if n > 0 {
      hide Inv, Apply, CanStep, IsTrace;
      RunKeepsInvFrom(run, steps, n - 1);
      TraceStep(run, steps, n - 1);
      StepKeepsInv(run[n - 1], steps[n - 1]);
    }
  }

  // ----- What a checkpoint promises -----

  /** A checkpoint called in `s` has returned by state `n`, in the process that called it. */
  ghost predicate Returned(s: Agent, run: seq<Agent>, steps: seq<Step>, n: nat) {
    && IsTrace(run, steps) && n < |run| && run[0] == Apply(s, Checkpoint)
    && (forall k :: 0 <= k < n ==> !steps[k].Reboot?)
    && (s.journal.dirty ==> s.journal.enqueued + 1 <= run[n].journal.finished)
  }

  lemma TraceLength(run: seq<Agent>, steps: seq<Step>)
    requires IsTrace(run, steps)
    ensures |run| == |steps| + 1
  {
  }

  lemma NextMoves(run: seq<Agent>, steps: seq<Step>, k: nat)
    requires IsTrace(run, steps) && k < |steps| && k + 1 < |run| && Inv(run[0]) && !steps[k].Reboot?
    ensures run[k].journal.Valid() && Moves(run[k].journal, run[k + 1].journal)
    ensures run[k].journal.mem.version <= run[k + 1].journal.mem.version
  {
    hide Inv, Apply, CanStep, IsTrace;
    TraceStep(run, steps, k);
    RunKeepsInvFrom(run, steps, k);
    InvIsValid(run[k]);
    StepMoves(run[k], steps[k]);
  }

  lemma MovesGrowFile(j: Store<Records>, k: Store<Records>)
    requires j.Valid() && Moves(j, k)
    ensures j.file.version <= k.file.version
  {
  }

  /** While the process lives, what is owed stays owed and the file only gets newer. */
  lemma {:induction false} RunKeepsOwed(
    run: seq<Agent>, steps: seq<Step>, i: nat, n: nat, ticket: nat, since: nat)
    requires IsTrace(run, steps) && i <= n < |run| && Inv(run[0])
    requires forall k :: i <= k < n ==> !steps[k].Reboot?
    ensures Owed(run[i].journal, ticket, since) ==> Owed(run[n].journal, ticket, since)
    ensures run[i].journal.file.version <= run[n].journal.file.version
    decreases n
  {
    hide *;
    if i < n {
      RunKeepsOwed(run, steps, i, n - 1, ticket, since);
      TraceLength(run, steps);
      NextMoves(run, steps, n - 1);
      MovesGrowFile(run[n - 1].journal, run[n].journal);
      if Owed(run[i].journal, ticket, since) { MovesKeepOwed(run[n - 1].journal, run[n].journal, ticket, since); }
    }
  }

  /** What the call owes, and that it changes neither memory nor file. */
  lemma CheckpointOwes(s: Agent)
    requires s.journal.Valid()
    ensures var j := Apply(s, Checkpoint).journal;
            && j.mem == s.journal.mem && j.file == s.journal.file
            && (s.journal.dirty ==> Owed(j, s.journal.enqueued + 1, s.journal.mem.version))
  {
  }

  /** A checkpoint called at index `j` of a run has returned by index `n`. */
  lemma ReturnedIsDurable(run: seq<Agent>, steps: seq<Step>, j: nat, n: nat)
    requires IsTrace(run, steps) && Inv(run[0]) && j < n < |run| && steps[j] == Checkpoint
    requires forall k :: j < k < n ==> !steps[k].Reboot?
    requires run[j].journal.dirty ==> run[j].journal.enqueued + 1 <= run[n].journal.finished
    requires run[j].journal.dirty || run[j].journal.file.version == run[j].journal.mem.version
    ensures run[j].journal.mem.version <= run[n].journal.file.version
  {
    var s := run[j];
    RunKeepsInvFrom(run, steps, j);
    InvIsValid(s);
    TraceStep(run, steps, j);
    CheckpointOwes(s);
    hide Inv, Apply, CanStep, IsTrace;
    RunKeepsOwed(run, steps, j + 1, n, s.journal.enqueued + 1, s.journal.mem.version);
  }

  lemma QuietIsWritten(j: Store<Records>)
    requires j.Valid() && !j.dirty && j.finished == j.enqueued
    ensures j.file == j.mem
  {
  }

  /**
   * When a returned checkpoint can be relied on: whatever happens after the call, every change made
   * before it is in the file once it has returned if and only if something was unsaved at the call or
   * the file was up to date already. What a caller can see, that no write is pending, is enough.
   */
  lemma CheckpointIsDurableExactly(s: Agent)
    requires Inv(s)
    ensures (forall run: seq<Agent>, steps: seq<Step>, n: nat ::
               Returned(s, run, steps, n) ==> s.journal.mem.version <= run[n].journal.file.version)
            <==> s.journal.dirty || s.journal.file.version == s.journal.mem.version
    ensures s.journal.finished == s.journal.enqueued
            ==> s.journal.dirty || s.journal.file.version == s.journal.mem.version
  {
    InvIsValid(s);
    if !s.journal.dirty && s.journal.finished == s.journal.enqueued { QuietIsWritten(s.journal); }
    CheckpointOwes(s);
    if s.journal.dirty || s.journal.file.version == s.journal.mem.version {
      forall run: seq<Agent>, steps: seq<Step>, n: nat | Returned(s, run, steps, n)
        ensures s.journal.mem.version <= run[n].journal.file.version
      {
        CallOf(s, run, steps, n);
      }
    } else {
      assert s.journal.file.version < s.journal.mem.version by { InvIsValid(s); }
      var now := Apply(s, Checkpoint);
      hide Inv, Apply, CanStep;
      assert Returned(s, [now], [], 0);
    }
  }

  lemma CallOf(s: Agent, run: seq<Agent>, steps: seq<Step>, n: nat)
    requires Inv(s) && Returned(s, run, steps, n)
    requires s.journal.dirty || s.journal.file.version == s.journal.mem.version
    ensures s.journal.mem.version <= run[n].journal.file.version
  {
    var longer, calls := [s] + run, [Checkpoint] + steps;
    assert CanStep(s, Checkpoint);
    hide Inv, Apply, CanStep;
    forall i | 0 <= i < |calls| ensures CanStep(longer[i], calls[i]) && longer[i + 1] == Apply(longer[i], calls[i]) {
      if i > 0 { assert calls[i] == steps[i - 1] && longer[i] == run[i - 1] && longer[i + 1] == run[i]; }
    }
    forall k | 0 < k < n + 1 ensures !calls[k].Reboot? { assert calls[k] == steps[k - 1]; }
    ReturnedIsDurable(longer, calls, 0, n + 1);
  }

  lemma {:induction false} RunKeepsUnlisted(
    run: seq<Agent>, steps: seq<Step>, i: nat, n: nat, id: Id, task: nat, file: File, since: nat)
    requires IsTrace(run, steps) && i <= n < |run| && Inv(run[0])
    requires forall k :: i <= k < n ==> Leaves(steps[k], id, file)
    requires UnlistedSince(run[i].journal, id, task, file, since)
    ensures UnlistedSince(run[n].journal, id, task, file, since)
    decreases n
  {
    if i < n {
      hide Inv, UnlistedSince, IsTrace, Leaves;
      RunKeepsUnlisted(run, steps, i, n - 1, id, task, file, since);
      assert Leaves(steps[n - 1], id, file);
      NextIsUnlisted(run, steps, n - 1, id, task, file, since);
    }
  }

  lemma NextIsUnlisted(
    run: seq<Agent>, steps: seq<Step>, k: nat, id: Id, task: nat, file: File, since: nat)
    requires IsTrace(run, steps) && k < |steps| && k + 1 < |run| && Inv(run[0])
    requires Leaves(steps[k], id, file) && UnlistedSince(run[k].journal, id, task, file, since)
    ensures UnlistedSince(run[k + 1].journal, id, task, file, since)
  {
    hide Inv, Apply, CanStep, UnlistedSince, IsTrace, Leaves;
    TraceStep(run, steps, k);
    RunKeepsInvFrom(run, steps, k);
    InvIsValid(run[k]);
    StepKeepsUnlisted(run[k], steps[k], id, task, file, since);
  }

  lemma StepKeepsUnlisted(s: Agent, step: Step, id: Id, task: nat, file: File, since: nat)
    requires s.journal.Valid() && CanStep(s, step) && Leaves(step, id, file)
    requires UnlistedSince(s.journal, id, task, file, since)
    ensures UnlistedSince(Apply(s, step).journal, id, task, file, since)
  {
    hide Apply, CanStep, Unlisted, Moves;
    StepMoves(s, step);
    assert Unlisted(Mem(s), id, task, file);
    StepKeepsUnlistedInMemory(s, step, id, task, file);
    hide UnlistedSince;
    MovesKeepUnlisted(s.journal, Apply(s, step).journal, id, task, file, since);
  }

  lemma KeepIsUnlisted(s: Agent, id: Id, file: File, now: int)
    requires Inv(s) && IsExecuting(s, id)
    ensures var kept := Apply(s, Keep(id, file, now)).journal;
            UnlistedSince(kept, id, s.procs[id].run, file, kept.mem.version)
  {
    WithoutFileHas(Mem(s)[id].artifacts, file, file);
    InvIsValid(s);
    hide Inv, WithoutFile;
  }

  lemma {:induction false} MemoryGrows(run: seq<Agent>, steps: seq<Step>, i: nat, n: nat)
    requires IsTrace(run, steps) && i <= n < |run| && Inv(run[0])
    requires forall k :: i <= k < n ==> !steps[k].Reboot?
    ensures run[i].journal.mem.version <= run[n].journal.mem.version
    decreases n
  {
    hide *;
    if i < n {
      MemoryGrows(run, steps, i, n - 1);
      TraceLength(run, steps);
      NextMoves(run, steps, n - 1);
    }
  }

  /**
   * `keep`, and any number of steps later a `checkpoint` that finds something unsaved or no write
   * pending: when it has returned, the journal file no longer lists the file, so no crash from then on
   * deletes it.
   */
  lemma KeptFileIsSafeAfterCheckpoint(
    run: seq<Agent>, steps: seq<Step>, i: nat, j: nat, n: nat, id: Id, file: File)
    requires IsTrace(run, steps) && Inv(run[0]) && i < j < n < |run|
    requires steps[i].Keep? && steps[i].id == id && steps[i].file == file && steps[j] == Checkpoint
    requires forall k :: i < k < n ==> Leaves(steps[k], id, file)
    requires run[j].journal.dirty || run[j].journal.finished == run[j].journal.enqueued
    requires run[j].journal.dirty ==> run[j].journal.enqueued + 1 <= run[n].journal.finished
    ensures id in run[i].procs && Unlisted(run[n].journal.file.value, id, run[i].procs[id].run, file)
  {
    var since := run[i + 1].journal.mem.version;
    RunKeepsInvFrom(run, steps, i);
    TraceStep(run, steps, i);
    assert IsExecuting(run[i], id);
    var task := run[i].procs[id].run;
    KeepIsUnlisted(run[i], id, file, steps[i].now);
    RunKeepsInvFrom(run, steps, j);
    InvIsValid(run[j]);
    if !run[j].journal.dirty { QuietIsWritten(run[j].journal); }
    hide Inv, Apply, CanStep, IsTrace, Unlisted;
    MemoryGrows(run, steps, i + 1, j);
    ReturnedIsDurable(run, steps, j, n);
    RunKeepsUnlisted(run, steps, i + 1, n, id, task, file, since);
  }

  lemma KeptInv(s: Agent, id: Id, file: File, now: int)
    requires Inv(s) && IsExecuting(s, id)
    ensures Inv(Apply(Apply(s, Keep(id, file, now)), Checkpoint))
  {
    hide Inv;
    StepKeepsInv(s, Keep(id, file, now));
    StepKeepsInv(Apply(s, Keep(id, file, now)), Checkpoint);
  }

  /**
   * The other order of events: the deferred write is already under way when the executor calls
   * `checkpoint`. The call then returns at once, and a crash makes recovery delete the kept file.
   */
  lemma CheckpointMayReturnEarly(s: Agent, id: Id, file: File, now: int, order: seq<Id>, later: int)
    requires Inv(s) && IsExecuting(s, id) && file in Mem(s)[id].artifacts
    requires !s.journal.dirty && s.journal.finished == s.journal.enqueued
    requires var flushed := Apply(Apply(s, Keep(id, file, now)), Checkpoint); CanReboot(flushed, order, later)
    ensures var flushed := Apply(Apply(s, Keep(id, file, now)), Checkpoint);
            && file !in Mem(flushed)[id].artifacts
            && Apply(flushed, Checkpoint) == flushed
            && var rebooted := RebootAgent(flushed, order, later);
               id in PendingIds(rebooted.boot) && id in Mem(rebooted) && file in Mem(rebooted)[id].artifacts
  {
    var flushed := Apply(Apply(s, Keep(id, file, now)), Checkpoint);
    EarlyCheckpoint(s, id, file, now);
    KeptInv(s, id, file, now);
    InvIsValid(flushed);
    QuietJournalIsWritten(s);
    ProcFacts(s, id);
    hide Inv, Apply, WithoutFile;
    FileDecidesReboot(flushed, order, later, id);
  }

  lemma EarlyCheckpoint(s: Agent, id: Id, file: File, now: int)
    requires IsExecuting(s, id)
    ensures var flushed := Apply(Apply(s, Keep(id, file, now)), Checkpoint);
            && id in Mem(flushed) && file !in Mem(flushed)[id].artifacts
            && Apply(flushed, Checkpoint) == flushed && flushed.journal.file == s.journal.file
  {
    WithoutFileHas(Mem(s)[id].artifacts, file, file);
    hide WithoutFile;
  }

  /** What the file shows running is what a restart recovers, with the artifacts the file lists. */
  lemma FileDecidesReboot(s: Agent, order: seq<Id>, now: int, id: Id)
    requires s.journal.Valid() && CanReboot(s, order, now)
    requires id in s.journal.file.value && s.journal.file.value[id].status == Running
    ensures var t := RebootAgent(s, order, now);
            id in PendingIds(t.boot) && id in Mem(t) && Mem(t)[id] == s.journal.file.value[id]
  {
    var t := RebootAgent(s, order, now);
    ReloadedIs(s, now);
    hide Reloaded, NextBoot;
    NextBootPending(Mem(t), order);
    assert id in Stale(Mem(t));
  }

  /** A started task whose writes are all done; `artifacts` is what it has declared. */
  function SettledTask(id: Id, artifacts: seq<File>, version: nat): Agent {
    var image := Image(map[id := NewRecord(0, 0).(artifacts := artifacts)], version);
    Agent(Store(image, false, version, version, version, image, image),
          map[id := Executing(0, false)], Booted, [id], {}, [Launched(id, 0)])
  }

  lemma StartSettles(id: Id) returns (run: seq<Agent>, steps: seq<Step>)
    ensures IsTrace(run, steps) && run[0] == Initial({}) && |run| == 5 && run[4] == SettledTask(id, [], 1)
  {
    var s0 := Initial({});
    var s1 := StartTask(s0, id, 0);
    var s2 := s1.(journal := s1.journal.StartWrite());
    var s3 := s2.(journal := s2.journal.FinishWrite());
    run, steps := [s0, s1, s2, s3, LaunchTask(s3, id)], [Start(id, 0), BeginWrite, EndWrite, Launch(id)];
  }

  /** Declaring a file leaves the journal unsaved; a checkpoint and one write later it is settled again. */
  lemma DeclareIs(id: Id, file: File)
    ensures var s4, s5 := SettledTask(id, [], 1), PatchTask(SettledTask(id, [], 1), id, [file], 0);
            && WithFile([], file) == [file] && IsExecuting(s4, id)
            && s5 == s4.(journal := s4.journal.(mem := SettledTask(id, [file], 2).journal.mem, dirty := true))
  {
    var s5 := PatchTask(SettledTask(id, [], 1), id, [file], 0);
    assert Mem(s5) == map[id := NewRecord(0, 0).(artifacts := [file])];
  }

  lemma SaveSettles(j: Store<Records>, mem: Image<Records>)
    requires j.finished == j.started == j.enqueued == 1
    ensures var k := FlushJournal(j.(mem := mem, dirty := true));
            && k.CanStart() && k.StartWrite().CanFinish()
            && k.StartWrite().FinishWrite() == Store(mem, false, 2, 2, 2, mem, mem)
  {
  }

  lemma DeclareSettles(id: Id, file: File) returns (run: seq<Agent>, steps: seq<Step>)
    ensures IsTrace(run, steps) && |run| == 5
    ensures run[0] == SettledTask(id, [], 1) && run[4] == SettledTask(id, [file], 2)
  {
    var s4 := SettledTask(id, [], 1);
    var s5 := PatchTask(s4, id, [file], 0);
    DeclareIs(id, file);
    SaveSettles(s4.journal, s5.journal.mem);
    hide PatchTask, FlushJournal, WithFile, IsExecuting;
    var s6 := s5.(journal := FlushJournal(s5.journal));
    var s7 := s6.(journal := s6.journal.StartWrite());
    var s8 := s7.(journal := s7.journal.FinishWrite());
    run, steps := [s4, s5, s6, s7, s8], [Declare(id, file, 0), Checkpoint, BeginWrite, EndWrite];
  }

  /** Such a moment is reached: declare a file, and let the deferred write finish. */
  lemma EarlyCheckpointIsReachable(id: Id, file: File) returns (run: seq<Agent>, steps: seq<Step>)
    ensures IsTrace(run, steps) && run[0] == Initial({}) && |run| == 9
    ensures var s := run[8];
            && Inv(s) && IsExecuting(s, id) && file in Mem(s)[id].artifacts
            && !s.journal.dirty && s.journal.finished == s.journal.enqueued
  {
    hide Inv, Apply, CanStep;
    var run1, steps1 := StartSettles(id);
    var run2, steps2 := DeclareSettles(id, file);
    run, steps := run1 + run2[1..], steps1 + steps2;
    TracesJoin(run1, steps1, run2, steps2);
    RunKeepsInv(run, steps, {}, 8);
  }

  lemma TracesJoin(run1: seq<Agent>, steps1: seq<Step>, run2: seq<Agent>, steps2: seq<Step>)
    requires IsTrace(run1, steps1) && IsTrace(run2, steps2) && run1[|run1| - 1] == run2[0]
    ensures IsTrace(run1 + run2[1..], steps1 + steps2)
  {
    hide CanStep, Apply;
    var run, steps := run1 + run2[1..], steps1 + steps2;
    forall i | 0 <= i < |steps| ensures CanStep(run[i], steps[i]) && run[i + 1] == Apply(run[i], steps[i]) {
      if i >= |steps1| { assert run[i] == run2[i - |steps1|]; }
    }
  }

  // ----- How long a result stays listed -----

  /** The record, in memory and in whatever is recent enough. */
  predicate ResultSince(j: Store<Records>, id: Id, r: Record, since: nat) {
    && id in j.mem.value && j.mem.value[id] == r
    && (since <= j.snapshot.version ==> id in j.snapshot.value && j.snapshot.value[id] == r)
    && (since <= j.file.version ==> id in j.file.value && j.file.value[id] == r)
  }

  /** A step that neither acknowledges the task nor purges after its seven days. */
  predicate Spares(step: Step, id: Id, r: Record) {
    && !(step.AckResult? && step.id == id)
    && (step.AckResult? || step.Reboot? ==> step.now <= FinishTime(r) + RETENTION)
  }

  lemma StepKeepsResult(s: Agent, step: Step, id: Id, r: Record, since: nat)
    requires Inv(s) && CanStep(s, step) && Spares(step, id, r)
    requires Finished(r) && !r.acked && ResultSince(s.journal, id, r, since)
    requires step.Reboot? ==> since <= s.journal.file.version
    ensures ResultSince(Apply(s, step).journal, id, r, since)
  {
    InvIsValid(s);
    if step.Reboot? {
      hide Inv;
      ReloadedIs(s, step.now);
      hide Reloaded, NextBoot;
    } else {
      StepMoves(s, step);
      ResultStaysInMemory(s, step, id, r);
      hide Inv, Apply, CanStep;
    }
  }

  lemma ResultStaysInMemory(s: Agent, step: Step, id: Id, r: Record)
    requires Inv(s) && CanStep(s, step) && Spares(step, id, r) && !step.Reboot?
    requires Finished(r) && !r.acked && id in Mem(s) && Mem(s)[id] == r
    ensures id in Mem(Apply(s, step)) && Mem(Apply(s, step))[id] == r
  {
    InvIsValid(s);
    if Touches(s, step) == Some(id) { TouchedIsRunning(s, step, id); }
    hide Inv, Touches;
    if step.AckResult? {
      AckTouchesOne(s, step.id, step.now, id);
    } else {
      hide Apply, CanStep;
      StepTouchesOne(s, step, id);
    }
  }

  /** From the state `i` on where memory and whatever is recent enough has the record, it stays. */
  lemma {:induction false} ResultStays(
    run: seq<Agent>, steps: seq<Step>, i: nat, n: nat, id: Id, r: Record, since: nat)
    requires IsTrace(run, steps) && i <= n < |run| && Inv(run[0])
    requires Finished(r) && !r.acked && ResultSince(run[i].journal, id, r, since)
    requires forall k :: i <= k < n ==> StaysSpared(run[k], steps[k], id, r, since)
    ensures ResultSince(run[n].journal, id, r, since)
    decreases n
  {
    if i < n {
      hide Inv, ResultSince, IsTrace, StaysSpared, Finished;
      ResultStays(run, steps, i, n - 1, id, r, since);
      NextKeepsResult(run, steps, n - 1, id, r, since);
    }
  }

  /** As `Spares`, and a restart only comes once the file is as new as the result. */
  predicate StaysSpared(s: Agent, step: Step, id: Id, r: Record, since: nat) {
    Spares(step, id, r) && (step.Reboot? ==> since <= s.journal.file.version)
  }

  lemma NextKeepsResult(run: seq<Agent>, steps: seq<Step>, k: nat, id: Id, r: Record, since: nat)
    requires IsTrace(run, steps) && k < |steps| && k + 1 < |run| && Inv(run[0])
    requires Finished(r) && !r.acked && ResultSince(run[k].journal, id, r, since)
    requires StaysSpared(run[k], steps[k], id, r, since)
    ensures ResultSince(run[k + 1].journal, id, r, since)
  {
    hide Inv, Apply, CanStep, ResultSince, IsTrace, Spares, Finished;
    TraceStep(run, steps, k);
    RunKeepsInvFrom(run, steps, k);
    StepKeepsResult(run[k], steps[k], id, r, since);
  }

  /** The step that writes the outcome of a task. */
  predicate Ends(s: Agent, step: Step, id: Id) {
    || ((step.Succeed? || step.FailPut?) && step.id == id)
    || (step.BootPut? && s.boot.BootCleaning? && s.boot.id == id)
  }

  lemma EndedResult(s: Agent, step: Step, id: Id)
    requires Inv(s) && CanStep(s, step) && Ends(s, step, id)
    ensures id in Mem(s) && id in Mem(Apply(s, step))
    ensures var t := Apply(s, step);
            var r := Mem(t)[id];
            && ResultSince(t.journal, id, r, t.journal.mem.version)
            && Finished(r) && r == Ended(Mem(s)[id], r.status, step.now)
  {
    InvIsValid(s);
    hide Inv;
    var status := if step.Succeed? then Done
                  else if step.FailPut? && s.procs[id].cancelled then Cancelled else Failed;
    PutMoves(s.journal, id, Ended(Mem(s)[id], status, step.now));
    EndsByPut(s, step, id, status);
    hide Apply, CanStep, Put, Ends;
  }

  lemma EndsByPut(s: Agent, step: Step, id: Id, status: Status)
    requires CanStep(s, step) && Ends(s, step, id)
    requires status == if step.Succeed? then Done
                       else if step.FailPut? && s.procs[id].cancelled then Cancelled else Failed
    ensures id in Mem(s)
    ensures Apply(s, step).journal == Put(s.journal, id, Ended(Mem(s)[id], status, step.now)).0
  {
    hide Put, Ended;
  }

  /**
   * In every run: the outcome that the step `i` writes for a task stays listed, unchanged, until it is
   * acknowledged or seven days old, across any number of restarts that come after its write reached
   * the file.
   */
  lemma ResultStaysListed(run: seq<Agent>, steps: seq<Step>, files: set<File>, i: nat, n: nat, id: Id)
    requires IsTrace(run, steps) && run[0] == Initial(files) && i < n < |run|
    requires Ends(run[i], steps[i], id) && id in Mem(run[i]) && !Mem(run[i])[id].acked
    requires id in Mem(run[i + 1])
             && forall k :: i < k < n ==>
                  StaysSpared(run[k], steps[k], id, Mem(run[i + 1])[id], run[i + 1].journal.mem.version)
    ensures Finished(Mem(run[i + 1])[id])
    ensures id in Mem(run[n]) && Mem(run[n])[id] == Mem(run[i + 1])[id]
    ensures run[i + 1].journal.mem.version <= run[n].journal.file.version
            ==> id in run[n].journal.file.value && run[n].journal.file.value[id] == Mem(run[i + 1])[id]
  {
    var r, since := Mem(run[i + 1])[id], run[i + 1].journal.mem.version;
    RunKeepsInv(run, steps, files, 0);
    RunKeepsInvFrom(run, steps, i);
    TraceStep(run, steps, i);
    EndedResult(run[i], steps[i], id);
    hide Inv, Apply, CanStep, IsTrace, StaysSpared, Finished, Ends;
    ResultStays(run, steps, i + 1, n, id, r, since);
  }
}
