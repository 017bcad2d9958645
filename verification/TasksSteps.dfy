/**
 * Each step of the task runner keeps the invariant of TasksSafety.
 *
 * The steps come in five groups. A step of one task (start, launch, patch, cancel, throw, clean, end,
 * finish) touches the record and the execution of that task only: `TaskKeepsInv` does the rest, so each
 * proof shows what the task itself looks like afterwards. A step of the writer changes no record:
 * `CalmKeepsInv`. An acknowledgement may forget records: `ForgetKeepsInv`; among the tasks in hand only
 * those whose outcome is being written can be affected. A restart throws memory away, and its proof
 * reads everything off the file. The steps of recovery are about the task being recovered and leave
 * the tasks in hand alone: `ProcsKept`.
 *
 * `RunKeepsInv` puts them together for every run from an agent that has never run a task. The results
 * a reader would look for are drawn from it in TasksResults.
 */
module TasksSteps {
  import opened Options
  import opened StateStore
  import opened Tasks
  import opened TasksSafety

  lemma ProcFacts(s: Agent, id: Id)
    requires Inv(s) && id in s.procs
    ensures ProcOk(s.journal, s.runs, s.log, id, s.procs[id])
    ensures !s.procs[id].Ending? ==> id in Mem(s)
    ensures id in Mem(s) ==>
              && Mem(s)[id].run == s.procs[id].run
              && Mem(s)[id].status == if s.procs[id].Ending? then s.procs[id].status else Running
    ensures s.procs[id].run < |s.runs| && s.runs[s.procs[id].run] == id && NotEmitted(s.log, s.procs[id].run)
    ensures id !in PendingIds(s.boot)
    ensures s.boot.BootEnding? && s.boot.id == id ==> s.procs[id].run != s.boot.run
    ensures s.procs[id].Ending? ==> s.procs[id].status != Running
  {
    hide LogOk, JournalRuns, NoOrphans, NotEmitted, LaunchedSince, RemovedFor, Owed, OnlySince, HasSince, Distinct;
    ProcHasRecord(s, id);
  }

  lemma NothingMoves(j: Store<Records>)
    requires j.Valid()
    ensures Moves(j, j)
  {
  }

  lemma NewRunIsUnknown(s: Agent)
    requires LogOk(s)
    ensures NotEmitted(s.log, |s.runs|) && RemovedFor(s.log, |s.runs|) == {}
  {
    hide LaunchOnce, EmitOnce, LaunchedOk, EmittedOk;
  }

  // ----- What a step of a task touches -----

  lemma OnlyProcChanges(s: Agent, t: Agent, id: Id)
    requires Mem(t) == Mem(s)
    requires t.procs - {id} == s.procs - {id}
    ensures SameOthers(s, t, id)
  {
    forall other <- s.procs.Keys + t.procs.Keys | other != id
      ensures other in s.procs && other in t.procs && s.procs[other] == t.procs[other]
    {
      assert other in (s.procs - {id}) || other in (t.procs - {id});
      assert other in (s.procs - {id}) && other in (t.procs - {id});
      assert s.procs[other] == (s.procs - {id})[other];
      assert t.procs[other] == (t.procs - {id})[other];
    }
  }

  lemma OnlyRecordChanges(s: Agent, t: Agent, id: Id, r: Record)
    requires Mem(t) == Mem(s)[id := r]
    requires t.procs == s.procs || (id in t.procs && t.procs == s.procs[id := t.procs[id]])
    ensures SameOthers(s, t, id)
  {
  }

  lemma NoEvent(log: seq<Event>, id: Id, run: nat)
    ensures About(log, log, id, run)
  {
  }

  lemma OneEvent(log: seq<Event>, e: Event, id: Id, run: nat)
    requires match e
             case Launched(other, _) => other == id
             case Purged(_) => false
             case Removed(other, _) => other == run
             case Emitted(other, _) => other == run
    ensures About(log, log + [e], id, run) && (log + [e])[..|log|] == log && (log + [e])[|log|] == e
  {
  }

  lemma StartedProc(s: Agent, id: Id, now: int)
    requires Inv(s) && id !in Mem(s)
    ensures var t := StartTask(s, id, now); ProcOk(t.journal, t.runs, t.log, id, t.procs[id])
  {
    PutMoves(s.journal, id, NewRecord(|s.runs|, now));
    NewRunIsUnknown(s);
    NotLaunched(s, id);
    hide Inv, Moves, NotEmitted, LaunchedSince, RemovedFor, Owed, Put;
  }

  lemma StartKeepsInv(s: Agent, id: Id, now: int)
    requires Inv(s) && CanStart(s, id)
    ensures Inv(StartTask(s, id, now))
  {
    if id !in Mem(s) {
      var t := StartTask(s, id, now);
      var run := |s.runs|;
      StartedProc(s, id, now);
      PutMoves(s.journal, id, NewRecord(run, now));
      NewRunIsUnknown(s);
      NotPending(s, id);
      BootRunKnown(s);
      hide Inv, Moves, NotEmitted, Put, PendingIds, ProcOk, SameOthers, About, Owed, LaunchedSince, InAll, OnlySince,
        HasSince, RemovedFor, SameCore;
      OnlyRecordChanges(s, t, id, NewRecord(run, now));
      NoEvent(s.log, id, run);
      assert TaskStep(s, t, id, run);
      TaskKeepsInv(s, t, id, run);
    }
  }

  lemma NotPending(s: Agent, id: Id)
    requires Inv(s) && id !in Mem(s)
    ensures id !in PendingIds(s.boot)
  {
    hide LogOk, ProcsOk, NoOrphans, JournalRuns, HasSince, NotEmitted;
  }

  lemma NotLaunched(s: Agent, id: Id)
    requires Inv(s) && id !in Mem(s)
    ensures !LaunchedSince(s.log, id)
  {
    hide BootOk, ProcsOk, NoOrphans, JournalRuns, LaunchedSince, EmittedOk;
  }

  lemma BootRunKnown(s: Agent)
    requires Inv(s)
    ensures s.boot.BootEnding? ==> s.boot.run < |s.runs|
  {
    hide LogOk, ProcsOk, NoOrphans, JournalRuns, PendingOk, NotEmitted, OnlySince, Owed;
  }

  lemma LaunchedProc(s: Agent, id: Id)
    requires Inv(s) && CanLaunch(s, id)
    ensures var t := LaunchTask(s, id); ProcOk(t.journal, t.runs, t.log, id, t.procs[id])
    ensures !LaunchedSince(s.log, id) && InAll(s.journal, id)
  {
    var p := s.procs[id];
    ProcFacts(s, id);
    LandedEverywhere(s.journal, id, p.run, Running, p.ticket, p.since);
    HasIsInAll(s.journal, id, p.run, Running);
    hide Inv, LaunchedSince, Owed, HasSince, InAll;
    QuietAbout(s.log, Launched(id, p.run), p.run);
    hide NotEmitted, RemovedFor;
  }

  lemma LaunchKeepsInv(s: Agent, id: Id)
    requires Inv(s) && CanLaunch(s, id)
    ensures Inv(LaunchTask(s, id))
  {
    var t := LaunchTask(s, id);
    var p := s.procs[id];
    ProcFacts(s, id);
    NothingMoves(s.journal);
    LaunchedProc(s, id);
    hide Inv, Moves, NotEmitted, PendingIds, ProcOk, SameOthers, About, LaunchedSince, InAll, OnlySince, HasSince,
      Owed, RemovedFor, SameCore, CanStep;
    OnlyProcChanges(s, t, id);
    OneEvent(s.log, Launched(id, p.run), id, p.run);
    assert TaskStep(s, t, id, p.run);
    TaskKeepsInv(s, t, id, p.run);
  }

  lemma HasIsInAll(j: Store<Records>, id: Id, run: nat, status: Status)
    requires HasSince(j, id, run, status, 0)
    ensures InAll(j, id)
  {
  }

  /** Once the awaited write has finished, every image has the record. */
  lemma LandedEverywhere(j: Store<Records>, id: Id, run: nat, status: Status, ticket: nat, since: nat)
    requires j.Valid() && HasSince(j, id, run, status, since) && Owed(j, ticket, since) && ticket <= j.finished
    ensures HasSince(j, id, run, status, 0)
  {
  }

  lemma QuietAbout(log: seq<Event>, e: Event, run: nat)
    requires !(e.Emitted? && e.run == run) && !(e.Removed? && e.run == run)
    ensures NotEmitted(log, run) ==> NotEmitted(log + [e], run)
    ensures RemovedFor(log + [e], run) == RemovedFor(log, run)
    ensures (log + [e])[..|log|] == log && (log + [e])[|log|] == e
  {
    RemovedSnoc(log, e, run);
  }

  lemma PatchedProc(s: Agent, id: Id, artifacts: seq<File>, now: int)
    requires Inv(s) && IsExecuting(s, id)
    ensures var t := PatchTask(s, id, artifacts, now);
            Moves(s.journal, t.journal) && ProcOk(t.journal, t.runs, t.log, id, t.procs[id])
  {
    var t := PatchTask(s, id, artifacts, now);
    var p := s.procs[id];
    ProcFacts(s, id);
    PatchMoves(s.journal, id, Mem(s)[id].(artifacts := artifacts, updatedAt := now));
    hide Inv, LaunchedSince, Owed, NotEmitted, RemovedFor;
    MovesKeepHas(s.journal, t.journal, id, p.run, Running, 0);
  }

  lemma PatchKeepsInv(s: Agent, id: Id, artifacts: seq<File>, now: int)
    requires Inv(s) && IsExecuting(s, id)
    ensures Inv(PatchTask(s, id, artifacts, now))
  {
    var t := PatchTask(s, id, artifacts, now);
    var p := s.procs[id];
    ProcFacts(s, id);
    PatchedProc(s, id, artifacts, now);
    hide Inv, Moves, NotEmitted, PendingIds, ProcOk, SameOthers, About, LaunchedSince, InAll, OnlySince, HasSince,
      Owed, RemovedFor, SameCore;
    OnlyRecordChanges(s, t, id, Mem(s)[id].(artifacts := artifacts, updatedAt := now));
    NoEvent(s.log, id, p.run);
    assert TaskStep(s, t, id, p.run);
    TaskKeepsInv(s, t, id, p.run);
  }

  /** A step that changes nothing but where the execution of a task stands. */
  lemma ProcStepKeepsInv(s: Agent, t: Agent, id: Id)
    requires Inv(s) && id in s.procs && id in t.procs && !s.procs[id].Ending?
    requires t.journal == s.journal && t.boot == s.boot && t.runs == s.runs && t.log == s.log
    requires t.procs == s.procs[id := t.procs[id]] && t.procs[id].run == s.procs[id].run
    requires ProcOk(t.journal, t.runs, t.log, id, t.procs[id])
    ensures Inv(t)
  {
    var run := s.procs[id].run;
    ProcFacts(s, id);
    NothingMoves(s.journal);
    hide Inv, Moves, NotEmitted, PendingIds, ProcOk, SameOthers, About, LaunchedSince, InAll, OnlySince, HasSince,
      Owed, RemovedFor, SameCore;
    OnlyProcChanges(s, t, id);
    NoEvent(s.log, id, run);
    assert TaskStep(s, t, id, run);
    TaskKeepsInv(s, t, id, run);
  }

  lemma CancelKeepsInv(s: Agent, id: Id)
    requires Inv(s)
    ensures Inv(CancelTask(s, id))
  {
    if id in s.procs && s.procs[id].Executing? {
      var t := CancelTask(s, id);
      ProcFacts(s, id);
      hide Inv, NotEmitted, RemovedFor, HasSince, PendingIds;
      assert ProcOk(t.journal, t.runs, t.log, id, t.procs[id]);
      hide ProcOk;
      ProcStepKeepsInv(s, t, id);
    }
  }

  lemma ThrowKeepsInv(s: Agent, id: Id, own: bool)
    requires Inv(s) && IsExecuting(s, id)
    ensures Inv(ThrowTask(s, id, own))
  {
    var t := ThrowTask(s, id, own);
    ProcFacts(s, id);
    hide Inv, NotEmitted, RemovedFor, HasSince, PendingIds;
    assert [] + Mem(s)[id].artifacts == Mem(s)[id].artifacts;
    assert SetOf([]) == {};
    assert ProcOk(t.journal, t.runs, t.log, id, t.procs[id]);
    hide ProcOk;
    ProcStepKeepsInv(s, t, id);
  }

  lemma EndedProc(s: Agent, id: Id, status: Status, now: int)
    requires Inv(s) && id in s.procs && !s.procs[id].Ending? && status != Running && id in Mem(s)
    ensures var t := EndTask(s, id, status, now); ProcOk(t.journal, t.runs, t.log, id, t.procs[id])
  {
    var t := EndTask(s, id, status, now);
    var run := s.procs[id].run;
    ProcFacts(s, id);
    PutMoves(s.journal, id, Ended(Mem(s)[id], status, now));
    hide Inv, Moves, LaunchedSince, Owed, NotEmitted, RemovedFor, Put;
    assert HasSince(t.journal, id, run, status, t.journal.mem.version);
  }

  lemma EndKeepsInv(s: Agent, id: Id, status: Status, now: int)
    requires Inv(s) && id in s.procs && !s.procs[id].Ending? && status != Running && id in Mem(s)
    ensures Inv(EndTask(s, id, status, now))
  {
    var t := EndTask(s, id, status, now);
    var run := s.procs[id].run;
    ProcFacts(s, id);
    EndedProc(s, id, status, now);
    PutMoves(s.journal, id, Ended(Mem(s)[id], status, now));
    hide Inv, Moves, Owed, PendingIds, NotEmitted, Put, ProcOk, SameOthers, About, LaunchedSince, InAll, OnlySince,
      HasSince, RemovedFor, SameCore;
    OnlyRecordChanges(s, t, id, Ended(Mem(s)[id], status, now));
    NoEvent(s.log, id, run);
    assert TaskStep(s, t, id, run);
    TaskKeepsInv(s, t, id, run);
  }

  lemma CleanedProc(s: Agent, id: Id)
    requires CanClean(s, id) && id in Mem(s)
    requires ProcOk(s.journal, s.runs, s.log, id, s.procs[id])
    ensures var t := CleanTask(s, id); ProcOk(t.journal, t.runs, t.log, id, t.procs[id])
  {
    var p := s.procs[id];
    var e := Removed(p.run, p.left[0]);
    RemovedSnoc(s.log, e, p.run);
    StillNotEmitted(s.log, e, p.run);
    hide NotEmitted, RemovedFor, HasSince;
    MoveOne(p.gone, p.left);
  }

  lemma CleanKeepsInv(s: Agent, id: Id)
    requires Inv(s) && CanClean(s, id)
    ensures Inv(CleanTask(s, id))
  {
    var t := CleanTask(s, id);
    var p := s.procs[id];
    ProcFacts(s, id);
    NothingMoves(s.journal);
    CleanedProc(s, id);
    hide Inv, Moves, LaunchedSince, PendingIds, NotEmitted, ProcOk, SameOthers, About, InAll, OnlySince, HasSince,
      Owed, RemovedFor, SameCore, CanStep;
    OnlyProcChanges(s, t, id);
    OneEvent(s.log, Removed(p.run, p.left[0]), id, p.run);
    assert TaskStep(s, t, id, p.run);
    TaskKeepsInv(s, t, id, p.run);
  }

  lemma StillNotEmitted(log: seq<Event>, e: Event, run: nat)
    requires !e.Emitted?
    ensures NotEmitted(log, run) ==> NotEmitted(log + [e], run)
    ensures (log + [e])[..|log|] == log && (log + [e])[|log|] == e
  {
  }

  lemma MoveOne(gone: seq<File>, left: seq<File>)
    requires left != []
    ensures (gone + [left[0]]) + left[1..] == gone + left
    ensures SetOf(gone + [left[0]]) == SetOf(gone) + {left[0]}
  {
  }

  lemma FinishKeepsInv(s: Agent, id: Id)
    requires Inv(s) && CanEnd(s, id)
    ensures Inv(FinishTask(s, id))
  {
    var t := FinishTask(s, id);
    var p := s.procs[id];
    ProcFacts(s, id);
    NothingMoves(s.journal);
    LandedOnly(s.journal, id, p.run, p.status, p.ticket, p.since);
    hide Inv, Moves, LaunchedSince, Owed, PendingIds, NotEmitted, HasSince, OnlySince, ProcOk, SameOthers, About,
      InAll, RemovedFor, SameCore, CanStep;
    OnlyProcChanges(s, t, id);
    if id in Mem(s) { OneEvent(s.log, Emitted(p.run, p.status), id, p.run); } else { NoEvent(s.log, id, p.run); }
    assert TaskStep(s, t, id, p.run);
    TaskKeepsInv(s, t, id, p.run);
  }

  // ----- Steps of the writer -----

  /** Nothing but the chain of writes moves. */
  lemma CalmKeepsInv(s: Agent, t: Agent)
    requires Inv(s) && Moves(s.journal, t.journal) && Mem(t) == Mem(s)
    requires t.procs == s.procs && t.boot == s.boot && t.runs == s.runs && t.log == s.log
    ensures Inv(t)
  {
    CalmKeepsProcs(s, t);
    CalmKeepsBoot(s, t);
    CalmKeepsLog(s, t);
    hide ProcsOk, BootOk, LogOk, NoOrphans;
  }

  lemma CalmKeepsProcs(s: Agent, t: Agent)
    requires Inv(s) && Moves(s.journal, t.journal) && Mem(t) == Mem(s)
    requires t.procs == s.procs && t.boot == s.boot && t.runs == s.runs && t.log == s.log
    ensures ProcsOk(t)
  {
    hide BootOk, LogOk, NoOrphans, JournalRuns, Moves, ProcOk;
    forall id <- t.procs ensures ProcOk(t.journal, t.runs, t.log, id, t.procs[id]) {
      ProcKept(s.journal, t.journal, s.runs, t.runs, s.log, t.log, id, s.procs[id]);
    }
  }

  lemma CalmKeepsBoot(s: Agent, t: Agent)
    requires Inv(s) && Moves(s.journal, t.journal) && Mem(t) == Mem(s)
    requires t.procs == s.procs && t.boot == s.boot && t.runs == s.runs && t.log == s.log
    ensures BootOk(t.journal, t.procs, t.boot, t.runs, t.log)
  {
    hide ProcsOk, LogOk, NoOrphans, JournalRuns, Moves, OnlySince, PendingOk, Owed, NotEmitted;
    if s.boot.BootEnding? {
      OnlyInMem(s.journal, s.boot.id, s.boot.run, Failed, s.boot.since);
      MovesKeepOnly(s.journal, t.journal, s.boot.id, s.boot.run, Failed, s.boot.since);
    }
    forall id <- PendingIds(s.boot) ensures id !in s.procs {
      assert PendingOk(s.journal, s.procs, s.log, id);
      PendingFacts(s, id);
    }
    BootKept(s, t);
  }

  lemma PendingFacts(s: Agent, id: Id)
    requires PendingOk(s.journal, s.procs, s.log, id)
    ensures id !in s.procs && id in Mem(s) && Mem(s)[id].status == Running
  {
  }

  lemma OnlyInMem(j: Store<Records>, id: Id, run: nat, status: Status, since: nat)
    requires OnlySince(j, id, run, status, since)
    ensures Only(j.mem.value, id, run, status)
  {
  }

  lemma CalmKeepsLog(s: Agent, t: Agent)
    requires Inv(s) && Moves(s.journal, t.journal) && Mem(t) == Mem(s)
    requires t.procs == s.procs && t.boot == s.boot && t.runs == s.runs && t.log == s.log
    ensures LogOk(t)
  {
    hide ProcsOk, BootOk, NoOrphans, JournalRuns, Moves, LaunchedSince, LaunchOnce, EmitOnce, Only;
    forall k | 0 <= k < |s.log| && s.log[k].Emitted?
      ensures Only(Mem(t), s.runs[s.log[k].run], s.log[k].run, s.log[k].status)
    {
      EmittedInMem(s, k);
    }
    LogKept(s, t);
  }

  lemma WriterKeepsInv(s: Agent, step: Step)
    requires Inv(s) && CanStep(s, step)
    requires step.Checkpoint? || step.BeginWrite? || step.EndWrite? || step.Work?
    ensures Inv(Apply(s, step))
  {
    hide Inv, Moves;
    assert s.journal.Valid() by { InvIsValid(s); }
    FlushMoves(s.journal);
    WriteMoves(s.journal);
    NothingMoves(s.journal);
    CalmKeepsInv(s, Apply(s, step));
  }

  lemma InvIsValid(s: Agent)
    requires Inv(s)
    ensures s.journal.Valid()
  {
  }

  // ----- Forgetting records -----

  /** What the tasks in hand need of a step that is not about them. */
  lemma ProcsKept(s: Agent, t: Agent)
    requires ProcsOk(s) && s.journal.Valid() && Moves(s.journal, t.journal)
    requires t.procs == s.procs && t.runs == s.runs
    requires forall id <- s.procs :: SameCore(Mem(s), Mem(t), id) && Quiet(s.log, t.log, id, s.procs[id].run)
    ensures ProcsOk(t)
  {
    hide Moves, ProcOk, Quiet, SameCore;
    forall id <- t.procs ensures ProcOk(t.journal, t.runs, t.log, id, t.procs[id]) {
      ProcKept(s.journal, t.journal, s.runs, t.runs, s.log, t.log, id, s.procs[id]);
    }
  }

  ghost predicate Forgets(s: Agent, t: Agent, ids: set<Id>) {
    && Moves(s.journal, t.journal) && t.procs == s.procs && t.boot == s.boot && t.runs == s.runs
    && t.log == s.log + [Purged(ids)] && Mem(t).Keys == Mem(s).Keys - ids
    && (forall id <- Mem(t) :: SameCore(Mem(s), Mem(t), id))
    && (forall id <- ids :: id in Mem(s) ==> Mem(s)[id].status != Running)
  }

  lemma PurgedIsQuiet(log: seq<Event>, ids: set<Id>)
    ensures forall id, run :: Quiet(log, log + [Purged(ids)], id, run)
    ensures (log + [Purged(ids)])[..|log|] == log && (log + [Purged(ids)])[|log|] == Purged(ids)
  {
  }

  lemma ForgetKeepsProcs(s: Agent, t: Agent, ids: set<Id>)
    requires Inv(s) && Forgets(s, t, ids)
    ensures ProcsOk(t)
  {
    PurgedIsQuiet(s.log, ids);
    hide BootOk, LogOk, NoOrphans, JournalRuns, Moves, ProcOk, Quiet;
    forall id <- t.procs ensures ProcOk(t.journal, t.runs, t.log, id, t.procs[id]) {
      ProcFacts(s, id);
      if id in Mem(t) || id !in Mem(s) {
        hide ProcsOk;
        ProcKept(s.journal, t.journal, s.runs, t.runs, s.log, t.log, id, s.procs[id]);
      } else {
        hide ProcsOk;
        EndingForgotten(s.journal, t.journal, s.runs, s.log, t.log, id, s.procs[id]);
      }
    }
  }

  lemma ForgetKeepsBoot(s: Agent, t: Agent, ids: set<Id>)
    requires Inv(s) && Forgets(s, t, ids)
    ensures BootOk(t.journal, t.procs, t.boot, t.runs, t.log)
  {
    PurgedIsQuiet(s.log, ids);
    hide ProcsOk, LogOk, NoOrphans, JournalRuns, Moves, OnlySince, PendingOk, Owed, Quiet;
    forall id <- PendingIds(s.boot) ensures id !in s.procs && SameCore(Mem(s), Mem(t), id) { PendingFacts(s, id); }
    if s.boot.BootEnding? {
      var b := s.boot;
      QuietKeeps(s.log, t.log, b.id, b.run);
      hide NotEmitted;
      OnlyInMem(s.journal, b.id, b.run, Failed, b.since);
      assert Only(Mem(t), b.id, b.run, Failed);
      MovesKeepOnly(s.journal, t.journal, b.id, b.run, Failed, b.since);
    }
    BootKept(s, t);
  }

  lemma ForgetKeepsLog(s: Agent, t: Agent, ids: set<Id>)
    requires Inv(s) && Forgets(s, t, ids)
    ensures LogOk(t)
  {
    PurgedIsQuiet(s.log, ids);
    hide ProcsOk, BootOk, NoOrphans, JournalRuns, Moves, LaunchedSince, LaunchOnce, EmitOnce, Quiet;
    forall k | 0 <= k < |s.log| && s.log[k].Emitted?
      ensures Only(Mem(t), s.runs[s.log[k].run], s.log[k].run, s.log[k].status)
    {
      EmittedInMem(s, k);
      var id := s.runs[s.log[k].run];
      if id in Mem(t) { assert SameCore(Mem(s), Mem(t), id); }
    }
    hide EmittedOk;
    LogKept(s, t);
  }

  lemma ForgetKeepsInv(s: Agent, t: Agent, ids: set<Id>)
    requires Inv(s) && Forgets(s, t, ids)
    ensures Inv(t)
  {
    ForgetKeepsProcs(s, t, ids);
    ForgetKeepsBoot(s, t, ids);
    ForgetKeepsLog(s, t, ids);
    hide ProcsOk, BootOk, LogOk;
    forall id <- Mem(t)
      ensures Mem(t)[id].run < |t.runs| && t.runs[Mem(t)[id].run] == id
      ensures Mem(t)[id].status == Running ==> id in t.procs || id in PendingIds(t.boot)
    {
      assert SameCore(Mem(s), Mem(t), id);
    }
  }

  lemma AckMoves(j: Store<Records>, id: Id, r: Record, now: int)
    requires j.Valid()
    ensures var k := FlushJournal(PurgeJournal(Patch(j, id, r), now));
            Moves(j, k) && k.mem.value == Purge(j.mem.value[id := r], now)
  {
    hide Purge;
  }

  lemma AckKeepsInv(s: Agent, id: Id, now: int)
    requires Inv(s)
    ensures Inv(Acknowledge(s, id, now))
  {
    if id in Mem(s) && !IsActive(s, id) {
      var t := Acknowledge(s, id, now);
      var r := Mem(s)[id].(acked := true, updatedAt := now);
      var marked := Mem(s)[id := r];
      InvIsValid(s);
      AckMoves(s.journal, id, r, now);
      PurgeMoves(Patch(s.journal, id, r), now) by { PatchMoves(s.journal, id, r); }
      hide Inv, Moves, PurgeJournal, FlushJournal, CanStep;
      assert Mem(t) == Purge(marked, now);
      var ids := marked.Keys - Mem(t).Keys;
      forall other <- ids ensures Mem(s)[other].status != Running {}
      assert Mem(t).Keys == Mem(s).Keys - ids;
      ForgetKeepsInv(s, t, ids);
    }
  }

  // ----- Restarting -----

  lemma ReloadedIs(s: Agent, now: int)
    requires s.journal.Valid()
    ensures var j := Reloaded(s, now);
            && j.Valid() && j.snapshot == s.journal.file && j.file == s.journal.file
            && j.mem.value == Purge(s.journal.file.value, now)
  {
    hide Purge;
  }

  /** What reached the file is everywhere after a restart, unless it was forgotten. */
  lemma ReloadedHas(s: Agent, now: int, id: Id)
    requires s.journal.Valid()
    ensures var j := Reloaded(s, now);
            id in j.mem.value ==>
              && id in s.journal.file.value && j.mem.value[id] == s.journal.file.value[id]
              && HasSince(j, id, j.mem.value[id].run, j.mem.value[id].status, 0)
  {
    ReloadedIs(s, now);
    hide Reloaded;
  }

  lemma ReloadedOnly(s: Agent, now: int, id: Id, run: nat, status: Status)
    requires s.journal.Valid() && OnlySince(s.journal, id, run, status, 0)
    ensures OnlySince(Reloaded(s, now), id, run, status, 0)
  {
    ReloadedIs(s, now);
    hide Reloaded;
  }

  lemma RebootKeepsBoot(s: Agent, order: seq<Id>, now: int)
    requires Inv(s) && CanReboot(s, order, now)
    ensures var t := RebootAgent(s, order, now);
            BootOk(t.journal, t.procs, t.boot, t.runs, t.log) && NoOrphans(Mem(t), t.procs, t.boot)
  {
    var t := RebootAgent(s, order, now);
    hide ProcsOk, BootOk, NoOrphans, Reloaded, LaunchOnce, EmitOnce, LaunchedOk, HasSince, NotEmitted;
    assert PendingIds(t.boot) == order by { NextBootPending(Mem(t), order); }
    forall id <- order ensures PendingOk(t.journal, t.procs, t.log, id) {
      ReloadedHas(s, now, id);
      var run := Mem(t)[id].run;
      RunningNotEmitted(s, id);
      StillNotEmitted(s.log, t.log[|s.log|], run);
    }
    assert NoOrphans(Mem(t), t.procs, t.boot) by {
      hide PendingOk;
      forall id <- Mem(t) | Mem(t)[id].status == Running ensures id in order { assert id in Stale(Mem(t)); }
      BootHasNoOrphans(t, order);
    }
    hide PendingOk, JournalRuns, LogOk;
    NextBootOk(t, order);
  }

  lemma BootHasNoOrphans(t: Agent, order: seq<Id>)
    requires PendingIds(t.boot) == order
    requires forall id <- Mem(t) :: Mem(t)[id].status == Running ==> id in order
    ensures NoOrphans(Mem(t), t.procs, t.boot)
  {
  }

  lemma NextBootPending(tasks: Records, todo: seq<Id>)
    requires forall id <- todo :: id in tasks
    ensures PendingIds(NextBoot(tasks, todo)) == todo
  {
  }

  lemma NextBootOk(t: Agent, todo: seq<Id>)
    requires forall id <- todo :: id in Mem(t)
    requires t.boot == NextBoot(Mem(t), todo) && Distinct(todo)
    requires forall id <- todo :: PendingOk(t.journal, t.procs, t.log, id)
    ensures BootOk(t.journal, t.procs, t.boot, t.runs, t.log)
  {
    hide PendingOk;
    NextBootPending(Mem(t), todo);
    if todo != [] { assert [] + Mem(t)[todo[0]].artifacts == Mem(t)[todo[0]].artifacts; }
  }

  /** A task the file shows running has no outcome yet. */
  lemma RunningNotEmitted(s: Agent, id: Id)
    requires EmittedOk(s.journal, s.runs, s.log) && JournalRuns(s.journal, s.runs)
    requires id in s.journal.file.value && s.journal.file.value[id].status == Running
    ensures NotEmitted(s.log, s.journal.file.value[id].run)
  {
    var run := s.journal.file.value[id].run;
    forall k | 0 <= k < |s.log| ensures !(s.log[k].Emitted? && s.log[k].run == run) {
      if s.log[k].Emitted? && s.log[k].run == run { OnlyInFile(s.journal, id, run, s.log[k].status); }
    }
  }

  lemma OnlyInFile(j: Store<Records>, id: Id, run: nat, status: Status)
    requires OnlySince(j, id, run, status, 0)
    ensures Only(j.file.value, id, run, status)
  {
  }

  lemma RebootKeepsLog(s: Agent, order: seq<Id>, now: int)
    requires Inv(s) && CanReboot(s, order, now)
    ensures LogOk(RebootAgent(s, order, now))
  {
    var t := RebootAgent(s, order, now);
    hide ProcsOk, BootOk, NoOrphans, JournalRuns, Reloaded, LaunchOnce, EmitOnce, NextBoot;
    LogSnoc(s.log, t.log[|s.log|]);
    forall id | LaunchedSince(t.log, id) ensures InAll(t.journal, id) {
      LaunchedSnoc(s.log, t.log[|s.log|], id);
      assert InAll(s.journal, id);
      ReloadedIs(s, now);
    }
    hide LaunchedOk, LaunchedSince;
    forall k | 0 <= k < |t.log| && t.log[k].Emitted?
      ensures t.log[k].run < |t.runs| && t.log[k].status != Running
      ensures OnlySince(t.journal, t.runs[t.log[k].run], t.log[k].run, t.log[k].status, 0)
    {
      assert t.log[k] == s.log[k];
      ReloadedOnly(s, now, s.runs[s.log[k].run], s.log[k].run, s.log[k].status);
    }
    hide EmittedOk;
    assert LogRuns(t.runs, t.log);
  }

  lemma RebootKeepsInv(s: Agent, order: seq<Id>, now: int)
    requires Inv(s) && CanReboot(s, order, now)
    ensures Inv(RebootAgent(s, order, now))
  {
    RebootKeepsBoot(s, order, now);
    RebootKeepsLog(s, order, now);
    hide BootOk, NoOrphans, LogOk, Reloaded, NextBoot;
    ReloadedIs(s, now);
  }

  // ----- Recovery -----

  lemma BootFacts(s: Agent)
    requires Inv(s) && !s.boot.Booted?
    ensures var b := s.boot; b.run < |s.runs| && s.runs[b.run] == b.id && NotEmitted(s.log, b.run)
    ensures s.boot.BootCleaning? ==>
              PendingOk(s.journal, s.procs, s.log, s.boot.id) && Mem(s)[s.boot.id].run == s.boot.run
                                     && s.boot.gone + s.boot.left == Mem(s)[s.boot.id].artifacts
    ensures forall id <- s.procs :: s.procs[id].run != s.boot.run
    ensures forall id <- s.boot.todo ::
              PendingOk(s.journal, s.procs, s.log, id) && id != s.boot.id && Mem(s)[id].run != s.boot.run
    ensures Distinct(s.boot.todo)
  {
    hide LogOk, NoOrphans, HasSince, NotEmitted, OnlySince, Owed;
    var b := s.boot;
    if b.BootCleaning? {
      assert b.id in PendingIds(b);
      assert PendingOk(s.journal, s.procs, s.log, b.id);
      assert PendingIds(b)[0] == b.id;
      TailDistinct(b.id, b.todo);
    }
    forall id <- b.todo ensures PendingOk(s.journal, s.procs, s.log, id) && id != b.id && Mem(s)[id].run != b.run {
      assert id in PendingIds(b);
      assert s.runs[Mem(s)[id].run] == id;
    }
    forall id <- s.procs ensures s.procs[id].run != b.run { ProcHasRecord(s, id); }
  }

  lemma TailDistinct(id: Id, todo: seq<Id>)
    requires Distinct([id] + todo)
    ensures Distinct(todo) && id !in todo
  {
    var ids := [id] + todo;
    assert ids[0] == id && ids[1..] == todo;
  }

  /** The event recovery adds is about its own run. */
  lemma BootIsQuiet(s: Agent, e: Event)
    requires Inv(s) && !s.boot.Booted?
    requires (e.Removed? || e.Emitted?) && e.run == s.boot.run
    ensures forall id <- s.procs :: Quiet(s.log, s.log + [e], id, s.procs[id].run)
    ensures forall id <- s.boot.todo :: id in Mem(s) && Quiet(s.log, s.log + [e], id, Mem(s)[id].run)
    ensures (s.log + [e])[..|s.log|] == s.log && (s.log + [e])[|s.log|] == e
  {
    BootFacts(s);
    hide Inv, HasSince, NotEmitted;
  }

  lemma BootCleanKeepsInv(s: Agent)
    requires Inv(s) && CanBootClean(s)
    ensures Inv(CleanAtBoot(s))
  {
    var t := CleanAtBoot(s);
    var b := s.boot;
    var e := Removed(b.run, b.left[0]);
    BootFacts(s);
    BootIsQuiet(s, e);
    NothingMoves(s.journal);
    BootCleanKeepsBoot(s);
    assert ProcsOk(t) by {
      hide BootOk, LogOk, NoOrphans, JournalRuns, Moves, Quiet, ProcOk, NotEmitted, PendingOk;
      ProcsKept(s, t);
    }
    assert LogOk(t) by {
      hide ProcsOk, BootOk, NoOrphans, JournalRuns, Moves, Quiet, LaunchedSince, NotEmitted, PendingOk, LaunchOnce,
        EmitOnce;
      forall k | 0 <= k < |s.log| && s.log[k].Emitted?
        ensures Only(Mem(t), s.runs[s.log[k].run], s.log[k].run, s.log[k].status)
      {
        EmittedInMem(s, k);
      }
      LogKept(s, t);
    }
    hide ProcsOk, BootOk, LogOk, NotEmitted, PendingOk, Moves;
    assert PendingIds(t.boot) == PendingIds(s.boot);
  }

  lemma BootCleanKeepsBoot(s: Agent)
    requires Inv(s) && CanBootClean(s)
    ensures var t := CleanAtBoot(s); BootOk(t.journal, t.procs, t.boot, t.runs, t.log)
  {
    var t := CleanAtBoot(s);
    var b := s.boot;
    var e := Removed(b.run, b.left[0]);
    BootFacts(s);
    MoveOne(b.gone, b.left);
    hide ProcsOk, LogOk, NoOrphans, JournalRuns, HasSince, CanStep;
    forall id <- PendingIds(t.boot) ensures PendingOk(t.journal, t.procs, t.log, id) {
      assert id in PendingIds(s.boot);
      assert PendingOk(s.journal, s.procs, s.log, id);
      StillNotEmitted(s.log, e, Mem(s)[id].run);
    }
  }

  lemma BootPutKeepsInv(s: Agent, now: int)
    requires Inv(s) && CanBootPut(s)
    ensures Inv(PutAtBoot(s, now))
  {
    BootPutKeepsProcs(s, now);
    BootPutKeepsBoot(s, now);
    BootPutKeepsLog(s, now);
    BootPutKeepsRecords(s, now);
    hide ProcsOk, BootOk, LogOk, NoOrphans, JournalRuns, CanStep;
    PutMoves(s.journal, s.boot.id, Ended(Mem(s)[s.boot.id], Failed, now));
  }

  lemma BootPutKeepsProcs(s: Agent, now: int)
    requires Inv(s) && CanBootPut(s)
    ensures ProcsOk(PutAtBoot(s, now))
  {
    var t := PutAtBoot(s, now);
    BootFacts(s);
    PutMoves(s.journal, s.boot.id, Ended(Mem(s)[s.boot.id], Failed, now));
    PendingFacts(s, s.boot.id);
    hide BootOk, LogOk, NoOrphans, JournalRuns, Moves, ProcOk, NotEmitted, PendingOk, Put, CanStep;
    ProcsKept(s, t);
  }

  lemma BootPutKeepsRecords(s: Agent, now: int)
    requires Inv(s) && CanBootPut(s)
    ensures var t := PutAtBoot(s, now); JournalRuns(t.journal, t.runs) && NoOrphans(Mem(t), t.procs, t.boot)
  {
    var t := PutAtBoot(s, now);
    var b := s.boot;
    PutMoves(s.journal, b.id, Ended(Mem(s)[b.id], Failed, now));
    hide BootOk, LogOk, ProcsOk, Moves, Put, CanStep;
    assert Mem(t) == Mem(s)[b.id := Ended(Mem(s)[b.id], Failed, now)];
  }

  lemma BootPutKeepsBoot(s: Agent, now: int)
    requires Inv(s) && CanBootPut(s)
    ensures var t := PutAtBoot(s, now); BootOk(t.journal, t.procs, t.boot, t.runs, t.log)
  {
    var t := PutAtBoot(s, now);
    var b := s.boot;
    BootFacts(s);
    PutMoves(s.journal, b.id, Ended(Mem(s)[b.id], Failed, now));
    PendingFacts(s, b.id);
    hide ProcsOk, LogOk, NoOrphans, JournalRuns, Moves, NotEmitted, PendingOk, Put, Owed, CanStep;
    forall id <- b.todo ensures PendingOk(t.journal, t.procs, t.log, id) {
      PendingFacts(s, id);
      PendingKept(s.journal, t.journal, s.procs, t.procs, s.log, t.log, id);
    }
  }

  lemma BootPutKeepsLog(s: Agent, now: int)
    requires Inv(s) && CanBootPut(s)
    ensures LogOk(PutAtBoot(s, now))
  {
    var t := PutAtBoot(s, now);
    var b := s.boot;
    BootFacts(s);
    PutMoves(s.journal, b.id, Ended(Mem(s)[b.id], Failed, now));
    hide ProcsOk, BootOk, NoOrphans, JournalRuns, Moves, PendingOk, Put, LaunchedSince, LaunchOnce, EmitOnce, CanStep;
    forall k | 0 <= k < |s.log| && s.log[k].Emitted?
      ensures Only(Mem(t), s.runs[s.log[k].run], s.log[k].run, s.log[k].status)
    {
      EmittedInMem(s, k);
      assert s.log[k].run != b.run;
    }
    hide NotEmitted;
    LogKept(s, t);
  }

  lemma LandedOnly(j: Store<Records>, id: Id, run: nat, status: Status, ticket: nat, since: nat)
    requires j.Valid() && OnlySince(j, id, run, status, since) && Owed(j, ticket, since) && ticket <= j.finished
    ensures OnlySince(j, id, run, status, 0)
  {
  }

  lemma BootFinishKeepsInv(s: Agent)
    requires Inv(s) && CanBootFinish(s)
    ensures Inv(FinishAtBoot(s))
  {
    var t := FinishAtBoot(s);
    var b := s.boot;
    var e := Emitted(b.run, Failed);
    BootFacts(s);
    BootIsQuiet(s, e);
    NothingMoves(s.journal);
    assert ProcsOk(t) by {
      hide BootOk, LogOk, NoOrphans, JournalRuns, Moves, Quiet, ProcOk, NotEmitted, PendingOk;
      ProcsKept(s, t);
    }
    BootFinishKeepsBoot(s);
    assert LogOk(t) by {
      LandedOnly(s.journal, b.id, b.run, Failed, b.ticket, b.since);
      hide ProcsOk, BootOk, NoOrphans, JournalRuns, Moves, Quiet, LaunchedSince, NotEmitted, PendingOk, LaunchOnce,
        EmitOnce, OnlySince, Owed;
      forall k | 0 <= k < |s.log| && s.log[k].Emitted?
        ensures Only(Mem(t), s.runs[s.log[k].run], s.log[k].run, s.log[k].status)
      {
        EmittedInMem(s, k);
      }
      LogKept(s, t);
    }
    hide ProcsOk, BootOk, LogOk, NotEmitted, PendingOk, Moves;
    NextBootPending(Mem(t), b.todo);
  }

  lemma BootFinishKeepsBoot(s: Agent)
    requires Inv(s) && CanBootFinish(s)
    ensures var t := FinishAtBoot(s); BootOk(t.journal, t.procs, t.boot, t.runs, t.log)
  {
    var t := FinishAtBoot(s);
    var b := s.boot;
    BootFacts(s);
    BootIsQuiet(s, Emitted(b.run, Failed));
    NothingMoves(s.journal);
    hide Inv, Moves, NotEmitted, PendingOk, Quiet, CanStep;
    assert s.journal.Valid() by { InvIsValid(s); }
    forall id <- b.todo ensures PendingOk(t.journal, t.procs, t.log, id) {
      PendingFacts(s, id);
      PendingKept(s.journal, t.journal, s.procs, t.procs, s.log, t.log, id);
    }
    NextBootOk(t, b.todo);
  }

  // ----- Every step -----

  lemma StepKeepsInv(s: Agent, step: Step)
    requires Inv(s) && CanStep(s, step)
    ensures Inv(Apply(s, step))
  {
    hide Inv, StartTask, LaunchTask, PatchTask, CancelTask, EndTask, ThrowTask, CleanTask, FinishTask, Acknowledge,
      RebootAgent, CleanAtBoot, PutAtBoot, FinishAtBoot;
    match step
    case Start(id, now) => StartKeepsInv(s, id, now);
    case Launch(id) => LaunchKeepsInv(s, id);
    case Declare(id, file, now) => PatchKeepsInv(s, id, WithFile(Mem(s)[id].artifacts, file), now);
    case Keep(id, file, now) => PatchKeepsInv(s, id, WithoutFile(Mem(s)[id].artifacts, file), now);
    case Progress(id, now) => PatchKeepsInv(s, id, Mem(s)[id].artifacts, now);
    case Work(_) => WriterKeepsInv(s, step);
    case Cancel(id) => CancelKeepsInv(s, id);
    case Succeed(id, now) => EndKeepsInv(s, id, Done, now);
    case Throw(id, own) => ThrowKeepsInv(s, id, own);
    case CleanOne(id) => CleanKeepsInv(s, id);
    case FailPut(id, now) => EndKeepsInv(s, id, if s.procs[id].cancelled then Cancelled else Failed, now);
    case Finish(id) => FinishKeepsInv(s, id);
    case AckResult(id, now) => AckKeepsInv(s, id, now);
    case Checkpoint => WriterKeepsInv(s, step);
    case BeginWrite => WriterKeepsInv(s, step);
    case EndWrite => WriterKeepsInv(s, step);
    case Reboot(order, now) => RebootKeepsInv(s, order, now);
    case BootClean => BootCleanKeepsInv(s);
    case BootPut(now) => BootPutKeepsInv(s, now);
    case BootFinish => BootFinishKeepsInv(s);
  }

  lemma {:induction false} RunKeepsInv(run: seq<Agent>, steps: seq<Step>, files: set<File>, i: nat)
    requires IsTrace(run, steps) && run[0] == Initial(files) && i < |run|
    ensures Inv(run[i])
  {
    if i == 0 {
      InitialInv(files);
    } else {
      RunKeepsInv(run, steps, files, i - 1);
      hide Inv, Apply, CanStep;
      StepKeepsInv(run[i - 1], steps[i - 1]);
    }
  }

  lemma InitialInv(files: set<File>)
    ensures Inv(Initial(files))
  {
  }
}
