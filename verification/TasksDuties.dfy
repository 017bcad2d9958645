/**
 * What the task runner must do: every task in hand can be brought to its end, recovery completes, and
 * files and records disappear exactly when they should.
 */
module TasksDuties {
  import opened Options
  import opened StateStore
  import opened Tasks
  import opened TasksSafety
  import opened TasksSteps
  import opened TasksResults

  // ----- Starting -----

  /** A start writes a new, unacknowledged record ahead of the execution; a known id is left alone. */
  lemma StartWritesAhead(s: Agent, id: Id, now: int)
    ensures CanStep(s, Start(id, now)) <==> id !in s.procs || id in Mem(s)
    ensures CanStep(s, Start(id, now)) ==>
              var t := Apply(s, Start(id, now));
              if id in Mem(s) then t == s
              else
                && Mem(t) == Mem(s)[id := Record(|s.runs|, Running, [], false, now, None)]
                && t.runs == s.runs + [id] && t.log == s.log && t.files == s.files && t.boot == s.boot
                && t.journal.enqueued == s.journal.enqueued + 1 && t.journal.file == s.journal.file
                && t.procs == s.procs[id := Putting(|s.runs|, t.journal.enqueued, t.journal.mem.version)]
  {
  }

  // ----- Files -----

  /** The step deletes the file: it is the next one of a task, or of recovery, that is being cleaned up. */
  predicate Deletes(s: Agent, step: Step, file: File) {
    match step
    case CleanOne(id) => id in s.procs && s.procs[id].Cleaning? && s.procs[id].left != [] && s.procs[id].left[0] == file
    case BootClean => s.boot.BootCleaning? && s.boot.left != [] && s.boot.left[0] == file
    case _ => false
  }

  /** The file is there as far as the steps tell: it was written or there from the start, and not deleted since. */
  ghost predicate IsThere(run: seq<Agent>, steps: seq<Step>, files: set<File>, n: nat, file: File)
    requires |run| == |steps| + 1 && n < |run|
  {
    if n == 0 then file in files
    else if steps[n - 1].Work? && steps[n - 1].file == file then true
    else !Deletes(run[n - 1], steps[n - 1], file) && IsThere(run, steps, files, n - 1, file)
  }

  lemma StepFiles(s: Agent, step: Step, file: File)
    requires CanStep(s, step)
    ensures file in Apply(s, step).files
            <==> (step.Work? && step.file == file) || (!Deletes(s, step, file) && file in s.files)
  {
    hide Put, Patch, FlushJournal, PurgeJournal, WithFile, WithoutFile, NextBoot, Reloaded, IsOrder;
  }

  lemma {:induction false} FilesFollowSteps(run: seq<Agent>, steps: seq<Step>, files: set<File>, n: nat, file: File)
    requires IsTrace(run, steps) && run[0] == Initial(files) && n < |run|
    ensures file in run[n].files <==> IsThere(run, steps, files, n, file)
    decreases n
  {
    if n > 0 {
      hide Apply, CanStep, Deletes;
      FilesFollowSteps(run, steps, files, n - 1, file);
      StepFiles(run[n - 1], steps[n - 1], file);
    }
  }

  // ----- Records -----

  /** A finished record is forgotten once it is acknowledged or more than seven days old. */
  predicate IsOld(r: Record, now: int) {
    && (r.status == Done || r.status == Failed || r.status == Cancelled)
    && (r.acked || now - (if r.finishedAt.Some? then r.finishedAt.value else r.updatedAt) > 604_800_000)
  }

  lemma OldIsForgettable(r: Record, now: int)
    ensures IsOld(r, now) <==> Forgettable(r, now)
  {
  }

  lemma PurgedExactly(tasks: Records, now: int, id: Id)
    ensures id in Purge(tasks, now) <==> id in tasks && !IsOld(tasks[id], now)
    ensures id in Purge(tasks, now) ==> Purge(tasks, now)[id] == tasks[id]
  {
    hide Forgettable, IsOld;
    if id in tasks { OldIsForgettable(tasks[id], now); }
  }

  lemma PurgeJournalValue(j: Store<Records>, now: int)
    ensures PurgeJournal(j, now).mem.value == Purge(j.mem.value, now)
  {
    hide Purge;
  }

  lemma AckMemory(s: Agent, id: Id, now: int)
    requires id in Mem(s) && !IsActive(s, id)
    ensures Mem(Acknowledge(s, id, now))
            == Purge(Mem(s)[id := Mem(s)[id].(acked := true, updatedAt := now)], now)
  {
    PurgeJournalValue(Patch(s.journal, id, Mem(s)[id].(acked := true, updatedAt := now)), now);
    hide PurgeJournal, Purge, IsActive;
  }

  /**
   * An acknowledgement of a task that is neither unknown nor active marks its record and then forgets
   * exactly the old ones, itself included; any other one changes nothing.
   */
  lemma AckForgetsExactly(s: Agent, acked: Id, now: int, id: Id)
    ensures var t := Apply(s, AckResult(acked, now));
            if acked !in Mem(s) || (acked in s.procs && !s.procs[acked].Putting?) then t == s
            else
              var was := Mem(s)[acked := Mem(s)[acked].(acked := true, updatedAt := now)];
              && (id in Mem(t) <==> id in was && !IsOld(was[id], now))
              && (id in Mem(t) ==> Mem(t)[id] == was[id])
              && !t.journal.dirty
  {
    if acked in Mem(s) && !IsActive(s, acked) {
      var was := Mem(s)[acked := Mem(s)[acked].(acked := true, updatedAt := now)];
      AckMemory(s, acked, now);
      PurgedExactly(was, now, id);
      hide Purge, IsOld;
    }
  }

  /** A starting process has exactly what the file lists, save for what is old by then. */
  lemma RebootForgetsExactly(s: Agent, order: seq<Id>, now: int, id: Id)
    requires CanStep(s, Reboot(order, now))
    ensures var t, file := Apply(s, Reboot(order, now)), s.journal.file.value;
            && (id in Mem(t) <==> id in file && !IsOld(file[id], now))
            && (id in Mem(t) ==> Mem(t)[id] == file[id])
            && t.procs == map[]
            && (id in PendingIds(t.boot) <==> id in Mem(t) && Mem(t)[id].status == Running)
  {
    PurgeJournalValue(Load(s.journal.file), now);
    PurgedExactly(s.journal.file.value, now, id);
    NextBootPending(Reloaded(s, now).mem.value, order);
    hide PurgeJournal, Purge, IsOld, NextBoot, PendingIds;
  }

  /** No other step forgets a record. */
  lemma OthersForgetNothing(s: Agent, step: Step, id: Id)
    requires CanStep(s, step) && !step.AckResult? && !step.Reboot? && id in Mem(s)
    ensures id in Mem(Apply(s, step))
  {
    hide Put, Patch, WithFile, WithoutFile, NextBoot, Ended, NewRecord;
    PutAndPatch(s);
  }

  lemma PutAndPatch(s: Agent)
    ensures forall id: Id, r :: Put(s.journal, id, r).0.mem.value == Mem(s)[id := r]
    ensures forall id: Id, r :: Patch(s.journal, id, r).mem.value == Mem(s)[id := r]
  {
  }

  // ----- Restarting -----

  lemma OrderExists(ids: set<Id>) returns (order: seq<Id>)
    ensures IsOrder(order, ids)
  {
    if ids == {} {
      order := [];
    } else {
      var id :| id in ids;
      var rest := OrderExists(ids - {id});
      order := [id] + rest;
      forall x <- ids ensures x in order {
        if x != id { assert x in ids - {id}; }
      }
    }
  }

  /** A process can be restarted in any state. */
  lemma CanAlwaysReboot(s: Agent, now: int) returns (order: seq<Id>)
    ensures CanStep(s, Reboot(order, now))
  {
    order := OrderExists(Stale(Reloaded(s, now).mem.value));
  }

  // ----- No execution is stuck -----

  /** How many steps the writer still has to make. */
  function ToWrite(j: Store<Records>): nat
    requires j.started <= j.enqueued && j.finished <= j.enqueued
  {
    2 * j.enqueued - j.started - j.finished
  }

  function WriterStep(s: Agent): Step {
    if s.journal.started == s.journal.finished then BeginWrite else EndWrite
  }

  lemma WriterMovesOn(s: Agent)
    requires s.journal.Valid() && s.journal.finished < s.journal.enqueued
    ensures CanStep(s, WriterStep(s))
    ensures var t := Apply(s, WriterStep(s));
            && t.procs == s.procs && t.boot == s.boot && t.log == s.log && t.journal.enqueued == s.journal.enqueued
            && t.journal.Valid() && ToWrite(t.journal) < ToWrite(s.journal)
  {
  }

  /** What happens next to a task in hand when its executor throws. */
  function NextOf(s: Agent, id: Id, now: int): Step
    requires id in s.procs
  {
    match s.procs[id]
    case Putting(_, ticket, _) => if ticket <= s.journal.finished then Launch(id) else WriterStep(s)
    case Executing(_, _) => Throw(id, false)
    case Cleaning(_, _, _, left) => if left == [] then FailPut(id, now) else CleanOne(id)
    case Ending(_, _, ticket, _) => if ticket <= s.journal.finished then Finish(id) else WriterStep(s)
  }

  function Stage(p: Proc): nat {
    match p
    case Putting(_, _, _) => 3
    case Executing(_, _) => 2
    case Cleaning(_, _, _, _) => 1
    case Ending(_, _, _, _) => 0
  }

  function LeftOf(p: Proc): nat {
    if p.Cleaning? then |p.left| else 0
  }

  lemma TicketIsChained(s: Agent, id: Id)
    requires Inv(s) && id in s.procs
    ensures s.journal.Valid()
    ensures s.procs[id].Putting? || s.procs[id].Ending? ==> s.procs[id].ticket <= s.journal.enqueued
  {
    ProcFacts(s, id);
    hide ProcsOk, BootOk, LogOk, NoOrphans, JournalRuns, NotEmitted, HasSince, OnlySince;
  }

  lemma LaunchMovesOn(s: Agent, id: Id)
    requires CanStep(s, Launch(id))
    ensures var p, t := s.procs[id], Apply(s, Launch(id));
            t.procs == s.procs[id := Executing(p.run, false)] && t.log == s.log + [Launched(id, p.run)]
  {
  }

  lemma ThrowMovesOn(s: Agent, id: Id)
    requires IsExecuting(s, id)
    ensures CanStep(s, Throw(id, false))
    ensures var p, t := s.procs[id], Apply(s, Throw(id, false));
            t.procs == s.procs[id := Cleaning(p.run, p.aborted, [], Mem(s)[id].artifacts)]
  {
  }

  lemma CleanMovesOn(s: Agent, id: Id)
    requires CanStep(s, CleanOne(id))
    ensures var p, t := s.procs[id], Apply(s, CleanOne(id));
            && t.procs == s.procs[id := Cleaning(p.run, p.cancelled, p.gone + [p.left[0]], p.left[1..])]
            && t.log == s.log + [Removed(p.run, p.left[0])] && p.left[0] !in t.files
  {
  }

  lemma FailMovesOn(s: Agent, id: Id, now: int)
    requires CanStep(s, FailPut(id, now))
    ensures var p, t := s.procs[id], Apply(s, FailPut(id, now));
            && id in t.procs && t.procs[id].Ending? && t.procs[id].run == p.run
            && t.procs[id].status == if p.cancelled then Cancelled else Failed
  {
    hide Put, Ended;
  }

  lemma FinishMovesOn(s: Agent, id: Id)
    requires CanStep(s, Finish(id))
    ensures Apply(s, Finish(id)).procs == s.procs - {id}
  {
  }

  /** Every stage leads to the next one: launched, thrown out, cleaned up file by file, recorded, announced. */
  lemma TaskMovesOn(s: Agent, id: Id, now: int)
    requires Inv(s) && id in s.procs
    ensures CanStep(s, NextOf(s, id, now))
    ensures var p, t := s.procs[id], Apply(s, NextOf(s, id, now));
            match p
            case Putting(run, ticket, _) =>
              ticket <= s.journal.finished ==>
                && id in t.procs && t.procs[id] == Executing(run, false)
                && t.log == s.log + [Launched(id, run)]
            case Executing(run, aborted) =>
              && id in Mem(s) && id in t.procs
              && t.procs[id] == Cleaning(run, aborted, [], Mem(s)[id].artifacts)
            case Cleaning(run, cancelled, gone, left) =>
              && id in t.procs
              && if left != [] then
                   && t.procs[id] == Cleaning(run, cancelled, gone + [left[0]], left[1..])
                   && t.log == s.log + [Removed(run, left[0])] && left[0] !in t.files
                 else
                   && t.procs[id].Ending? && t.procs[id].run == run
                   && t.procs[id].status == if cancelled then Cancelled else Failed
            case Ending(_, _, ticket, _) => ticket <= s.journal.finished ==> t.procs == s.procs - {id}
  {
    ProcFacts(s, id);
    TicketIsChained(s, id);
    hide Inv, ProcOk, NotEmitted, PendingIds, Apply;
    match s.procs[id]
    case Putting(_, ticket, _) =>
      if ticket <= s.journal.finished { LaunchMovesOn(s, id); } else { WriterMovesOn(s); }
    case Executing(_, _) => ThrowMovesOn(s, id);
    case Cleaning(_, _, _, left) =>
      if left == [] { FailMovesOn(s, id, now); } else { CleanMovesOn(s, id); }
    case Ending(_, _, ticket, _) =>
      if ticket <= s.journal.finished { FinishMovesOn(s, id); } else { WriterMovesOn(s); }
  }

  lemma TaskComesCloser(s: Agent, id: Id, now: int)
    requires Inv(s) && id in s.procs
    ensures CanStep(s, NextOf(s, id, now)) && s.journal.Valid() && Apply(s, NextOf(s, id, now)).journal.Valid()
    ensures var p, t := s.procs[id], Apply(s, NextOf(s, id, now));
            id in t.procs ==>
              || Stage(t.procs[id]) < Stage(p)
              || (Stage(t.procs[id]) == Stage(p) && LeftOf(t.procs[id]) < LeftOf(p))
              || (t.procs[id] == p && ToWrite(t.journal) < ToWrite(s.journal))
  {
    TaskMovesOn(s, id, now);
    TicketIsChained(s, id);
    StepKeepsInv(s, NextOf(s, id, now));
    InvIsValid(Apply(s, NextOf(s, id, now)));
    var p := s.procs[id];
    hide Inv, Apply, CanStep;
    if (p.Putting? || p.Ending?) && p.ticket > s.journal.finished { WriterMovesOn(s); }
  }

  /** From every state, each task in hand can be carried on until nothing of it is left. */
  lemma {:induction false} EveryTaskCanEnd(s: Agent, id: Id, now: int) returns (run: seq<Agent>, steps: seq<Step>)
    requires Inv(s) && id in s.procs
    ensures IsTrace(run, steps) && run[0] == s && id !in run[|run| - 1].procs
    ensures forall step <- steps :: !step.Reboot? && !step.Start?
    decreases Stage(s.procs[id]), LeftOf(s.procs[id]),
              if s.journal.Valid() then ToWrite(s.journal) else 0
  {
    hide *;
    var step := NextOf(s, id, now);
    TaskComesCloser(s, id, now);
    StepKeepsInv(s, step);
    NextIsInternal(s, id, now);
    var t := Apply(s, step);
    if id in t.procs {
      var run1, steps1 := EveryTaskCanEnd(t, id, now);
      run, steps := [s] + run1, [step] + steps1;
      TraceGrows(s, step, run1, steps1);
      TraceLength(run1, steps1);
      assert run[|run| - 1] == run1[|run1| - 1];
    } else {
      run, steps := [s] + [t], [step] + [];
      NothingIsTrace(t);
      TraceGrows(s, step, [t], []);
      assert run[|run| - 1] == t;
    }
  }

  lemma NothingIsTrace(s: Agent)
    ensures IsTrace([s], [])
  {
  }

  lemma NextIsInternal(s: Agent, id: Id, now: int)
    requires id in s.procs
    ensures !NextOf(s, id, now).Reboot? && !NextOf(s, id, now).Start?
  {
  }

  lemma TraceGrows(s: Agent, step: Step, run: seq<Agent>, steps: seq<Step>)
    requires CanStep(s, step) && IsTrace(run, steps) && run[0] == Apply(s, step)
    ensures IsTrace([s] + run, [step] + steps)
  {
    hide CanStep, Apply;
  }

  // ----- Recovery completes -----

  /** What recovery does next. */
  function BootNext(s: Agent, now: int): Step
    requires !s.boot.Booted?
  {
    match s.boot
    case BootCleaning(_, _, _, left, _) => if left == [] then BootPut(now) else BootClean
    case BootEnding(_, _, ticket, _, _) => if ticket <= s.journal.finished then BootFinish else WriterStep(s)
  }

  function BootStage(b: Boot): nat {
    match b
    case Booted => 0
    case BootCleaning(_, _, _, _, todo) => 2 * |todo| + 2
    case BootEnding(_, _, _, _, todo) => 2 * |todo| + 1
  }

  function BootLeft(b: Boot): nat {
    if b.BootCleaning? then |b.left| else 0
  }

  lemma BootTicketIsChained(s: Agent)
    requires Inv(s) && s.boot.BootEnding?
    ensures s.journal.Valid() && s.boot.ticket <= s.journal.enqueued
    ensures forall id <- s.boot.todo :: id in Mem(s)
  {
    hide ProcsOk, LogOk, NoOrphans, JournalRuns, NotEmitted, HasSince, OnlySince;
  }

  lemma BootIsListed(s: Agent)
    requires Inv(s) && s.boot.BootCleaning?
    ensures s.boot.id in Mem(s)
  {
    BootFacts(s);
    hide Inv, HasSince, NotEmitted;
  }

  lemma BootCleanMovesOn(s: Agent)
    requires CanStep(s, BootClean)
    ensures var b, t := s.boot, Apply(s, BootClean);
            && t.boot == BootCleaning(b.id, b.run, b.gone + [b.left[0]], b.left[1..], b.todo)
            && t.log == s.log + [Removed(b.run, b.left[0])] && b.left[0] !in t.files
  {
  }

  lemma BootPutMovesOn(s: Agent, now: int)
    requires CanStep(s, BootPut(now))
    ensures var b, t := s.boot, Apply(s, BootPut(now));
            && t.boot.BootEnding? && t.boot.id == b.id && t.boot.run == b.run && t.boot.todo == b.todo
            && b.id in Mem(t) && Mem(t)[b.id].status == Failed
  {
  }

  lemma BootFinishMovesOn(s: Agent)
    requires CanStep(s, BootFinish)
    ensures var b, t := s.boot, Apply(s, BootFinish);
            && t.log == s.log + [Emitted(b.run, Failed)]
            && if b.todo == [] then t.boot == Booted
               else
                 b.todo[0] in Mem(s) &&
                 t.boot == BootCleaning(b.todo[0], Mem(s)[b.todo[0]].run, [], Mem(s)[b.todo[0]].artifacts, b.todo[1..])
  {
  }

  /** Recovery goes through its list: the files of a task one by one, its record, its announcement, the next. */
  lemma RecoveryMovesOn(s: Agent, now: int)
    requires Inv(s) && !s.boot.Booted?
    ensures CanStep(s, BootNext(s, now))
    ensures var b, t := s.boot, Apply(s, BootNext(s, now));
            match b
            case BootCleaning(id, run, gone, left, todo) =>
              if left != [] then
                && t.boot == BootCleaning(id, run, gone + [left[0]], left[1..], todo)
                && t.log == s.log + [Removed(run, left[0])] && left[0] !in t.files
              else
                && t.boot.BootEnding? && t.boot.id == id && t.boot.run == run && t.boot.todo == todo
                && id in Mem(t) && Mem(t)[id].status == Failed
            case BootEnding(id, run, ticket, _, todo) =>
              ticket <= s.journal.finished ==>
                && t.log == s.log + [Emitted(run, Failed)]
                && if todo == [] then t.boot == Booted
                   else
                     todo[0] in Mem(s) &&
                     t.boot == BootCleaning(todo[0], Mem(s)[todo[0]].run, [], Mem(s)[todo[0]].artifacts, todo[1..])
  {
    if s.boot.BootEnding? { BootTicketIsChained(s); } else { BootIsListed(s); }
    InvIsValid(s);
    hide Inv, Apply;
    match s.boot
    case BootCleaning(_, _, _, left, _) =>
      if left == [] { BootPutMovesOn(s, now); } else { BootCleanMovesOn(s); }
    case BootEnding(_, _, ticket, _, _) =>
      if ticket <= s.journal.finished { BootFinishMovesOn(s); } else { WriterMovesOn(s); }
  }

  lemma RecoveryComesCloser(s: Agent, now: int)
    requires Inv(s) && !s.boot.Booted?
    ensures CanStep(s, BootNext(s, now)) && s.journal.Valid() && Apply(s, BootNext(s, now)).journal.Valid()
    ensures var b, t := s.boot, Apply(s, BootNext(s, now));
            || BootStage(t.boot) < BootStage(b)
            || (BootStage(t.boot) == BootStage(b) && BootLeft(t.boot) < BootLeft(b))
            || (t.boot == b && ToWrite(t.journal) < ToWrite(s.journal))
  {
    RecoveryMovesOn(s, now);
    StepKeepsInv(s, BootNext(s, now));
    InvIsValid(s);
    InvIsValid(Apply(s, BootNext(s, now)));
    if s.boot.BootEnding? { BootTicketIsChained(s); }
    hide Inv, Apply, CanStep;
    if s.boot.BootEnding? && s.boot.ticket > s.journal.finished { WriterMovesOn(s); }
  }

  /** From every state, recovery can be carried on until it is done. */
  lemma {:induction false} RecoveryCompletes(s: Agent, now: int) returns (run: seq<Agent>, steps: seq<Step>)
    requires Inv(s)
    ensures IsTrace(run, steps) && run[0] == s && run[|run| - 1].boot == Booted
    ensures forall step <- steps ::
              step.BootClean? || step.BootPut? || step.BootFinish? || step.BeginWrite? || step.EndWrite?
    decreases BootStage(s.boot), BootLeft(s.boot),
              if s.journal.Valid() then ToWrite(s.journal) else 0
  {
    if s.boot.Booted? {
      run, steps := [s], [];
    } else {
      var step := BootNext(s, now);
      RecoveryComesCloser(s, now);
      StepKeepsInv(s, step);
      hide Inv, Apply, CanStep, BootStage, BootLeft, ToWrite;
      var run1, steps1 := RecoveryCompletes(Apply(s, step), now);
      run, steps := [s] + run1, [step] + steps1;
      TraceGrows(s, step, run1, steps1);
    }
  }
}
