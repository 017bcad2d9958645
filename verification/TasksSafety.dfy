/**
 * What every run of the task runner keeps, crashes included.
 *
 * A record can be in three places: in memory, in the snapshot of the write under way, and in the
 * file. A write that a caller waits for makes a promise about the later ones, and a crash replaces
 * the first two by the third. The invariant therefore says, for each stage of an execution, from
 * which version on all three places agree with it: `HasSince` for a record that must be there,
 * `OnlySince` for one that may have been forgotten meanwhile.
 *
 * The log records what the outside world saw. Its part of the invariant says that an executor is
 * called again for an id only after the journal forgot it, and that a run is announced at most once.
 *
 * The second half of the file reduces a step about one task to what it does to that task: everything
 * else follows from `TaskStep`, which TasksSteps establishes step by step.
 */
module TasksSafety {
  import opened Options
  import opened StateStore
  import opened Tasks

  // ----- The journal -----

  predicate Has(tasks: Records, id: Id, run: nat, status: Status) {
    id in tasks && tasks[id].run == run && tasks[id].status == status
  }

  /** If the run is there at all, it has this status. */
  predicate Only(tasks: Records, id: Id, run: nat, status: Status) {
    id in tasks && tasks[id].run == run ==> tasks[id].status == status
  }

  /** Memory, the write in flight and the file have the record, as far as they are recent enough. */
  predicate HasSince(j: Store<Records>, id: Id, run: nat, status: Status, since: nat) {
    && Has(j.mem.value, id, run, status)
    && (since <= j.snapshot.version ==> Has(j.snapshot.value, id, run, status))
    && (since <= j.file.version ==> Has(j.file.value, id, run, status))
  }

  predicate OnlySince(j: Store<Records>, id: Id, run: nat, status: Status, since: nat) {
    && Only(j.mem.value, id, run, status)
    && (since <= j.snapshot.version ==> Only(j.snapshot.value, id, run, status))
    && (since <= j.file.version ==> Only(j.file.value, id, run, status))
  }

  predicate InAll(j: Store<Records>, id: Id) {
    id in j.mem.value && id in j.snapshot.value && id in j.file.value
  }

  /** What one step of a living process does to the chain of writes. */
  ghost predicate Moves(j: Store<Records>, k: Store<Records>) {
    && k.Valid() && j.enqueued <= k.enqueued && j.mem.version <= k.mem.version
    && (|| (k.started == j.started && k.snapshot == j.snapshot && k.finished == j.finished && k.file == j.file)
        || (k.started == j.started == j.finished + 1 && k.snapshot == j.snapshot && k.finished == j.started
          && k.file == j.snapshot)
        || (k.started == j.started + 1 && k.snapshot == j.mem == k.mem && k.finished == j.finished && k.file == j.file))
  }

  lemma MovesKeepOwed(j: Store<Records>, k: Store<Records>, ticket: nat, since: nat)
    requires j.Valid() && Moves(j, k) && Owed(j, ticket, since)
    ensures Owed(k, ticket, since)
  {
  }

  lemma MovesKeepHas(j: Store<Records>, k: Store<Records>, id: Id, run: nat, status: Status, since: nat)
    requires j.Valid() && Moves(j, k)
    requires HasSince(j, id, run, status, since) && Has(k.mem.value, id, run, status)
    ensures HasSince(k, id, run, status, since)
  {
    hide Has;
  }

  lemma MovesKeepOnly(j: Store<Records>, k: Store<Records>, id: Id, run: nat, status: Status, since: nat)
    requires j.Valid() && Moves(j, k)
    requires OnlySince(j, id, run, status, since) && Only(k.mem.value, id, run, status)
    ensures OnlySince(k, id, run, status, since)
  {
    hide Only;
  }

  lemma PutMoves(j: Store<Records>, id: Id, r: Record)
    requires j.Valid()
    ensures var (k, ticket) := Put(j, id, r);
            Moves(j, k) && Owed(k, ticket, k.mem.version) && k.mem.value == j.mem.value[id := r]
            && k.snapshot.version < k.mem.version && k.file.version < k.mem.version
  {
  }

  lemma PatchMoves(j: Store<Records>, id: Id, r: Record)
    requires j.Valid()
    ensures Moves(j, Patch(j, id, r))
  {
  }

  lemma FlushMoves(j: Store<Records>)
    requires j.Valid()
    ensures Moves(j, FlushJournal(j)) && FlushJournal(j).mem == j.mem
  {
  }

  lemma PurgeMoves(j: Store<Records>, now: int)
    requires j.Valid()
    ensures Moves(j, PurgeJournal(j, now)) && PurgeJournal(j, now).mem.value == Purge(j.mem.value, now)
  {
  }

  lemma WriteMoves(j: Store<Records>)
    requires j.Valid()
    ensures j.CanStart() ==> Moves(j, j.StartWrite()) && j.StartWrite().mem == j.mem
    ensures j.CanFinish() ==> Moves(j, j.FinishWrite()) && j.FinishWrite().mem == j.mem
  {
  }

  // ----- The log -----

  predicate NotEmitted(log: seq<Event>, run: nat) {
    forall k :: 0 <= k < |log| ==> !(log[k].Emitted? && log[k].run == run)
  }

  /** The executor of this id was called and its record not forgotten since. */
  predicate LaunchedSince(log: seq<Event>, id: Id) {
    log != [] &&
    var e := log[|log| - 1];
    if e.Purged? && id in e.ids then false
    else if e.Launched? && e.id == id then true
    else LaunchedSince(log[..|log| - 1], id)
  }

  function RemovedFor(log: seq<Event>, run: nat): set<File> {
    set k | 0 <= k < |log| && log[k].Removed? && log[k].run == run :: log[k].file
  }

  lemma LaunchedSnoc(log: seq<Event>, e: Event, id: Id)
    ensures LaunchedSince(log + [e], id)
            <==> if e.Purged? && id in e.ids then false
                 else if e.Launched? && e.id == id then true
                 else LaunchedSince(log, id)
  {
    assert (log + [e])[..|log|] == log;
  }

  lemma RemovedSnoc(log: seq<Event>, e: Event, run: nat)
    ensures RemovedFor(log + [e], run)
            == if e.Removed? && e.run == run then RemovedFor(log, run) + {e.file} else RemovedFor(log, run)
  {
    var longer := log + [e];
    assert longer[|log|] == e;
    forall file
      ensures file in RemovedFor(longer, run)
              <==> file in RemovedFor(log, run) || (e.Removed? && e.run == run && file == e.file)
    {
      if file in RemovedFor(log, run) {
        var k :| 0 <= k < |log| && log[k].Removed? && log[k].run == run && log[k].file == file;
        assert longer[k] == log[k];
      }
    }
  }

  /** Every launch of an id comes after the previous one was forgotten. */
  ghost predicate LaunchOnce(log: seq<Event>) {
    forall k :: 0 <= k < |log| && log[k].Launched? ==> !LaunchedSince(log[..k], log[k].id)
  }

  /** A run has at most one outcome. */
  ghost predicate EmitOnce(log: seq<Event>) {
    forall k :: 0 <= k < |log| && log[k].Emitted? ==> NotEmitted(log[..k], log[k].run)
  }

  lemma LogSnoc(log: seq<Event>, e: Event)
    requires LaunchOnce(log) && EmitOnce(log)
    requires e.Launched? ==> !LaunchedSince(log, e.id)
    requires e.Emitted? ==> NotEmitted(log, e.run)
    ensures LaunchOnce(log + [e]) && EmitOnce(log + [e])
  {
    hide LaunchedSince, NotEmitted;
    var longer := log + [e];
    forall k | 0 <= k < |longer|
      ensures longer[k].Launched? ==> !LaunchedSince(longer[..k], longer[k].id)
      ensures longer[k].Emitted? ==> NotEmitted(longer[..k], longer[k].run)
    {
      if k < |log| { assert longer[..k] == log[..k]; } else { assert longer[..k] == log; }
    }
  }

  // ----- The invariant -----

  predicate RunsKnown(tasks: Records, runs: seq<Id>) {
    forall id <- tasks :: tasks[id].run < |runs| && runs[tasks[id].run] == id
  }

  predicate JournalRuns(j: Store<Records>, runs: seq<Id>) {
    RunsKnown(j.mem.value, runs) && RunsKnown(j.snapshot.value, runs) && RunsKnown(j.file.value, runs)
  }

  ghost predicate ProcOk(j: Store<Records>, runs: seq<Id>, log: seq<Event>, id: Id, p: Proc) {
    && p.run < |runs| && runs[p.run] == id && NotEmitted(log, p.run)
    && match p
       case Putting(run, ticket, since) =>
         && HasSince(j, id, run, Running, since) && Owed(j, ticket, since)
         && !LaunchedSince(log, id) && RemovedFor(log, run) == {}
       case Executing(run, _) =>
         HasSince(j, id, run, Running, 0) && RemovedFor(log, run) == {}
       case Cleaning(run, _, gone, left) =>
         && HasSince(j, id, run, Running, 0) && gone + left == j.mem.value[id].artifacts
         && RemovedFor(log, run) == SetOf(gone)
       case Ending(run, status, ticket, since) =>
         && status != Running && OnlySince(j, id, run, status, since) && Owed(j, ticket, since)
         && (id in j.mem.value ==> j.mem.value[id].run == run)
  }

  function SetOf(files: seq<File>): set<File> {
    set file | file in files
  }

  /** A task that the previous process left running and this one has not ended yet. */
  ghost predicate PendingOk(j: Store<Records>, procs: map<Id, Proc>, log: seq<Event>, id: Id) {
    && id in j.mem.value && id !in procs
    && HasSince(j, id, j.mem.value[id].run, Running, 0) && NotEmitted(log, j.mem.value[id].run)
  }

  function PendingIds(boot: Boot): seq<Id> {
    match boot
    case Booted => []
    case BootCleaning(id, _, _, _, todo) => [id] + todo
    case BootEnding(_, _, _, _, todo) => todo
  }

  predicate Distinct(ids: seq<Id>) {
    forall i, k :: 0 <= i < k < |ids| ==> ids[i] != ids[k]
  }

  ghost predicate BootOk(j: Store<Records>, procs: map<Id, Proc>, boot: Boot, runs: seq<Id>, log: seq<Event>) {
    && Distinct(PendingIds(boot))
    && (forall id <- PendingIds(boot) :: PendingOk(j, procs, log, id))
    && match boot
       case Booted => true
       case BootCleaning(id, run, gone, left, todo) =>
         (id in PendingIds(boot) ==> run == j.mem.value[id].run && gone + left == j.mem.value[id].artifacts)
       case BootEnding(id, run, ticket, since, todo) =>
         && run < |runs| && runs[run] == id && id !in todo && (id in procs ==> procs[id].run != run)
         && NotEmitted(log, run) && OnlySince(j, id, run, Failed, since) && Owed(j, ticket, since)
  }

  /** Whatever is unfinished is in the hands of this process. */
  predicate NoOrphans(tasks: Records, procs: map<Id, Proc>, boot: Boot) {
    forall id <- tasks :: tasks[id].status == Running ==> id in procs || id in PendingIds(boot)
  }

  ghost predicate EmittedOk(j: Store<Records>, runs: seq<Id>, log: seq<Event>) {
    forall k :: 0 <= k < |log| && log[k].Emitted? ==>
      && log[k].run < |runs| && log[k].status != Running
      && OnlySince(j, runs[log[k].run], log[k].run, log[k].status, 0)
  }

  ghost predicate LaunchedOk(j: Store<Records>, log: seq<Event>) {
    forall id :: LaunchedSince(log, id) ==> InAll(j, id)
  }

  predicate LogRuns(runs: seq<Id>, log: seq<Event>) {
    forall k :: 0 <= k < |log| && (log[k].Removed? || log[k].Emitted?) ==> log[k].run < |runs|
  }

  ghost predicate ProcsOk(s: Agent) {
    forall id <- s.procs :: ProcOk(s.journal, s.runs, s.log, id, s.procs[id])
  }

  ghost predicate LogOk(s: Agent) {
    LaunchOnce(s.log) && EmitOnce(s.log) && LogRuns(s.runs, s.log)
    && LaunchedOk(s.journal, s.log) && EmittedOk(s.journal, s.runs, s.log)
  }

  ghost predicate Inv(s: Agent) {
    && s.journal.Valid() && JournalRuns(s.journal, s.runs)
    && ProcsOk(s) && BootOk(s.journal, s.procs, s.boot, s.runs, s.log)
    && NoOrphans(Mem(s), s.procs, s.boot) && LogOk(s)
  }

  // ----- What a step leaves alone -----

  /** The part of a record that the invariant talks about. */
  predicate SameCore(a: Records, b: Records, id: Id) {
    && (id in a <==> id in b)
    && (id in a ==> a[id].run == b[id].run && a[id].status == b[id].status && a[id].artifacts == b[id].artifacts)
  }

  /** The log may get one event that is about neither the run nor the id. */
  predicate Quiet(log: seq<Event>, longer: seq<Event>, id: Id, run: nat) {
    longer == log ||
    (|longer| == |log| + 1 && longer[..|log|] == log &&
     match longer[|log|]
     case Launched(other, _) => other != id
     case Purged(_) => true
     case Removed(other, _) => other != run
     case Emitted(other, _) => other != run)
  }

  lemma QuietKeeps(log: seq<Event>, longer: seq<Event>, id: Id, run: nat)
    requires Quiet(log, longer, id, run)
    ensures NotEmitted(log, run) ==> NotEmitted(longer, run)
    ensures LaunchedSince(longer, id) ==> LaunchedSince(log, id)
    ensures RemovedFor(longer, run) == RemovedFor(log, run)
  {
    if longer != log {
      var e := longer[|log|];
      assert longer == log + [e];
      LaunchedSnoc(log, e, id);
      RemovedSnoc(log, e, run);
    }
  }

  lemma ProcKept(
    j: Store<Records>, k: Store<Records>, runs: seq<Id>, newRuns: seq<Id>,
    log: seq<Event>, longer: seq<Event>, id: Id, p: Proc)
    requires ProcOk(j, runs, log, id, p) && j.Valid() && Moves(j, k)
    requires SameCore(j.mem.value, k.mem.value, id)
    requires runs <= newRuns && Quiet(log, longer, id, p.run)
    ensures ProcOk(k, newRuns, longer, id, p)
  {
    QuietKeeps(log, longer, id, p.run);
    hide NotEmitted, LaunchedSince, RemovedFor, HasSince, Owed, Moves, Quiet;
    assert newRuns[p.run] == runs[p.run];
    HasIsCore(j, k, id, p.run);
    match p
    case Putting(run, ticket, since) =>
      MovesKeepHas(j, k, id, run, Running, since);
      MovesKeepOwed(j, k, ticket, since);
    case Executing(run, _) => MovesKeepHas(j, k, id, run, Running, 0);
    case Cleaning(run, _, _, _) => MovesKeepHas(j, k, id, run, Running, 0);
    case Ending(run, status, ticket, since) =>
      OnlyIsCore(j, k, id, run, status, since);
      MovesKeepOnly(j, k, id, run, status, since);
      MovesKeepOwed(j, k, ticket, since);
  }

  lemma OnlyIsCore(j: Store<Records>, k: Store<Records>, id: Id, run: nat, status: Status, since: nat)
    requires SameCore(j.mem.value, k.mem.value, id) && OnlySince(j, id, run, status, since)
    ensures Only(k.mem.value, id, run, status)
  {
  }

  /** The record of an outcome that is still being written may be forgotten. */
  lemma EndingForgotten(
    j: Store<Records>, k: Store<Records>, runs: seq<Id>, log: seq<Event>, longer: seq<Event>, id: Id, p: Proc)
    requires ProcOk(j, runs, log, id, p) && j.Valid() && Moves(j, k) && p.Ending? && id !in k.mem.value
    requires Quiet(log, longer, id, p.run)
    ensures ProcOk(k, runs, longer, id, p)
  {
    QuietKeeps(log, longer, id, p.run);
    hide NotEmitted, LaunchedSince, RemovedFor, Owed, Moves, Quiet, OnlySince;
    assert Only(k.mem.value, id, p.run, p.status);
    MovesKeepOnly(j, k, id, p.run, p.status, p.since);
    MovesKeepOwed(j, k, p.ticket, p.since);
  }

  lemma HasIsCore(j: Store<Records>, k: Store<Records>, id: Id, run: nat)
    requires SameCore(j.mem.value, k.mem.value, id)
    ensures forall status, since :: HasSince(j, id, run, status, since) ==> Has(k.mem.value, id, run, status)
  {
  }

  lemma PendingKept(
    j: Store<Records>, k: Store<Records>, procs: map<Id, Proc>, newProcs: map<Id, Proc>,
    log: seq<Event>, longer: seq<Event>, id: Id)
    requires PendingOk(j, procs, log, id) && j.Valid() && Moves(j, k)
    requires SameCore(j.mem.value, k.mem.value, id) && id !in newProcs
    requires Quiet(log, longer, id, j.mem.value[id].run)
    ensures PendingOk(k, newProcs, longer, id)
  {
    var run := j.mem.value[id].run;
    QuietKeeps(log, longer, id, run);
    hide NotEmitted, HasSince, Moves, Quiet;
    HasIsCore(j, k, id, run);
    MovesKeepHas(j, k, id, run, Running, 0);
  }

  /** Boot is untouched when the step is about another task. */
  lemma BootKept(s: Agent, t: Agent)
    requires s.journal.Valid() && Moves(s.journal, t.journal)
    requires BootOk(s.journal, s.procs, s.boot, s.runs, s.log) && t.boot == s.boot && s.runs <= t.runs
    requires forall id <- PendingIds(s.boot) ::
               && SameCore(Mem(s), Mem(t), id) && id !in t.procs
               && (id in Mem(s) ==> Quiet(s.log, t.log, id, Mem(s)[id].run))
    requires s.boot.BootEnding? ==>
               && OnlySince(t.journal, s.boot.id, s.boot.run, Failed, s.boot.since)
               && NotEmitted(t.log, s.boot.run)
               && (s.boot.id in t.procs ==> t.procs[s.boot.id].run != s.boot.run)
    ensures BootOk(t.journal, t.procs, t.boot, t.runs, t.log)
  {
    hide Moves, HasSince, OnlySince, Owed, Quiet, Distinct;
    forall id <- PendingIds(s.boot) ensures PendingOk(t.journal, t.procs, t.log, id) {
      PendingKept(s.journal, t.journal, s.procs, t.procs, s.log, t.log, id);
    }
    hide PendingOk, NotEmitted;
    if s.boot.BootEnding? {
      MovesKeepOwed(s.journal, t.journal, s.boot.ticket, s.boot.since);
      assert t.runs[s.boot.run] == s.runs[s.boot.run];
    } else if s.boot.BootCleaning? {
      assert s.boot.id in PendingIds(s.boot);
    }
  }

  /** Events other than launches and outcomes change nothing that the log's invariant says. */
  lemma LogKept(s: Agent, t: Agent)
    requires LogOk(s) && s.journal.Valid() && Moves(s.journal, t.journal) && s.runs <= t.runs
    requires t.log == s.log || (|t.log| == |s.log| + 1 && t.log[..|s.log|] == s.log)
    requires t.log != s.log ==> var e := t.log[|s.log|];
                                && (e.Launched? ==> !LaunchedSince(s.log, e.id) && InAll(t.journal, e.id))
                                && (e.Emitted? ==> NotEmitted(s.log, e.run) && e.run < |s.runs| && e.status != Running
                                                   && OnlySince(t.journal, s.runs[e.run], e.run, e.status, 0))
                                && (e.Removed? ==> e.run < |s.runs|)
    requires forall id :: LaunchedSince(s.log, id) && id !in Mem(t)
                          ==> t.log != s.log && t.log[|s.log|].Purged? && id in t.log[|s.log|].ids
    requires forall k :: 0 <= k < |s.log| && s.log[k].Emitted? && s.log[k].run < |s.runs|
                         ==> Only(Mem(t), s.runs[s.log[k].run], s.log[k].run, s.log[k].status)
    ensures LogOk(t)
  {
    LaunchedKept(s, t);
    EmittedKept(s, t);
    hide LaunchedOk, EmittedOk, LaunchedSince, NotEmitted, Moves, InAll, OnlySince, Only;
    if t.log != s.log {
      assert t.log == s.log + [t.log[|s.log|]];
      LogSnoc(s.log, t.log[|s.log|]);
    }
    hide LaunchOnce, EmitOnce;
    assert LogRuns(t.runs, t.log);
  }

  lemma LaunchedKept(s: Agent, t: Agent)
    requires LaunchedOk(s.journal, s.log) && s.journal.Valid() && Moves(s.journal, t.journal)
    requires t.log == s.log || (|t.log| == |s.log| + 1 && t.log[..|s.log|] == s.log)
    requires t.log != s.log && t.log[|s.log|].Launched? ==> InAll(t.journal, t.log[|s.log|].id)
    requires forall id :: LaunchedSince(s.log, id) && id !in Mem(t)
                          ==> t.log != s.log && t.log[|s.log|].Purged? && id in t.log[|s.log|].ids
    ensures LaunchedOk(t.journal, t.log)
  {
    forall id | LaunchedSince(t.log, id) ensures InAll(t.journal, id) {
      if t.log != s.log {
        var e := t.log[|s.log|];
        assert t.log == s.log + [e];
        LaunchedSnoc(s.log, e, id);
      }
    }
  }

  lemma EmittedKept(s: Agent, t: Agent)
    requires EmittedOk(s.journal, s.runs, s.log) && s.journal.Valid() && Moves(s.journal, t.journal) && s.runs <= t.runs
    requires t.log == s.log || (|t.log| == |s.log| + 1 && t.log[..|s.log|] == s.log)
    requires t.log != s.log && t.log[|s.log|].Emitted? ==>
               var e := t.log[|s.log|];
               e.run < |s.runs| && e.status != Running && OnlySince(t.journal, s.runs[e.run], e.run, e.status, 0)
    requires forall k :: 0 <= k < |s.log| && s.log[k].Emitted? && s.log[k].run < |s.runs|
                         ==> Only(Mem(t), s.runs[s.log[k].run], s.log[k].run, s.log[k].status)
    ensures EmittedOk(t.journal, t.runs, t.log)
  {
    hide Moves, Only, OnlySince;
    forall k | 0 <= k < |t.log| && t.log[k].Emitted?
      ensures t.log[k].run < |t.runs| && t.log[k].status != Running
      ensures OnlySince(t.journal, t.runs[t.log[k].run], t.log[k].run, t.log[k].status, 0)
    {
      var e := t.log[k];
      if k < |s.log| {
        assert e == s.log[k];
        assert t.runs[e.run] == s.runs[e.run];
        MovesKeepOnly(s.journal, t.journal, s.runs[e.run], e.run, e.status, 0);
      } else {
        assert t.runs[e.run] == s.runs[e.run];
      }
    }
  }

  // ----- Steps about one task -----

  /** The event a step of a task adds to the log, if any. */
  predicate About(log: seq<Event>, longer: seq<Event>, id: Id, run: nat) {
    longer == log ||
    (|longer| == |log| + 1 && longer[..|log|] == log &&
     match longer[|log|]
     case Launched(other, _) => other == id
     case Purged(_) => false
     case Removed(other, _) => other == run
     case Emitted(other, _) => other == run)
  }

  predicate SameOthers(s: Agent, t: Agent, id: Id) {
    && (forall other <- Mem(s).Keys + Mem(t).Keys :: other != id ==> SameCore(Mem(s), Mem(t), other))
    && (forall other <- s.procs.Keys + t.procs.Keys :: other != id ==>
          other in s.procs && other in t.procs && s.procs[other] == t.procs[other])
  }

  /** A step that is about task `id` and its run `run` only. */
  ghost predicate TaskStep(s: Agent, t: Agent, id: Id, run: nat) {
    && Moves(s.journal, t.journal) && t.boot == s.boot && s.runs <= t.runs
    && run < |t.runs| && t.runs[run] == id && NotEmitted(s.log, run)
    && About(s.log, t.log, id, run) && SameOthers(s, t, id)
    && id !in PendingIds(s.boot)
    && (id in Mem(s) ==> id in Mem(t)) && (id in Mem(t) ==> Mem(t)[id].run == run)
    && (id in Mem(t) && Mem(t)[id].status == Running ==> id in t.procs)
    && (id in t.procs ==> t.procs[id].run == run)
    && (s.boot.BootEnding? && s.boot.id == id ==> run != s.boot.run)
  }

  lemma AboutIsQuiet(s: Agent, t: Agent, id: Id, run: nat, other: Id, otherRun: nat)
    requires About(s.log, t.log, id, run) && other != id && otherRun != run
    ensures Quiet(s.log, t.log, other, otherRun)
  {
  }

  lemma TaskKeepsProcs(s: Agent, t: Agent, id: Id, run: nat)
    requires Inv(s) && TaskStep(s, t, id, run)
    requires id in t.procs ==> ProcOk(t.journal, t.runs, t.log, id, t.procs[id])
    ensures ProcsOk(t)
  {
    hide Moves, Quiet, About, NotEmitted, LogOk, BootOk, NoOrphans, JournalRuns, PendingIds;
    forall other <- t.procs ensures ProcOk(t.journal, t.runs, t.log, other, t.procs[other]) {
      if other != id {
        var p := t.procs[other];
        assert ProcOk(s.journal, s.runs, s.log, other, p);
        assert t.runs[p.run] == s.runs[p.run];
        AboutIsQuiet(s, t, id, run, other, p.run);
        if other in Mem(s) || other in Mem(t) { assert other in Mem(s).Keys + Mem(t).Keys; }
        hide ProcOk;
        ProcKept(s.journal, t.journal, s.runs, t.runs, s.log, t.log, other, p);
      }
    }
  }

  lemma ProcHasRecord(s: Agent, id: Id)
    requires ProcsOk(s) && id in s.procs
    ensures !s.procs[id].Ending? ==> id in Mem(s)
    ensures id in Mem(s) ==>
              && Mem(s)[id].run == s.procs[id].run
              && Mem(s)[id].status == if s.procs[id].Ending? then s.procs[id].status else Running
    ensures s.procs[id].run < |s.runs| && s.runs[s.procs[id].run] == id && NotEmitted(s.log, s.procs[id].run)
  {
    hide NotEmitted, LaunchedSince, RemovedFor, Owed;
    assert ProcOk(s.journal, s.runs, s.log, id, s.procs[id]);
  }

  lemma TaskKeepsBoot(s: Agent, t: Agent, id: Id, run: nat)
    requires Inv(s) && TaskStep(s, t, id, run)
    ensures BootOk(t.journal, t.procs, t.boot, t.runs, t.log)
  {
    hide Moves, Quiet, LogOk, ProcsOk, NoOrphans, Distinct, HasSince, OnlySince, Owed;
    forall other <- PendingIds(s.boot)
      ensures SameCore(Mem(s), Mem(t), other) && other !in t.procs
      ensures other in Mem(s) ==> Quiet(s.log, t.log, other, Mem(s)[other].run)
    {
      assert PendingOk(s.journal, s.procs, s.log, other);
      assert s.runs[Mem(s)[other].run] == other;
      AboutIsQuiet(s, t, id, run, other, Mem(s)[other].run);
    }
    if s.boot.BootEnding? {
      TaskKeepsBootEnding(s, t, id, run);
    }
    BootKept(s, t);
  }

  lemma TaskKeepsBootEnding(s: Agent, t: Agent, id: Id, run: nat)
    requires Inv(s) && TaskStep(s, t, id, run) && s.boot.BootEnding?
    ensures OnlySince(t.journal, s.boot.id, s.boot.run, Failed, s.boot.since)
    ensures NotEmitted(t.log, s.boot.run)
    ensures s.boot.id in t.procs ==> t.procs[s.boot.id].run != s.boot.run
  {
    hide LogOk, ProcsOk, NoOrphans, Distinct, HasSince, Owed, Moves, PendingOk, JournalRuns;
    var boot := s.boot;
    assert t.runs[boot.run] == s.runs[boot.run];
    assert OnlySince(s.journal, boot.id, boot.run, Failed, boot.since);
    assert Only(Mem(t), boot.id, boot.run, Failed) by {
      if boot.id != id && boot.id in Mem(t) { assert SameCore(Mem(s), Mem(t), boot.id); }
    }
    hide OnlySince, About, SameOthers;
    MovesKeepOnly(s.journal, t.journal, boot.id, boot.run, Failed, boot.since);
  }

  lemma TaskKeepsRuns(s: Agent, t: Agent, id: Id, run: nat)
    requires JournalRuns(s.journal, s.runs) && TaskStep(s, t, id, run)
    ensures JournalRuns(t.journal, t.runs)
  {
    hide About, NotEmitted;
    forall other <- Mem(t) ensures Mem(t)[other].run < |t.runs| && t.runs[Mem(t)[other].run] == other {
      if other != id {
        assert SameCore(Mem(s), Mem(t), other);
        assert t.runs[Mem(s)[other].run] == s.runs[Mem(s)[other].run];
      }
    }
    RunsGrow(s.journal.mem.value, s.runs, t.runs);
    RunsGrow(s.journal.snapshot.value, s.runs, t.runs);
    RunsGrow(s.journal.file.value, s.runs, t.runs);
  }

  lemma RunsGrow(tasks: Records, runs: seq<Id>, longer: seq<Id>)
    requires RunsKnown(tasks, runs) && runs <= longer
    ensures RunsKnown(tasks, longer)
  {
    forall id <- tasks ensures longer[tasks[id].run] == id { assert longer[tasks[id].run] == runs[tasks[id].run]; }
  }

  lemma TaskKeepsLog(s: Agent, t: Agent, id: Id, run: nat)
    requires Inv(s) && TaskStep(s, t, id, run)
    requires t.log != s.log ==> var e := t.log[|s.log|];
                                && (e.Launched? ==> !LaunchedSince(s.log, id) && InAll(t.journal, id))
                                && (e.Emitted? ==>
                                      && run < |s.runs| && e.status != Running
                                      && OnlySince(t.journal, id, run, e.status, 0))
                                && (e.Removed? ==> run < |s.runs|)
    ensures LogOk(t)
  {
    hide ProcsOk, BootOk, NoOrphans, Distinct, JournalRuns, Moves, LaunchOnce, EmitOnce, InAll, OnlySince;
    forall other | LaunchedSince(s.log, other) ensures other in Mem(t) {
      assert InAll(s.journal, other);
      LaunchedInMem(s, other);
      if other != id { assert SameCore(Mem(s), Mem(t), other); }
    }
    hide LaunchedSince;
    forall k | 0 <= k < |s.log| && s.log[k].Emitted? && s.log[k].run < |s.runs|
      ensures Only(Mem(t), s.runs[s.log[k].run], s.log[k].run, s.log[k].status)
    {
      EmittedInMem(s, k);
      var other := s.runs[s.log[k].run];
      if other != id && other in Mem(t) { assert SameCore(Mem(s), Mem(t), other); }
    }
    hide NotEmitted;
    if t.log != s.log { assert t.runs[run] == id; }
    LogKept(s, t);
  }

  lemma LaunchedInMem(s: Agent, id: Id)
    requires InAll(s.journal, id)
    ensures id in Mem(s)
  {
  }

  lemma EmittedInMem(s: Agent, k: nat)
    requires EmittedOk(s.journal, s.runs, s.log) && k < |s.log| && s.log[k].Emitted?
    ensures s.log[k].run < |s.runs| && Only(Mem(s), s.runs[s.log[k].run], s.log[k].run, s.log[k].status)
  {
  }

  lemma TaskKeepsOrphans(s: Agent, t: Agent, id: Id, run: nat)
    requires NoOrphans(Mem(s), s.procs, s.boot) && TaskStep(s, t, id, run)
    ensures NoOrphans(Mem(t), t.procs, t.boot)
  {
    hide About, NotEmitted, Moves;
    forall other <- Mem(t) | Mem(t)[other].status == Running ensures other in t.procs || other in PendingIds(t.boot) {
      if other != id { assert SameCore(Mem(s), Mem(t), other); }
    }
  }

  /** A step about one task keeps the invariant if it leaves that task itself in order. */
  lemma TaskKeepsInv(s: Agent, t: Agent, id: Id, run: nat)
    requires Inv(s) && TaskStep(s, t, id, run)
    requires id in t.procs ==> ProcOk(t.journal, t.runs, t.log, id, t.procs[id])
    requires t.log != s.log ==> var e := t.log[|s.log|];
                                && (e.Launched? ==> !LaunchedSince(s.log, id) && InAll(t.journal, id))
                                && (e.Emitted? ==>
                                      && run < |s.runs| && e.status != Running
                                      && OnlySince(t.journal, id, run, e.status, 0))
                                && (e.Removed? ==> run < |s.runs|)
    ensures Inv(t)
  {
    TaskKeepsProcs(s, t, id, run);
    TaskKeepsBoot(s, t, id, run);
    TaskKeepsRuns(s, t, id, run);
    TaskKeepsLog(s, t, id, run);
    TaskKeepsOrphans(s, t, id, run);
    hide ProcsOk, BootOk, LogOk, JournalRuns, NoOrphans, ProcOk, About, SameOthers, NotEmitted, LaunchedSince;
  }
}
