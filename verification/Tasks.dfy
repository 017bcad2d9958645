/**
 * Long-running tasks of the agent: the write-ahead journal, the runner, and recovery after a crash.
 *
 * The journal's writer is the same chain of serialised writes as the state store's, so its state is
 * a `Store` of the records. Every call of `start` that journals a record gets a run number, which
 * tells apart two tasks that use the same id one after the other.
 */
module Tasks {
  import opened Options
  import opened StateStore

  type Id = nat
  type File = nat

  datatype Status = Running | Done | Failed | Cancelled

  datatype Record = Record(
    run: nat,
    status: Status,
    artifacts: seq<File>,
    acked: bool,
    updatedAt: int,
    finishedAt: Option<int>)

  type Records = map<Id, Record>

  const RETENTION: int := 7 * 24 * 3_600_000

  // ----- The journal -----

  predicate Finished(r: Record) { r.status != Running }

  function FinishTime(r: Record): int {
    if r.finishedAt.Some? then r.finishedAt.value else r.updatedAt
  }

  predicate Forgettable(r: Record, now: int) {
    Finished(r) && (r.acked || FinishTime(r) < now - RETENTION)
  }

  function Purge(tasks: Records, now: int): Records {
    map id | id in tasks && !Forgettable(tasks[id], now) :: tasks[id]
  }

  /** A removed record makes the journal unsaved. */
  function PurgeJournal(j: Store<Records>, now: int): Store<Records> {
    var kept := Purge(j.mem.value, now);
    if kept == j.mem.value then j else j.Mutate(kept)
  }

  /** Writes at once; the caller waits for the write with the returned number. */
  function Put(j: Store<Records>, id: Id, r: Record): (Store<Records>, nat) {
    j.Update(j.mem.value[id := r])
  }

  /** A change that is written later, with others. */
  function Patch(j: Store<Records>, id: Id, r: Record): Store<Records> {
    j.Mutate(j.mem.value[id := r])
  }

  /** Unlike the state store's, this one returns at once when nothing is unsaved. */
  function FlushJournal(j: Store<Records>): Store<Records> {
    if j.dirty then j.Save().0 else j
  }

  // ----- The runner -----

  /** Where the execution of a task stands in this process. */
  datatype Proc =
    | Putting(run: nat, ticket: nat, since: nat)       // waits for its first journal write
    | Executing(run: nat, aborted: bool)
    | Cleaning(run: nat, cancelled: bool, gone: seq<File>, left: seq<File>)
    | Ending(run: nat, status: Status, ticket: nat, since: nat) // waits for its last journal write

  /** What the process does about the tasks that the previous one left running. */
  datatype Boot =
    | Booted
    | BootCleaning(id: Id, run: nat, gone: seq<File>, left: seq<File>, todo: seq<Id>)
    | BootEnding(id: Id, run: nat, ticket: nat, since: nat, todo: seq<Id>)

  datatype Event =
    | Launched(id: Id, run: nat)          // the executor is called
    | Purged(ids: set<Id>)                // records forgotten
    | Removed(run: nat, file: File)       // an artifact deleted on behalf of a run
    | Emitted(run: nat, status: Status)   // `task.completed` or `task.failed`

  datatype Agent = Agent(
    journal: Store<Records>,
    procs: map<Id, Proc>,
    boot: Boot,
    runs: seq<Id>,        // the id of every run so far
    files: set<File>,
    log: seq<Event>)

  datatype Step =
    | Start(id: Id, now: int)
    | Launch(id: Id)
    | Declare(id: Id, file: File, now: int)
    | Keep(id: Id, file: File, now: int)
    | Progress(id: Id, now: int)
    | Work(file: File)
    | Cancel(id: Id)
    | Succeed(id: Id, now: int)
    | Throw(id: Id, own: bool)
    | CleanOne(id: Id)
    | FailPut(id: Id, now: int)
    | Finish(id: Id)
    | AckResult(id: Id, now: int)
    | Checkpoint
    | BeginWrite
    | EndWrite
    | Reboot(order: seq<Id>, now: int)
    | BootClean
    | BootPut(now: int)
    | BootFinish

  function Mem(s: Agent): Records { s.journal.mem.value }

  predicate IsActive(s: Agent, id: Id) {
    id in s.procs && !s.procs[id].Putting?
  }

  predicate IsExecuting(s: Agent, id: Id) {
    id in s.procs && s.procs[id].Executing? && id in Mem(s)
  }

  function WithoutFile(files: seq<File>, file: File): seq<File> {
    if files == [] then []
    else (if files[0] == file then [] else [files[0]]) + WithoutFile(files[1..], file)
  }

  function WithFile(files: seq<File>, file: File): seq<File> {
    if file in files then files else files + [file]
  }

  function NewRecord(run: nat, now: int): Record {
    Record(run, Running, [], false, now, None)
  }

  function Ended(r: Record, status: Status, now: int): Record {
    r.(status := status, finishedAt := Some(now), updatedAt := now, artifacts := [])
  }

  /** Nothing happens when the id is already in the journal. */
  function StartTask(s: Agent, id: Id, now: int): Agent {
    if id in Mem(s) then s
    else
      var run := |s.runs|;
      var (j, ticket) := Put(s.journal, id, NewRecord(run, now));
      s.(journal := j, runs := s.runs + [id], procs := s.procs[id := Putting(run, ticket, j.mem.version)])
  }

  function LaunchTask(s: Agent, id: Id): Agent
    requires id in s.procs && s.procs[id].Putting?
  {
    var run := s.procs[id].run;
    s.(procs := s.procs[id := Executing(run, false)], log := s.log + [Launched(id, run)])
  }

  function PatchTask(s: Agent, id: Id, artifacts: seq<File>, now: int): Agent
    requires id in Mem(s)
  {
    s.(journal := Patch(s.journal, id, Mem(s)[id].(artifacts := artifacts, updatedAt := now)))
  }

  function CancelTask(s: Agent, id: Id): Agent {
    if id in s.procs && s.procs[id].Executing?
    then s.(procs := s.procs[id := s.procs[id].(aborted := true)])
    else s
  }

  function EndTask(s: Agent, id: Id, status: Status, now: int): Agent
    requires id in Mem(s) && id in s.procs
  {
    var (j, ticket) := Put(s.journal, id, Ended(Mem(s)[id], status, now));
    s.(journal := j, procs := s.procs[id := Ending(s.procs[id].run, status, ticket, j.mem.version)])
  }

  /** The executor threw: its declared artifacts are deleted first. */
  function ThrowTask(s: Agent, id: Id, own: bool): Agent
    requires IsExecuting(s, id)
  {
    var p := s.procs[id];
    s.(procs := s.procs[id := Cleaning(p.run, p.aborted || own, [], Mem(s)[id].artifacts)])
  }

  function CleanTask(s: Agent, id: Id): Agent
    requires id in s.procs && s.procs[id].Cleaning? && s.procs[id].left != []
  {
    var p := s.procs[id];
    var file := p.left[0];
    s.(procs := s.procs[id := p.(gone := p.gone + [file], left := p.left[1..])],
       files := s.files - {file},
       log := s.log + [Removed(p.run, file)])
  }

  /** The last write is on disk: the outcome is announced from the journal, if it is still there. */
  function FinishTask(s: Agent, id: Id): Agent {
    s.(procs := s.procs - {id},
       log := if id in Mem(s) then s.log + [Emitted(Mem(s)[id].run, Mem(s)[id].status)] else s.log)
  }

  function Acknowledge(s: Agent, id: Id, now: int): Agent {
    if id !in Mem(s) || IsActive(s, id) then s
    else
      var marked := Patch(s.journal, id, Mem(s)[id].(acked := true, updatedAt := now));
      var purged := PurgeJournal(marked, now);
      s.(journal := FlushJournal(purged),
         log := s.log + [Purged(marked.mem.value.Keys - purged.mem.value.Keys)])
  }

  // ----- Crash and recovery -----

  /** The records a starting process finds unfinished. */
  function Stale(tasks: Records): set<Id> {
    set id | id in tasks && !Finished(tasks[id])
  }

  function NextBoot(tasks: Records, todo: seq<Id>): Boot
    requires forall id <- todo :: id in tasks
  {
    if todo == [] then Booted
    else BootCleaning(todo[0], tasks[todo[0]].run, [], tasks[todo[0]].artifacts, todo[1..])
  }

  predicate IsOrder(order: seq<Id>, ids: set<Id>) {
    && (forall i, j :: 0 <= i < j < |order| ==> order[i] != order[j])
    && (forall id <- order :: id in ids)
    && (forall id <- ids :: id in order)
  }

  function Reloaded(s: Agent, now: int): Store<Records> {
    PurgeJournal(Load(s.journal.file), now)
  }

  /** The process dies at any point and the next one loads the journal's file. */
  function RebootAgent(s: Agent, order: seq<Id>, now: int): Agent
    requires IsOrder(order, Stale(Reloaded(s, now).mem.value))
  {
    var j := Reloaded(s, now);
    s.(journal := j,
       procs := map[],
       boot := NextBoot(j.mem.value, order),
       log := s.log + [Purged(s.journal.file.value.Keys - j.mem.value.Keys)])
  }

  function CleanAtBoot(s: Agent): Agent
    requires s.boot.BootCleaning? && s.boot.left != []
  {
    var b := s.boot;
    var file := b.left[0];
    s.(boot := b.(gone := b.gone + [file], left := b.left[1..]),
       files := s.files - {file},
       log := s.log + [Removed(b.run, file)])
  }

  function PutAtBoot(s: Agent, now: int): Agent
    requires s.boot.BootCleaning? && s.boot.id in Mem(s)
  {
    var b := s.boot;
    var (j, ticket) := Put(s.journal, b.id, Ended(Mem(s)[b.id], Failed, now));
    s.(journal := j, boot := BootEnding(b.id, b.run, ticket, j.mem.version, b.todo))
  }

  function FinishAtBoot(s: Agent): Agent
    requires s.boot.BootEnding? && forall id <- s.boot.todo :: id in Mem(s)
  {
    s.(boot := NextBoot(Mem(s), s.boot.todo), log := s.log + [Emitted(s.boot.run, Failed)])
  }

  // ----- Steps -----

  /** An id is not started anew while an outcome of it whose record was forgotten is still being written. */
  predicate CanStart(s: Agent, id: Id) {
    id in s.procs ==> id in Mem(s)
  }

  predicate CanLaunch(s: Agent, id: Id) {
    id in s.procs && s.procs[id].Putting? && s.procs[id].ticket <= s.journal.finished
  }

  predicate CanClean(s: Agent, id: Id) {
    id in s.procs && s.procs[id].Cleaning? && s.procs[id].left != []
  }

  predicate CanFail(s: Agent, id: Id) {
    id in s.procs && s.procs[id].Cleaning? && s.procs[id].left == [] && id in Mem(s)
  }

  predicate CanEnd(s: Agent, id: Id) {
    id in s.procs && s.procs[id].Ending? && s.procs[id].ticket <= s.journal.finished
  }

  predicate CanReboot(s: Agent, order: seq<Id>, now: int) {
    IsOrder(order, Stale(Reloaded(s, now).mem.value))
  }

  predicate CanBootClean(s: Agent) {
    s.boot.BootCleaning? && s.boot.left != []
  }

  predicate CanBootPut(s: Agent) {
    s.boot.BootCleaning? && s.boot.left == [] && s.boot.id in Mem(s)
  }

  predicate CanBootFinish(s: Agent) {
    s.boot.BootEnding? && s.boot.ticket <= s.journal.finished && forall id <- s.boot.todo :: id in Mem(s)
  }

  predicate CanStep(s: Agent, step: Step) {
    match step
    case Start(id, _) => CanStart(s, id)
    case Launch(id) => CanLaunch(s, id)
    case Declare(id, _, _) => IsExecuting(s, id)
    case Keep(id, _, _) => IsExecuting(s, id)
    case Progress(id, _) => IsExecuting(s, id)
    case Succeed(id, _) => IsExecuting(s, id)
    case Throw(id, _) => IsExecuting(s, id)
    case CleanOne(id) => CanClean(s, id)
    case FailPut(id, _) => CanFail(s, id)
    case Finish(id) => CanEnd(s, id)
    case BeginWrite => s.journal.CanStart()
    case EndWrite => s.journal.CanFinish()
    case Reboot(order, now) => CanReboot(s, order, now)
    case BootClean => CanBootClean(s)
    case BootPut(_) => CanBootPut(s)
    case BootFinish => CanBootFinish(s)
    case _ => true
  }

  function Apply(s: Agent, step: Step): Agent
    requires CanStep(s, step)
  {
    match step
    case Start(id, now) => StartTask(s, id, now)
    case Launch(id) => LaunchTask(s, id)
    case Declare(id, file, now) => PatchTask(s, id, WithFile(Mem(s)[id].artifacts, file), now)
    case Keep(id, file, now) => PatchTask(s, id, WithoutFile(Mem(s)[id].artifacts, file), now)
    case Progress(id, now) => PatchTask(s, id, Mem(s)[id].artifacts, now)
    case Work(file) => s.(files := s.files + {file})
    case Cancel(id) => CancelTask(s, id)
    case Succeed(id, now) => EndTask(s, id, Done, now)
    case Throw(id, own) => ThrowTask(s, id, own)
    case CleanOne(id) => CleanTask(s, id)
    case FailPut(id, now) => EndTask(s, id, if s.procs[id].cancelled then Cancelled else Failed, now)
    case Finish(id) => FinishTask(s, id)
    case AckResult(id, now) => Acknowledge(s, id, now)
    case Checkpoint => s.(journal := FlushJournal(s.journal))
    case BeginWrite => s.(journal := s.journal.StartWrite())
    case EndWrite => s.(journal := s.journal.FinishWrite())
    case Reboot(order, now) => RebootAgent(s, order, now)
    case BootClean => CleanAtBoot(s)
    case BootPut(now) => PutAtBoot(s, now)
    case BootFinish => FinishAtBoot(s)
  }

  /** An agent that has never run a task. */
  function Initial(files: set<File>): Agent {
    Agent(Load(Image(map[], 0)), map[], Booted, [], files, [])
  }

  ghost predicate IsTrace(run: seq<Agent>, steps: seq<Step>) {
    && |run| == |steps| + 1
    && forall i :: 0 <= i < |steps| ==> CanStep(run[i], steps[i]) && run[i + 1] == Apply(run[i], steps[i])
  }
}
