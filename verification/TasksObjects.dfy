/**
 * The journal and the runner as the objects the agent holds.
 */
module TasksObjects {
  import opened Options
  import opened StateStore
  import opened Tasks

  class TaskJournal {
    var tasks: Records
    var dirty: bool
    var writing: nat
    var started: nat
    var finished: nat
    var inFlight: Image<Records>
    var file: Image<Records>
    var version: nat

    ghost function Value(): Store<Records>
      reads this
    {
      Store(Image(tasks, version), dirty, writing, started, finished, inFlight, file)
    }

    ghost predicate Valid()
      reads this
    {
      Value().Valid()
    }

    /** `load`, for a file that parses; an unreadable one counts as empty. */
    constructor (contents: Image<Records>, now: int)
      ensures Valid() && Value() == PurgeJournal(Load(contents), now)
    {
      tasks, version, inFlight, file := contents.value, contents.version, contents, contents;
      dirty, writing, started, finished := false, 0, 0, 0;
      new;
      PurgeOld(now);
    }

    method Save() returns (ticket: nat)
      requires Valid()
      modifies this
      ensures Valid() && (Value(), ticket) == old(Value()).Save()
    {
      dirty := false;
      writing := writing + 1;
      ticket := writing;
    }

    method PutRecord(id: Id, r: Record) returns (ticket: nat)
      requires Valid()
      modifies this
      ensures Valid() && (Value(), ticket) == Put(old(Value()), id, r)
    {
      tasks, version := tasks[id := r], version + 1;
      dirty := false;
      writing := writing + 1;
      ticket := writing;
    }

    method PatchRecord(id: Id, r: Record)
      requires Valid()
      modifies this
      ensures Valid() && Value() == Patch(old(Value()), id, r)
    {
      tasks, version := tasks[id := r], version + 1;
      dirty := true;
    }

    /** Goes through the records and removes the forgettable ones, one after the other. */
    method PurgeOld(now: int)
      requires Valid()
      modifies this
      ensures Valid() && Value() == PurgeJournal(old(Value()), now)
    {
      var all, before, wasDirty := tasks, version, dirty;
      var left := all.Keys;
      while left != {}
        invariant left <= all.Keys
        invariant tasks == map id | id in all && (id in left || !Forgettable(all[id], now)) :: all[id]
        invariant tasks == all ==> dirty == wasDirty
        invariant tasks != all ==> dirty
        invariant version == before
        invariant unchanged(this`writing, this`started, this`finished, this`inFlight, this`file)
        decreases |left|
      {
        var id :| id in left;
        left := left - {id};
        if Forgettable(all[id], now) {
          RemoveRecord(id);
        }
      }
      assert tasks == Purge(all, now);
      if tasks != all { version := before + 1; }
    }

    /** Takes a record out; the version is counted once per purge. */
    method RemoveRecord(id: Id)
      requires id in tasks
      modifies this`tasks, this`dirty
      ensures tasks == old(tasks) - {id} && dirty
    {
      tasks := tasks - {id};
      dirty := true;
    }

    method Flush()
      requires Valid()
      modifies this
      ensures Valid() && Value() == FlushJournal(old(Value()))
    {
      if dirty { var _ := Save(); }
    }
  }

  class TaskRunner {
    const journal: TaskJournal
    var procs: map<Id, Proc>
    var boot: Boot
    var runs: seq<Id>
    var files: set<File>
    ghost var log: seq<Event>

    ghost function Value(): Agent
      reads this, journal
    {
      Agent(journal.Value(), procs, boot, runs, files, log)
    }

    ghost predicate Valid()
      reads this, journal
    {
      journal.Valid()
    }

    constructor (j: TaskJournal)
      requires j.Valid() && j.Value() == Load(Image(map[], 0))
      ensures Valid() && journal == j && Value() == Initial({})
    {
      journal := j;
      procs, boot, runs, files, log := map[], Booted, [], {}, [];
    }

    method StartUp(id: Id, now: int) returns (existing: bool)
      requires Valid()
      modifies this, journal
      ensures Valid() && Value() == StartTask(old(Value()), id, now)
      ensures existing == (id in old(journal.tasks))
    {
      existing := id in journal.tasks;
      if existing { return; }
      var run := |runs|;
      var ticket := journal.PutRecord(id, NewRecord(run, now));
      runs := runs + [id];
      procs := procs[id := Putting(run, ticket, journal.version)];
    }

    method Stop(id: Id) returns (cancelled: bool, status: Option<Status>)
      requires Valid()
      modifies this
      ensures Valid() && Value() == CancelTask(old(Value()), id)
      ensures cancelled == IsActive(old(Value()), id)
      ensures status == if cancelled then Some(Running)
                        else if id in journal.tasks then Some(journal.tasks[id].status) else None
    {
      cancelled := id in procs && !procs[id].Putting?;
      if cancelled {
        if procs[id].Executing? { procs := procs[id := procs[id].(aborted := true)]; }
        return cancelled, Some(Running);
      }
      status := if id in journal.tasks then Some(journal.tasks[id].status) else None;
    }

    method Ack(id: Id, now: int)
      requires Valid()
      modifies this, journal
      ensures Valid() && Value() == Acknowledge(old(Value()), id, now)
    {
      if id !in journal.tasks || (id in procs && !procs[id].Putting?) { return; }
      journal.PatchRecord(id, journal.tasks[id].(acked := true, updatedAt := now));
      ghost var marked := journal.tasks;
      journal.PurgeOld(now);
      log := log + [Purged(marked.Keys - journal.tasks.Keys)];
      journal.Flush();
    }

    /** Deletes the artifacts of a failed task in order. */
    method CleanupArtifacts(artifacts: seq<File>)
      modifies this`files
      ensures files == old(files) - set file | file in artifacts
    {
      for i := 0 to |artifacts|
        invariant files == old(files) - set file | file in artifacts[..i]
      {
        assert artifacts[..i + 1] == artifacts[..i] + [artifacts[i]];
        files := files - {artifacts[i]};
      }
      assert artifacts[..|artifacts|] == artifacts;
    }
  }
}
