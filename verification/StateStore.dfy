/**
 * The agent's durable state: one value in memory, one file, and a chain of serialised writes. Each
 * write has a number, its ticket, and takes its snapshot when it starts.
 */
module StateStore {
  /** A value of the state and how many mutations led to it. */
  datatype Image<+S> = Image(value: S, version: nat)

  datatype Store<+S> = Store(
    mem: Image<S>,
    dirty: bool,
    enqueued: nat,      // writes chained so far
    started: nat,       // writes that took their snapshot
    finished: nat,      // writes that replaced the file
    snapshot: Image<S>, // the last snapshot taken
    file: Image<S>
  ) {
    ghost predicate Valid() {
      && finished <= started <= enqueued && started <= finished + 1
      && file.version <= snapshot.version <= mem.version
      && (file.version == snapshot.version ==> file == snapshot)
      && (snapshot.version == mem.version ==> snapshot == mem)
      && (started == finished ==> snapshot == file)
      && (!dirty && started == enqueued ==> snapshot == mem)
    }

    function Changed(value: S): Image<S> {
      Image(value, mem.version + 1)
    }

    /** Changes the state without asking for a write. */
    function Mutate(value: S): Store<S> {
      this.(mem := Changed(value), dirty := true)
    }

    /** Chains one more write; the caller waits for that one. */
    function Save(): (Store<S>, nat) {
      (this.(dirty := false, enqueued := enqueued + 1), enqueued + 1)
    }

    function Update(value: S): (Store<S>, nat) {
      this.(mem := Changed(value)).Save()
    }

    /** Chains a write only when something is unsaved; otherwise waits for the last one chained. */
    function Flush(): (Store<S>, nat) {
      if dirty then Save() else (this, enqueued)
    }

    predicate CanStart() { started == finished && started < enqueued }

    function StartWrite(): Store<S>
      requires CanStart()
    {
      this.(started := started + 1, snapshot := mem)
    }

    predicate CanFinish() { started == finished + 1 }

    function FinishWrite(): Store<S>
      requires CanFinish()
    {
      this.(finished := finished + 1, file := snapshot)
    }

    /** The process dies and a new one loads the file: nothing else survives. */
    function Restart(): Store<S> {
      Load(file)
    }
  }

  function Load<S>(file: Image<S>): Store<S> {
    Store(file, false, 0, 0, 0, file, file)
  }

  /** A new process has what the file had, and nothing to save or to wait for. */
  lemma RestartOwesNothing<S>(s: Store<S>)
    ensures var t := s.Restart();
            && t.Valid() && t.mem == t.file == s.file && !t.dirty && t.Flush() == (t, 0)
            && !t.CanStart() && !t.CanFinish()
  {
  }

  datatype Action<S> =
    | Mutating(value: S)
    | Updating(value: S)
    | Flushing
    | Saving
    | Starting
    | Finishing
    | Restarting

  predicate Enabled<S>(s: Store<S>, a: Action<S>) {
    (a.Starting? ==> s.CanStart()) && (a.Finishing? ==> s.CanFinish())
  }

  function Next<S>(s: Store<S>, a: Action<S>): Store<S>
    requires Enabled(s, a)
  {
    match a
    case Mutating(v) => s.Mutate(v)
    case Updating(v) => s.Update(v).0
    case Flushing => s.Flush().0
    case Saving => s.Save().0
    case Starting => s.StartWrite()
    case Finishing => s.FinishWrite()
    case Restarting => s.Restart()
  }

  lemma StepKeepsValid<S>(s: Store<S>, a: Action<S>)
    requires s.Valid() && Enabled(s, a)
    ensures Next(s, a).Valid()
    ensures s.file.version <= Next(s, a).file.version
  {
  }

  /** The states a run goes through, one per action. */
  ghost predicate IsRun<S>(run: seq<Store<S>>, actions: seq<Action<S>>) {
    && |run| == |actions| + 1
    && forall i :: 0 <= i < |actions| ==> Enabled(run[i], actions[i]) && run[i + 1] == Next(run[i], actions[i])
  }

  /** What a caller holding `ticket` is owed: once that write is on disk, so is version `version`. */
  predicate Owed<S>(s: Store<S>, ticket: nat, version: nat) {
    && ticket <= s.enqueued
    && version <= s.mem.version
    && (ticket <= s.started ==> version <= s.snapshot.version)
    && (ticket <= s.finished ==> version <= s.file.version)
  }

  lemma OwedAtCall<S>(s: Store<S>, value: S)
    requires s.Valid()
    ensures Owed(s.Flush().0, s.Flush().1, s.mem.version)
    ensures Owed(s.Save().0, s.Save().1, s.mem.version)
    ensures Owed(s.Update(value).0, s.Update(value).1, s.mem.version + 1)
  {
  }

  lemma StepKeepsOwed<S>(s: Store<S>, a: Action<S>, ticket: nat, version: nat)
    requires s.Valid() && Enabled(s, a) && !a.Restarting?
    requires Owed(s, ticket, version)
    ensures Owed(Next(s, a), ticket, version)
  {
  }

  lemma {:induction false} RunKeepsOwed<S>(
    run: seq<Store<S>>, actions: seq<Action<S>>, ticket: nat, version: nat, i: nat)
    requires IsRun(run, actions) && i < |run|
    requires run[0].Valid() && Owed(run[0], ticket, version)
    requires Restarting !in actions
    ensures run[i].Valid() && Owed(run[i], ticket, version)
  {
    if i > 0 {
      RunKeepsOwed(run, actions, ticket, version, i - 1);
      StepKeepsValid(run[i - 1], actions[i - 1]);
      StepKeepsOwed(run[i - 1], actions[i - 1], ticket, version);
    }
  }

  /**
   * Durability of `flush`, `save` and `update`, for every interleaving: whatever happens after the
   * call, once the awaited write has finished the file holds the memory of the call or a later one.
   */
  lemma ResolvedCallIsDurable<S>(before: Store<S>, value: S, run: seq<Store<S>>, actions: seq<Action<S>>, i: nat)
    requires before.Valid() && IsRun(run, actions) && i < |run| && Restarting !in actions
    ensures run[0] == before.Flush().0 && before.Flush().1 <= run[i].finished
            ==> before.mem.version <= run[i].file.version
    ensures run[0] == before.Save().0 && before.Save().1 <= run[i].finished
            ==> before.mem.version <= run[i].file.version
    ensures run[0] == before.Update(value).0 && before.Update(value).1 <= run[i].finished
            ==> before.mem.version + 1 <= run[i].file.version
  {
    OwedAtCall(before, value);
    if run[0] == before.Flush().0 {
      StepKeepsValid(before, Flushing);
      RunKeepsOwed(run, actions, before.Flush().1, before.mem.version, i);
    }
    if run[0] == before.Save().0 {
      StepKeepsValid(before, Saving);
      RunKeepsOwed(run, actions, before.Save().1, before.mem.version, i);
    }
    if run[0] == before.Update(value).0 {
      StepKeepsValid(before, Updating(value));
      RunKeepsOwed(run, actions, before.Update(value).1, before.mem.version + 1, i);
    }
  }

  /** Along any run, crashes included, the file only moves forward through the memory's own history. */
  lemma {:induction false} FileFollowsMemory<S>(run: seq<Store<S>>, actions: seq<Action<S>>, i: nat, j: nat)
    requires IsRun(run, actions) && i <= j < |run|
    requires run[0] == Load(run[0].file)
    ensures run[i].file.version <= run[j].file.version
    ensures exists k :: 0 <= k <= j && run[k].mem == run[j].file
  {
    FileVersionsGrow(run, actions, i, j);
    FileWasMemory(run, actions, j);
  }

  lemma {:induction false} FileVersionsGrow<S>(run: seq<Store<S>>, actions: seq<Action<S>>, i: nat, j: nat)
    requires IsRun(run, actions) && i <= j < |run|
    requires run[0] == Load(run[0].file)
    ensures run[j].Valid() && run[i].file.version <= run[j].file.version
    decreases j
  {
    if i < j {
      FileVersionsGrow(run, actions, i, j - 1);
      StepKeepsValid(run[j - 1], actions[j - 1]);
    } else if j > 0 {
      FileVersionsGrow(run, actions, j - 1, j - 1);
      StepKeepsValid(run[j - 1], actions[j - 1]);
    }
  }

  lemma {:induction false} FileWasMemory<S>(run: seq<Store<S>>, actions: seq<Action<S>>, j: nat)
    requires IsRun(run, actions) && j < |run|
    requires run[0] == Load(run[0].file)
    ensures exists k :: 0 <= k <= j && run[k].mem == run[j].file
    ensures exists k :: 0 <= k <= j && run[k].mem == run[j].snapshot
  {
    if j == 0 {
      assert run[0].mem == run[0].file == run[0].snapshot;
    } else {
      FileWasMemory(run, actions, j - 1);
      assert run[j] == Next(run[j - 1], actions[j - 1]);
      if actions[j - 1].Starting? { assert run[j].mem == run[j].snapshot; }
    }
  }

  /** Nothing unsaved and nothing in flight: the file is the memory. */
  lemma {:induction false} QuietStoreIsSaved<S>(run: seq<Store<S>>, actions: seq<Action<S>>, j: nat)
    requires IsRun(run, actions) && j < |run|
    requires run[0] == Load(run[0].file)
    requires !run[j].dirty && run[j].finished == run[j].enqueued
    ensures run[j].file == run[j].mem
  {
    FileVersionsGrow(run, actions, j, j);
  }

  // ----- The store as the object the agent holds -----

  class StateFile<S> {
    var state: S
    var dirty: bool
    var writing: nat
    var started: nat
    var finished: nat
    var inFlight: S
    var file: S
    ghost var stateVersion: nat
    ghost var inFlightVersion: nat
    ghost var fileVersion: nat

    ghost function Value(): Store<S>
      reads this
    {
      Store(Image(state, stateVersion), dirty, writing, started, finished,
            Image(inFlight, inFlightVersion), Image(file, fileVersion))
    }

    ghost predicate Valid()
      reads this
    {
      Value().Valid()
    }

    constructor (contents: S)
      ensures Valid() && Value() == Load(Image(contents, 0))
    {
      state, inFlight, file := contents, contents, contents;
      dirty, writing, started, finished := false, 0, 0, 0;
      stateVersion, inFlightVersion, fileVersion := 0, 0, 0;
    }

    method Mutate(value: S)
      requires Valid()
      modifies this
      ensures Valid() && Value() == old(Value()).Mutate(value)
    {
      state, stateVersion := value, stateVersion + 1;
      dirty := true;
    }

    method Save() returns (ticket: nat)
      requires Valid()
      modifies this
      ensures Valid() && (Value(), ticket) == old(Value()).Save()
      ensures Owed(Value(), ticket, old(stateVersion))
    {
      dirty := false;
      writing := writing + 1;
      ticket := writing;
    }

    method Update(value: S) returns (ticket: nat)
      requires Valid()
      modifies this
      ensures Valid() && (Value(), ticket) == old(Value()).Update(value)
      ensures Owed(Value(), ticket, old(stateVersion) + 1)
    {
      state, stateVersion := value, stateVersion + 1;
      dirty := false;
      writing := writing + 1;
      ticket := writing;
    }

    method Flush() returns (ticket: nat)
      requires Valid()
      modifies this
      ensures Valid() && (Value(), ticket) == old(Value()).Flush()
      ensures Owed(Value(), ticket, old(stateVersion))
    {
      if dirty {
        ticket := Save();
      } else {
        ticket := writing;
      }
    }

    /** A chained write takes its turn and its snapshot. */
    method BeginWrite()
      requires Valid() && Value().CanStart()
      modifies this
      ensures Valid() && Value() == old(Value()).StartWrite()
    {
      inFlight, inFlightVersion := state, stateVersion;
      started := started + 1;
    }

    /** The temporary file replaces the state file. */
    method EndWrite()
      requires Valid() && Value().CanFinish()
      modifies this
      ensures Valid() && Value() == old(Value()).FinishWrite()
    {
      file, fileVersion := inFlight, inFlightVersion;
      finished := finished + 1;
    }
  }
}
