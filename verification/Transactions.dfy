/**
 * Nested `transaction()` calls of the panel's SQLite adapter: the statements they issue (`Eval`)
 * and the snapshot meaning callers rely on (`Denote`).
 */
module Transactions {
  import opened Options

  type Data = map<string, string>

  datatype Outcome = Returned | Thrown

  /** What the body of a transaction may do. */
  datatype Prog =
    | Skip
    | Write(key: string, value: string)
    | Throw                                      // a failing statement, or an error of the caller's own
    | Abort                                      // a failure for which SQLite itself rolls everything back
    | Sequence(first: Prog, second: Prog)
    | Branch(key: string, present: Prog, absent: Prog)
    | Catch(body: Prog, handler: Prog)
    | Transaction(body: Prog, beginFails: bool, commitFails: bool)

  // ----- The SQLite engine, statement by statement -----

  datatype FrameName = Base | Savepoint(n: nat)

  /** An open BEGIN (`Base`) or SAVEPOINT, with the data as it was when it was opened. */
  datatype Frame = Frame(name: FrameName, before: Data)

  datatype Connection = Connection(data: Data, frames: seq<Frame>) {
    predicate InTransaction() { frames != [] }
  }

  datatype Statement =
    | Put(key: string, value: string)
    | Begin(fails: bool)
    | Commit(fails: bool)
    | Rollback
    | Open(n: nat)
    | Release(n: nat)
    | RollbackTo(n: nat)
    | Failing
    | FailingWithRollback

  /** Position of the most recent savepoint called `n`, or `|frames|` when there is none. */
  function FindSavepoint(frames: seq<Frame>, n: nat): (i: nat)
    ensures i <= |frames|
    ensures i < |frames| ==> frames[i].name == Savepoint(n)
    ensures forall j :: i < j < |frames| ==> frames[j].name != Savepoint(n)
    ensures i == |frames| ==> forall j :: 0 <= j < |frames| ==> frames[j].name != Savepoint(n)
  {
    if frames == [] then 0
    else
      var last := |frames| - 1;
      if frames[last].name == Savepoint(n) then last
      else
        var i := FindSavepoint(frames[..last], n);
        if i == last then |frames| else i
  }

  /** Effect of one statement, and whether it succeeded. */
  function Execute(c: Connection, s: Statement): (Connection, bool) {
    match s
    case Put(k, v) => (c.(data := c.data[k := v]), true)
    case Begin(fails) =>
      if c.InTransaction() || fails then (c, false) else (c.(frames := [Frame(Base, c.data)]), true)
    case Commit(fails) =>
      if !c.InTransaction() || fails then (c, false) else (c.(frames := []), true)
    case Rollback =>
      if !c.InTransaction() then (c, false) else (Connection(c.frames[0].before, []), true)
    case Open(n) => (c.(frames := c.frames + [Frame(Savepoint(n), c.data)]), true)
    case Release(n) =>
      var i := FindSavepoint(c.frames, n);
      if i == |c.frames| then (c, false) else (c.(frames := c.frames[..i]), true)
    case RollbackTo(n) =>
      var i := FindSavepoint(c.frames, n);
      if i == |c.frames| then (c, false) else (Connection(c.frames[i].before, c.frames[..i + 1]), true)
    case Failing => (c, false)
    case FailingWithRollback =>
      if c.InTransaction() then (Connection(c.frames[0].before, []), false) else (c, false)
  }

  // ----- The adapter -----

  /** The adapter's state: its connection, its savepoint counter and every savepoint name it issued. */
  datatype State = State(conn: Connection, savepoint: nat, issued: seq<nat>) {
    function Exec(s: Statement): (State, bool) {
      var (c, ok) := Execute(conn, s);
      (this.(conn := c), ok)
    }

    /** `++this.#savepoint` followed by the SAVEPOINT statement. */
    function OpenSavepoint(): State {
      var n := savepoint + 1;
      this.(savepoint := n, issued := issued + [n]).Exec(Open(n)).0
    }

    /** The catch block of a nested call: a failing ROLLBACK TO leaves it at once. */
    function Undo(n: nat): State {
      var (s, ok) := Exec(RollbackTo(n));
      if ok then s.Exec(Release(n)).0 else s
    }
  }

  function Ran(r: (State, bool)): (State, Outcome) {
    (r.0, if r.1 then Returned else Thrown)
  }

  /** What a nested call does once its body is over. */
  function FinishNested(n: nat, body: (State, Outcome)): (State, Outcome) {
    var (s, o) := body;
    if o.Thrown? then (s.Undo(n), Thrown)
    else
      var (t, released) := s.Exec(Release(n));
      if released then (t, Returned) else (t.Undo(n), Thrown)
  }

  /** What the outermost call does once its body is over; a body may have lost the transaction already. */
  function FinishOuter(commitFails: bool, body: (State, Outcome)): (State, Outcome) {
    var (s, o) := body;
    var (t, committed) := if o.Returned? then s.Exec(Commit(commitFails)) else (s, false);
    if committed then (t, Returned)
    else if t.conn.InTransaction() then (t.Exec(Rollback).0, Thrown)
    else (t, Thrown)
  }

  /** Runs a program the way the adapter does. */
  function Eval(p: Prog, s: State): (State, Outcome) {
    match p
    case Skip => (s, Returned)
    case Write(k, v) => Ran(s.Exec(Put(k, v)))
    case Throw => Ran(s.Exec(Failing))
    case Abort => Ran(s.Exec(FailingWithRollback))
    case Sequence(a, b) =>
      var (s1, o1) := Eval(a, s);
      if o1.Thrown? then (s1, Thrown) else Eval(b, s1)
    case Branch(k, a, b) => if k in s.conn.data then Eval(a, s) else Eval(b, s)
    case Catch(a, h) =>
      var (s1, o1) := Eval(a, s);
      if o1.Thrown? then Eval(h, s1) else (s1, Returned)
    case Transaction(body, beginFails, commitFails) =>
      if s.conn.InTransaction() then
        var s1 := s.OpenSavepoint();
        FinishNested(s1.savepoint, Eval(body, s1))
      else
        var (s1, begun) := s.Exec(Begin(beginFails));
        if begun then FinishOuter(commitFails, Eval(body, s1)) else (s1, Thrown)
  }

  // ----- What the callers rely on -----

  /**
   * Snapshot meaning: data in, data out. `inside` says whether a transaction is already open; only
   * the outermost call begins and commits, so only there can BEGIN or COMMIT fail.
   */
  function Denote(p: Prog, d: Data, inside: bool): (Data, Outcome) {
    match p
    case Skip => (d, Returned)
    case Write(k, v) => (d[k := v], Returned)
    case Throw => (d, Thrown)
    case Abort => (d, Thrown)
    case Sequence(a, b) =>
      var (d1, o1) := Denote(a, d, inside);
      if o1.Thrown? then (d1, Thrown) else Denote(b, d1, inside)
    case Branch(k, a, b) => if k in d then Denote(a, d, inside) else Denote(b, d, inside)
    case Catch(a, h) =>
      var (d1, o1) := Denote(a, d, inside);
      if o1.Thrown? then Denote(h, d1, inside) else (d1, Returned)
    case Transaction(body, beginFails, commitFails) =>
      var (d1, o1) := Denote(body, d, true);
      if o1.Thrown? || (!inside && (beginFails || commitFails)) then (d, Thrown) else (d1, Returned)
  }

  /** Engine-level rollbacks occur nowhere in `p`. */
  predicate NoAbort(p: Prog) {
    match p
    case Skip => true
    case Write(_, _) => true
    case Throw => true
    case Abort => false
    case Sequence(a, b) => NoAbort(a) && NoAbort(b)
    case Branch(_, a, b) => NoAbort(a) && NoAbort(b)
    case Catch(a, h) => NoAbort(a) && NoAbort(h)
    case Transaction(body, _, _) => NoAbort(body)
  }

  /** `p` always throws and writes nothing. */
  predicate OnlyThrows(p: Prog) {
    match p
    case Skip => false
    case Write(_, _) => false
    case Throw => true
    case Abort => true
    case Sequence(a, _) => OnlyThrows(a)
    case Branch(_, a, b) => OnlyThrows(a) && OnlyThrows(b)
    case Catch(a, h) => OnlyThrows(a) && OnlyThrows(h)
    case Transaction(body, _, _) => OnlyThrows(body)
  }

  /** Inside a transaction, a failure for which SQLite rolls everything back is at most passed on by a `catch`. */
  predicate AbortsEscape(p: Prog, inside: bool) {
    match p
    case Skip => true
    case Write(_, _) => true
    case Throw => true
    case Abort => true
    case Sequence(a, b) => AbortsEscape(a, inside) && AbortsEscape(b, inside)
    case Branch(_, a, b) => AbortsEscape(a, inside) && AbortsEscape(b, inside)
    case Catch(a, h) =>
      AbortsEscape(a, inside) && AbortsEscape(h, inside) && (inside ==> NoAbort(a) || OnlyThrows(h))
    case Transaction(body, _, _) => AbortsEscape(body, true)
  }

  /** An `Abort` is executed on the snapshot run of `p` from `d`, inside a transaction. */
  predicate Aborts(p: Prog, d: Data) {
    match p
    case Skip => false
    case Write(_, _) => false
    case Throw => false
    case Abort => true
    case Sequence(a, b) =>
      var (d1, o1) := Denote(a, d, true);
      Aborts(a, d) || (o1.Returned? && Aborts(b, d1))
    case Branch(k, a, b) => if k in d then Aborts(a, d) else Aborts(b, d)
    case Catch(a, h) =>
      var (d1, o1) := Denote(a, d, true);
      Aborts(a, d) || (o1.Thrown? && Aborts(h, d1))
    case Transaction(body, _, _) => Aborts(body, d)
  }

  // ----- What the machine does, without its stack -----

  /** `lost`: the transaction that was open at the start is gone. */
  datatype Effect = Effect(data: Data, outcome: Outcome, lost: bool)

  /**
   * The meaning of every program, engine rollbacks included, without frames or savepoint names:
   * `base` is the data at the BEGIN of the transaction that is open, if there is one.
   */
  function Meaning(p: Prog, d: Data, base: Option<Data>): Effect
    decreases p, 0
  {
    match p
    case Skip => Effect(d, Returned, false)
    case Write(k, v) => Effect(d[k := v], Returned, false)
    case Throw => Effect(d, Thrown, false)
    case Abort => if base.Some? then Effect(base.value, Thrown, true) else Effect(d, Thrown, false)
    case Sequence(a, b) =>
      var e := Meaning(a, d, base);
      if e.outcome.Thrown? then e else AfterEffect(e, b, base)
    case Branch(k, a, b) => if k in d then Meaning(a, d, base) else Meaning(b, d, base)
    case Catch(a, h) =>
      var e := Meaning(a, d, base);
      if e.outcome.Thrown? then AfterEffect(e, h, base) else e
    case Transaction(body, beginFails, commitFails) =>
      if base.None? && beginFails then Effect(d, Thrown, false)
      else
        var e := Meaning(body, d, if base.None? then Some(d) else base);
        if e.lost then Effect(e.data, Thrown, base.Some?)
        else if e.outcome.Thrown? || (base.None? && commitFails) then Effect(d, Thrown, false)
        else Effect(e.data, Returned, false)
  }

  /** What follows once a part is over: outside any transaction when that part lost it. */
  function AfterEffect(e: Effect, p: Prog, base: Option<Data>): Effect
    decreases p, 1
  {
    var f := Meaning(p, e.data, if e.lost then None else base);
    f.(lost := e.lost || f.lost)
  }

  /** Every name the adapter ever issued is at most the counter, each larger than the one before. */
  predicate NamesInOrder(s: State) {
    && (forall i, j :: 0 <= i < j < |s.issued| ==> s.issued[i] < s.issued[j])
    && (forall i :: 0 <= i < |s.issued| ==> s.issued[i] <= s.savepoint)
  }

  /** After `p`, the issued names have only grown and none was used twice. */
  predicate NamesFresh(s: State, t: State) {
    s.savepoint <= t.savepoint && s.issued <= t.issued && (NamesInOrder(s) ==> NamesInOrder(t))
  }

  lemma FindsLast(frames: seq<Frame>, f: Frame, n: nat)
    requires f.name == Savepoint(n)
    ensures FindSavepoint(frames + [f], n) == |frames|
  {
    assert (frames + [f])[|frames|] == f;
  }

  /**
   * A nested call whose savepoint is on top of the stack takes it off, keeps the data when the body
   * returned and puts the data back when it threw.
   */
  lemma FinishNestedOnTop(s: State, o: Outcome, frames: seq<Frame>, before: Data, n: nat)
    requires s.conn.frames == frames + [Frame(Savepoint(n), before)]
    ensures FinishNested(n, (s, o))
            == (s.(conn := Connection(if o.Returned? then s.conn.data else before, frames)), o)
  {
    FindsLast(frames, Frame(Savepoint(n), before), n);
    assert s.conn.frames[..|frames| + 1] == s.conn.frames;
    assert s.conn.frames[..|frames|] == frames;
  }

  lemma FreshThenFresh(s: State, t: State, u: State)
    requires NamesFresh(s, t) && NamesFresh(t, u)
    ensures NamesFresh(s, u)
  {
  }

  lemma OnlyConnection(s: State, t: State)
    requires s.savepoint == t.savepoint && s.issued == t.issued
    ensures NamesFresh(s, t)
  {
  }

  /** A nested call opens exactly one savepoint, under a name that is issued with it and was never issued before. */
  lemma OpeningIssuesItsName(s: State)
    requires NamesInOrder(s)
    ensures var t, n := s.OpenSavepoint(), s.OpenSavepoint().savepoint;
            && t.issued == s.issued + [n] && n !in s.issued && NamesInOrder(t)
            && t.conn == Connection(s.conn.data, s.conn.frames + [Frame(Savepoint(n), s.conn.data)])
  {
  }

  lemma OpeningIsFresh(s: State)
    ensures NamesFresh(s, s.OpenSavepoint())
  {
  }

  /** Whatever the statements do, no savepoint name is ever issued twice. */
  lemma {:induction false} NamesNeverReused(p: Prog, s: State)
    ensures NamesFresh(s, Eval(p, s).0)
  {
    hide NamesInOrder, Execute;
    match p
    case Skip => OnlyConnection(s, Eval(p, s).0);
    case Write(_, _) => OnlyConnection(s, Eval(p, s).0);
    case Throw => OnlyConnection(s, Eval(p, s).0);
    case Abort => OnlyConnection(s, Eval(p, s).0);
    case Sequence(a, b) =>
      var t := Eval(a, s).0;
      NamesNeverReused(a, s);
      NamesNeverReused(b, t);
      FreshThenFresh(s, t, Eval(b, t).0);
    case Branch(_, a, b) =>
      NamesNeverReused(a, s);
      NamesNeverReused(b, s);
    case Catch(a, h) =>
      var t := Eval(a, s).0;
      NamesNeverReused(a, s);
      NamesNeverReused(h, t);
      FreshThenFresh(s, t, Eval(h, t).0);
    case Transaction(body, beginFails, _) =>
      if s.conn.InTransaction() || s.Exec(Begin(beginFails)).1 {
        var t := if s.conn.InTransaction() then s.OpenSavepoint() else s.Exec(Begin(beginFails)).0;
        if s.conn.InTransaction() { OpeningIsFresh(s); } else { OnlyConnection(s, t); }
        NamesNeverReused(body, t);
        FreshThenFresh(s, t, Eval(body, t).0);
        OnlyConnection(Eval(body, t).0, Eval(p, s).0);
        FreshThenFresh(s, Eval(body, t).0, Eval(p, s).0);
      } else {
        OnlyConnection(s, Eval(p, s).0);
      }
  }

  /** `t` and `o` are what the snapshot meaning of `p` says, with the stack of `s` untouched. */
  predicate Follows(p: Prog, s: State, t: State, o: Outcome) {
    && Denote(p, s.conn.data, s.conn.InTransaction()) == (t.conn.data, o)
    && t.conn.frames == s.conn.frames
  }

  /**
   * The machine agrees with the snapshot meaning, for every tree of nested calls with throws,
   * catches and failing BEGIN or COMMIT anywhere: same outcome, same data, and the stack of open
   * transactions is exactly the one the program started with.
   */
  lemma {:induction false} MachineRefinesSnapshots(p: Prog, s: State)
    requires NoAbort(p)
    ensures Follows(p, s, Eval(p, s).0, Eval(p, s).1)
  {
    match p
    case Skip =>
    case Write(_, _) =>
    case Throw =>
    case Sequence(a, b) =>
      MachineRefinesSnapshots(a, s);
      MachineRefinesSnapshots(b, Eval(a, s).0);
    case Branch(_, a, b) =>
      MachineRefinesSnapshots(a, s);
      MachineRefinesSnapshots(b, s);
    case Catch(a, h) =>
      MachineRefinesSnapshots(a, s);
      MachineRefinesSnapshots(h, Eval(a, s).0);
    case Transaction(body, beginFails, commitFails) =>
      if s.conn.InTransaction() {
        var s1 := s.OpenSavepoint();
        MachineRefinesSnapshots(body, s1);
        var (s2, o2) := Eval(body, s1);
        FinishNestedOnTop(s2, o2, s.conn.frames, s.conn.data, s1.savepoint);
      } else {
        MachineRefinesSnapshots(body, s.Exec(Begin(false)).0);
      }
  }

  // ----- Engine rollbacks -----

  /** The data at the BEGIN of the transaction that is open. */
  function BaseOf(c: Connection): Option<Data> {
    if c.frames == [] then None else Some(c.frames[0].before)
  }

  /** The state `t` and the outcome are as the effect says, on top of the stack of `s`. */
  predicate Realizes(s: State, t: State, o: Outcome, e: Effect) {
    && t.conn == Connection(e.data, if e.lost then [] else s.conn.frames) && o == e.outcome
    && (e.lost ==> s.conn.InTransaction())
  }

  lemma {:induction false} SequenceRealizes(s: State, t: State, u: State, o: Outcome, e: Effect, p: Prog)
    requires Realizes(s, t, e.outcome, e)
    requires Realizes(t, u, o, Meaning(p, t.conn.data, BaseOf(t.conn)))
    ensures Realizes(s, u, o, AfterEffect(e, p, BaseOf(s.conn)))
  {
    hide Meaning;
  }

  /** Closing a nested call: its savepoint is on top, or the transaction is gone as a whole. */
  lemma NestedRealizes(s: State, t: State, o: Outcome, e: Effect)
    requires s.conn.InTransaction() && Realizes(s.OpenSavepoint(), t, o, e)
    ensures var (u, r) := FinishNested(s.OpenSavepoint().savepoint, (t, o));
            var f := if e.lost then Effect(e.data, Thrown, true)
                     else if o.Thrown? then Effect(s.conn.data, Thrown, false) else Effect(e.data, Returned, false);
            Realizes(s, u, r, f)
  {
    var n := s.OpenSavepoint().savepoint;
    if e.lost {
      assert FinishNested(n, (t, o)) == (t, Thrown) by { FinishNestedLost(t, o, n); }
    } else {
      FinishNestedOnTop(t, o, s.conn.frames, s.conn.data, n);
    }
    hide FinishNested;
  }

  lemma FinishNestedLost(t: State, o: Outcome, n: nat)
    requires t.conn.frames == []
    ensures FinishNested(n, (t, o)) == (t, Thrown)
  {
  }

  /**
   * For every program, whatever throws, is caught or is rolled back by SQLite itself, and from any
   * stack of open savepoints: the machine does what the stackless meaning says.
   */
  lemma {:induction false} MachineHasMeaning(p: Prog, s: State)
    ensures Realizes(s, Eval(p, s).0, Eval(p, s).1, Meaning(p, s.conn.data, BaseOf(s.conn)))
    decreases p
  {
    var (t, o) := Eval(p, s);
    match p
    case Skip =>
    case Write(_, _) =>
    case Throw =>
    case Abort =>
    case Sequence(a, b) =>
      MachineHasMeaning(a, s);
      var (s1, o1) := Eval(a, s);
      if o1.Returned? {
        MachineHasMeaning(b, s1);
        SequenceRealizes(s, s1, t, o, Meaning(a, s.conn.data, BaseOf(s.conn)), b);
      }
    case Branch(_, a, b) =>
      MachineHasMeaning(a, s);
      MachineHasMeaning(b, s);
    case Catch(a, h) =>
      MachineHasMeaning(a, s);
      var (s1, o1) := Eval(a, s);
      if o1.Thrown? {
        MachineHasMeaning(h, s1);
        SequenceRealizes(s, s1, t, o, Meaning(a, s.conn.data, BaseOf(s.conn)), h);
      }
    case Transaction(body, beginFails, commitFails) =>
      if s.conn.InTransaction() {
        var s1 := s.OpenSavepoint();
        MachineHasMeaning(body, s1);
        var (s2, o2) := Eval(body, s1);
        NestedRealizes(s, s2, o2, Meaning(body, s.conn.data, BaseOf(s.conn)));
        hide Eval, Realizes, FinishNested, Execute;
      } else if !beginFails {
        MachineHasMeaning(body, s.Exec(Begin(false)).0);
      }
  }

  /** Inside a transaction: it is lost exactly when the snapshot run meets an engine rollback. */
  lemma {:induction false} LostIffAborts(p: Prog, d: Data, base: Data)
    ensures Meaning(p, d, Some(base)).lost <==> Aborts(p, d)
    ensures !Aborts(p, d) ==> Meaning(p, d, Some(base)) == Effect(Denote(p, d, true).0, Denote(p, d, true).1, false)
    decreases p
  {
    match p
    case Skip =>
    case Write(_, _) =>
    case Throw =>
    case Abort =>
    case Sequence(a, b) =>
      LostIffAborts(a, d, base);
      LostIffAborts(b, Denote(a, d, true).0, base);
    case Branch(_, a, b) =>
      LostIffAborts(a, d, base);
      LostIffAborts(b, d, base);
    case Catch(a, h) =>
      LostIffAborts(a, d, base);
      LostIffAborts(h, Denote(a, d, true).0, base);
    case Transaction(body, _, _) => LostIffAborts(body, d, base);
  }

  /**
   * Inside a transaction, for every program: the snapshot meaning holds if and only if no statement
   * for which SQLite rolls everything back is reached. Otherwise the stack is gone for good.
   */
  lemma InsideExactly(p: Prog, s: State)
    requires s.conn.InTransaction()
    ensures Follows(p, s, Eval(p, s).0, Eval(p, s).1) <==> !Aborts(p, s.conn.data)
    ensures Aborts(p, s.conn.data) ==> Eval(p, s).0.conn.frames == []
  {
    MachineHasMeaning(p, s);
    LostIffAborts(p, s.conn.data, s.conn.frames[0].before);
    hide Eval, Meaning, Denote, Aborts;
  }

  /**
   * A call from outside any transaction, for every body: the snapshot meaning holds if and only if
   * BEGIN fails, or nothing makes SQLite roll back by itself, or the call is to throw anyway and what
   * runs after that rollback leaves the data as it was.
   */
  lemma CallExactly(body: Prog, beginFails: bool, commitFails: bool, s: State)
    requires !s.conn.InTransaction()
    ensures var p, d := Transaction(body, beginFails, commitFails), s.conn.data;
            Follows(p, s, Eval(p, s).0, Eval(p, s).1)
            <==> || beginFails
                 || !Aborts(body, d)
                 || ((commitFails || Denote(body, d, true).1.Thrown?) && Meaning(body, d, Some(d)).data == d)
  {
    var d := s.conn.data;
    var p := Transaction(body, beginFails, commitFails);
    MachineHasMeaning(p, s);
    LostIffAborts(body, d, d);
    assert Meaning(p, d, None)
        == if beginFails then Effect(d, Thrown, false)
           else
             var e := Meaning(body, d, Some(d));
             if e.lost then Effect(e.data, Thrown, false)
             else if e.outcome.Thrown? || commitFails then Effect(d, Thrown, false)
             else Effect(e.data, Returned, false);
    assert Denote(p, d, false)
        == if Denote(body, d, true).1.Thrown? || beginFails || commitFails then (d, Thrown)
           else (Denote(body, d, true).0, Returned);
    hide Eval, Meaning, Denote, Aborts;
  }

  // ----- Programs that are safe whatever SQLite rolls back -----

  lemma {:induction false} NeverAborts(p: Prog, d: Data)
    requires NoAbort(p)
    ensures !Aborts(p, d)
  {
    match p
    case Skip =>
    case Write(_, _) =>
    case Throw =>
    case Sequence(a, b) =>
      NeverAborts(a, d);
      NeverAborts(b, Denote(a, d, true).0);
    case Branch(_, a, b) =>
      NeverAborts(a, d);
      NeverAborts(b, d);
    case Catch(a, h) =>
      NeverAborts(a, d);
      NeverAborts(h, Denote(a, d, true).0);
    case Transaction(body, _, _) => NeverAborts(body, d);
  }

  lemma {:induction false} ThrowsOnly(p: Prog, d: Data, inside: bool)
    requires OnlyThrows(p)
    ensures Denote(p, d, inside) == (d, Thrown)
    ensures Meaning(p, d, None) == Effect(d, Thrown, false)
    ensures Meaning(p, d, Some(d)).data == d && Meaning(p, d, Some(d)).outcome == Thrown
  {
    match p
    case Throw =>
    case Abort =>
    case Sequence(a, _) => ThrowsOnly(a, d, inside);
    case Branch(_, a, b) =>
      ThrowsOnly(a, d, inside);
      ThrowsOnly(b, d, inside);
    case Catch(a, h) =>
      ThrowsOnly(a, d, inside);
      ThrowsOnly(h, d, inside);
    case Transaction(body, _, _) =>
      ThrowsOnly(body, d, true);
  }

  /** A program that at most passes such a failure on: it throws in the end, back at the data of BEGIN. */
  lemma {:induction false} EscapesToBase(p: Prog, d: Data, base: Data)
    requires AbortsEscape(p, true) && Aborts(p, d)
    ensures Meaning(p, d, Some(base)) == Effect(base, Thrown, true)
    ensures Denote(p, d, true).1 == Thrown
    decreases p
  {
    match p
    case Abort =>
    case Sequence(a, b) =>
      LostIffAborts(a, d, base);
      if Aborts(a, d) { EscapesToBase(a, d, base); } else { EscapesToBase(b, Denote(a, d, true).0, base); }
    case Branch(k, a, b) =>
      if k in d { EscapesToBase(a, d, base); } else { EscapesToBase(b, d, base); }
    case Catch(a, h) =>
      LostIffAborts(a, d, base);
      if Aborts(a, d) {
        if NoAbort(a) { NeverAborts(a, d); }
        EscapesToBase(a, d, base);
        ThrowsOnly(h, base, true);
        ThrowsOnly(h, Denote(a, d, true).0, true);
      } else {
        EscapesToBase(h, Denote(a, d, true).0, base);
      }
    case Transaction(body, _, _) => EscapesToBase(body, d, base);
  }

  /** Inside a transaction such a program follows its snapshot meaning, or throws with everything undone. */
  lemma InsideWithAborts(p: Prog, s: State)
    requires AbortsEscape(p, true) && s.conn.InTransaction()
    ensures var (t, o) := Eval(p, s);
            if Aborts(p, s.conn.data)
            then o == Denote(p, s.conn.data, true).1 == Thrown && t.conn == Connection(s.conn.frames[0].before, [])
            else Follows(p, s, t, o)
  {
    MachineHasMeaning(p, s);
    InsideExactly(p, s);
    if Aborts(p, s.conn.data) { EscapesToBase(p, s.conn.data, s.conn.frames[0].before); }
    hide Eval, Meaning, Denote, Aborts, AbortsEscape;
  }

  /**
   * From outside any transaction the snapshot meaning holds even when SQLite rolls back by itself:
   * the check before the final ROLLBACK keeps the adapter from undoing twice.
   */
  lemma {:induction false} OutsideWithAborts(p: Prog, s: State)
    requires AbortsEscape(p, false) && !s.conn.InTransaction()
    ensures Follows(p, s, Eval(p, s).0, Eval(p, s).1)
  {
    match p
    case Skip =>
    case Write(_, _) =>
    case Throw =>
    case Abort =>
    case Sequence(a, b) =>
      OutsideWithAborts(a, s);
      OutsideWithAborts(b, Eval(a, s).0);
    case Branch(_, a, b) =>
      OutsideWithAborts(a, s);
      OutsideWithAborts(b, s);
    case Catch(a, h) =>
      OutsideWithAborts(a, s);
      OutsideWithAborts(h, Eval(a, s).0);
    case Transaction(body, beginFails, commitFails) =>
      CallExactly(body, beginFails, commitFails, s);
      if Aborts(body, s.conn.data) { EscapesToBase(body, s.conn.data, s.conn.data); }
  }

  /** A call that throws restores the exact state on entry; a call that returns keeps its body's writes. */
  predicate Atomic(body: Prog, before: Connection, after: Connection, o: Outcome) {
    && after.frames == before.frames
    && (o.Thrown? ==> after == before)
    && (o.Returned? ==> Denote(body, before.data, true) == (after.data, Returned))
  }

  lemma CallIsAtomic(body: Prog, beginFails: bool, commitFails: bool, s: State)
    requires NoAbort(body)
    ensures var (t, o) := Eval(Transaction(body, beginFails, commitFails), s); Atomic(body, s.conn, t.conn, o)
  {
    MachineRefinesSnapshots(Transaction(body, beginFails, commitFails), s);
  }

  lemma NestedIsAtomic(body: Prog, s: State)
    requires NoAbort(body) && s.conn.InTransaction()
    ensures var s1 := s.OpenSavepoint();
            var (t, o) := FinishNested(s1.savepoint, Eval(body, s1));
            Atomic(body, s.conn, t.conn, o)
  {
    CallIsAtomic(body, false, false, s);
    hide FinishNested, Atomic, NoAbort;
  }

  lemma OuterIsAtomic(body: Prog, beginFails: bool, commitFails: bool, s: State)
    requires NoAbort(body) && !s.conn.InTransaction()
    ensures var (s1, begun) := s.Exec(Begin(beginFails));
            var (t, o) := if begun then FinishOuter(commitFails, Eval(body, s1)) else (s1, Thrown);
            Atomic(body, s.conn, t.conn, o)
  {
    CallIsAtomic(body, beginFails, commitFails, s);
    hide FinishOuter, Atomic, NoAbort;
  }

  /**
   * Why the catch must not swallow such a failure: the transaction is gone, the next write commits
   * by itself, and the call throws although that write stays.
   */
  lemma SwallowedAbortLeaksWrites(s: State)
    requires s.conn == Connection(map[], [])
    ensures var p := Transaction(Sequence(Catch(Abort, Skip), Write("k", "v")), false, false);
            !AbortsEscape(p, false) && Eval(p, s) == (s.(conn := Connection(map["k" := "v"], [])), Thrown)
  {
    SwallowsInside(Abort, Skip, Write("k", "v"));
    hide AbortsEscape;
    var begun := s.Exec(Begin(false)).0;
    var body := Sequence(Catch(Abort, Skip), Write("k", "v"));
    SwallowedAbortBody(s, begun);
    var t := s.(conn := Connection(map["k" := "v"], []));
    assert FinishOuter(false, (t, Returned)) == (t, Thrown);
  }

  lemma SwallowsInside(a: Prog, h: Prog, b: Prog)
    requires !NoAbort(a) && !OnlyThrows(h)
    ensures !AbortsEscape(Transaction(Sequence(Catch(a, h), b), false, false), false)
  {
    hide NoAbort, OnlyThrows;
    assert !AbortsEscape(Catch(a, h), true);
    assert !AbortsEscape(Sequence(Catch(a, h), b), true);
  }

  lemma SwallowedAbortBody(s: State, begun: State)
    requires s.conn == Connection(map[], []) && begun == s.(conn := Connection(map[], [Frame(Base, map[])]))
    ensures Eval(Sequence(Catch(Abort, Skip), Write("k", "v")), begun)
            == (s.(conn := Connection(map["k" := "v"], [])), Returned)
  {
    assert Eval(Abort, begun) == (s, Thrown);
    assert Eval(Skip, s) == (s, Returned);
    assert Eval(Catch(Abort, Skip), begun) == (s, Returned);
    assert Eval(Write("k", "v"), s) == (s.(conn := Connection(map["k" := "v"], [])), Returned);
  }

  /** A handler that throws is not enough either: what it writes before that stays. */
  lemma ThrowingHandlerLeaksWrites(s: State)
    requires s.conn == Connection(map[], [])
    ensures var p := Transaction(Catch(Abort, Sequence(Write("k", "v"), Throw)), false, false);
            && Denote(p, map[], false) == (map[], Thrown)
            && Eval(p, s).0.conn == Connection(map["k" := "v"], []) && Eval(p, s).1 == Thrown
  {
    var handler := Sequence(Write("k", "v"), Throw);
    var body := Catch(Abort, handler);
    var p := Transaction(body, false, false);
    MachineHasMeaning(p, s);
    assert Meaning(Abort, map[], Some(map[])) == Effect(map[], Thrown, true);
    assert Meaning(Write("k", "v"), map[], None) == Effect(map["k" := "v"], Returned, false);
    assert Meaning(Throw, map["k" := "v"], None) == Effect(map["k" := "v"], Thrown, false);
    assert Meaning(handler, map[], None) == Effect(map["k" := "v"], Thrown, false);
    assert Meaning(body, map[], Some(map[])) == Effect(map["k" := "v"], Thrown, true);
    assert Denote(handler, map[], true) == (map["k" := "v"], Thrown);
    assert Denote(body, map[], true) == (map["k" := "v"], Thrown);
    hide Eval;
  }

  // ----- The adapter as the object the panel holds -----

  class Handle {
    var conn: Connection
    var savepoint: nat
    ghost var issued: seq<nat>

    ghost function Value(): State
      reads this
    {
      State(conn, savepoint, issued)
    }

    constructor ()
      ensures Value() == State(Connection(map[], []), 0, [])
    {
      conn := Connection(map[], []);
      savepoint := 0;
      issued := [];
    }

    method Exec(s: Statement) returns (ok: bool)
      modifies this
      ensures (Value(), ok) == old(Value()).Exec(s)
    {
      var (c, done) := Execute(conn, s);
      conn := c;
      ok := done;
    }

    /** The catch block of a nested call. */
    method Undo(name: nat)
      modifies this
      ensures Value() == old(Value()).Undo(name)
    {
      var ok := Exec(RollbackTo(name));
      if ok { ok := Exec(Release(name)); }
    }

    /** A call made inside a transaction: a savepoint of its own around the body. */
    method RunNested(body: Prog) returns (o: Outcome)
      requires conn.InTransaction()
      modifies this
      decreases body, 1
      ensures (Value(), o)
              == FinishNested(old(Value()).OpenSavepoint().savepoint, Eval(body, old(Value()).OpenSavepoint()))
      ensures NoAbort(body) ==> Atomic(body, old(conn), conn, o)
    {
      hide Eval, Execute, NoAbort, Atomic;
      ghost var was := Value();
      savepoint := savepoint + 1;
      issued := issued + [savepoint];
      var name := savepoint;
      var ok := Exec(Open(name));
      o := Run(body);
      if o.Returned? {
        ok := Exec(Release(name));
        o := if ok then Returned else Thrown;
      }
      if o.Thrown? { Undo(name); }
      ghost var s1 := was.OpenSavepoint();
      assert (Value(), o) == FinishNested(s1.savepoint, Eval(body, s1));
      if NoAbort(body) {
        hide *;
        NestedIsAtomic(body, was);
      }
    }

    /** The outermost call: BEGIN, the body, COMMIT, and ROLLBACK unless the body already lost the transaction. */
    method RunOuter(body: Prog, beginFails: bool, commitFails: bool) returns (o: Outcome)
      requires !conn.InTransaction()
      modifies this
      decreases body, 1
      ensures (Value(), o)
              == var (s, begun) := old(Value()).Exec(Begin(beginFails));
                 if begun then FinishOuter(commitFails, Eval(body, s)) else (s, Thrown)
      ensures NoAbort(body) ==> Atomic(body, old(conn), conn, o)
    {
      if NoAbort(body) { OuterIsAtomic(body, beginFails, commitFails, Value()); }
      hide Eval, Execute, NoAbort, Atomic;
      var ok := Exec(Begin(beginFails));
      if !ok { return Thrown; }
      o := Run(body);
      if o.Returned? {
        ok := Exec(Commit(commitFails));
        o := if ok then Returned else Thrown;
      }
      if o.Thrown? && conn.InTransaction() { ok := Exec(Rollback); }
    }

    /** Runs a program; a `Transaction` in it is a call of the closure returned by `transaction()`. */
    method Run(p: Prog) returns (o: Outcome)
      modifies this
      decreases p, 0
      ensures (Value(), o) == Eval(p, old(Value()))
    {
      hide FinishNested, FinishOuter, Execute;
      var ok: bool;
      match p {
        case Skip => o := Returned;
        case Write(k, v) =>
          ok := Exec(Put(k, v));
          o := if ok then Returned else Thrown;
        case Throw =>
          ok := Exec(Failing);
          o := if ok then Returned else Thrown;
        case Abort =>
          ok := Exec(FailingWithRollback);
          o := if ok then Returned else Thrown;
        case Sequence(a, b) =>
          o := Run(a);
          if o.Returned? { o := Run(b); }
        case Branch(k, a, b) =>
          if k in conn.data { o := Run(a); } else { o := Run(b); }
        case Catch(a, h) =>
          o := Run(a);
          if o.Thrown? { o := Run(h); }
        case Transaction(body, beginFails, commitFails) =>
          if conn.InTransaction() {
            o := RunNested(body);
          } else {
            o := RunOuter(body, beginFails, commitFails);
          }
      }
    }

    /** What a caller of `transaction()` sees. */
    method Call(body: Prog, beginFails: bool, commitFails: bool) returns (o: Outcome)
      requires NoAbort(body)
      modifies this
      ensures conn.frames == old(conn.frames)
      ensures o.Thrown? ==> conn == old(conn)
      ensures o.Returned? ==> Denote(body, old(conn.data), true) == (conn.data, Returned)
    {
      hide Eval;
      CallIsAtomic(body, beginFails, commitFails, Value());
      o := Run(Transaction(body, beginFails, commitFails));
    }
  }
}
