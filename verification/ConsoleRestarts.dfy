/**
 * What the panel's ring gets of the lines an agent prints after a restart, when the counter restarts
 * anywhere: exactly those above the number the panel had reached.
 *
 * `DeliveredExactlyAbove` is about one message. Runs without losses are followed by `Tracks`: what
 * has come in, what is on the wire and what is pending are the lines printed since the restart, less
 * those the panel takes for old ones. The run that shows a lost line is built piece by piece.
 */
module ConsoleRestarts {
  import opened Options
  import opened Properties
  import opened Console
  import opened ConsoleRelay
  import opened ConsoleStream

  // ----- One delivery -----

  /** A line of a message is in what went into the ring afterwards iff it was before, or its number is new. */
  lemma DeliveredExactlyAbove(p: Panel, m: Message, line: Line)
    requires line in m.lines
    ensures line in Handle(p, m).history <==> line in p.history || line.number > p.latest
  {
    var added := Fresh(p, m.lines);
    FreshIsAbove(p, m.lines);
    AboveMembers(m.lines, p.latest);
    assert line in added <==> line in multiset(added);
    assert line in Above(m.lines, p.latest) <==> line in multiset(Above(m.lines, p.latest));
    hide Fresh, Above, LastOf;
  }

  /** What is in front stays, and only numbers above `n` come behind it. */
  predicate GrowsAbove(a: Lines, b: Lines, n: nat) {
    a <= b && forall k :: |a| <= k < |b| ==> b[k].number > n
  }

  lemma HandleGrowsAbove(p: Panel, m: Message)
    ensures GrowsAbove(p.history, Handle(p, m).history, p.latest) && p.latest <= Handle(p, m).latest
  {
    FreshIsAbove(p, m.lines);
    hide Fresh, LastOf, Ordered;
  }

  lemma StepGrowsAbove(s: Stream, step: Step, limits: Limits)
    requires Can(s, step) && !step.RestartPanel?
    ensures var t := Next(s, step, limits);
            GrowsAbove(s.panel.history, t.panel.history, s.panel.latest) && s.panel.latest <= t.panel.latest
  {
    if step.Deliver? { HandleGrowsAbove(s.panel, s.wire[0]); }
    hide Handle, Retained, Above, Misses, Drops, Chunks, Without;
  }

  /**
   * Whatever happens, losses and further restarts of the agent included: until the panel restarts, no
   * line numbered at or below where it stands ever comes in.
   */
  lemma {:induction false} NothingOldComesIn(run: seq<Stream>, steps: seq<Step>, limits: Limits, i: nat, n: nat)
    requires IsRun(run, steps, limits) && i <= n < |run|
    requires forall k :: i <= k < n ==> !steps[k].RestartPanel?
    ensures GrowsAbove(run[i].panel.history, run[n].panel.history, run[i].panel.latest)
    ensures run[i].panel.latest <= run[n].panel.latest
    decreases n
  {
    if i < n {
      NothingOldComesIn(run, steps, limits, i, n - 1);
      StepGrowsAbove(run[n - 1], steps[n - 1], limits);
      hide Next, Can;
      GrowsOn(run[i].panel, run[n - 1].panel, run[n].panel);
    }
  }

  lemma GrowsOn(p: Panel, q: Panel, r: Panel)
    requires GrowsAbove(p.history, q.history, p.latest) && p.latest <= q.latest
    requires GrowsAbove(q.history, r.history, q.latest)
    ensures GrowsAbove(p.history, r.history, p.latest)
  {
    var a, b, c := p.history, q.history, r.history;
    forall k | |a| <= k < |c| ensures c[k].number > p.latest {
      if k < |b| { assert c[k] == b[k]; }
    }
  }

  // ----- Since a restart -----

  /** The agent restarted at `counter` while the panel stood at `latest`. */
  datatype Restart = Restart(counter: nat, latest: nat, history: Lines)

  function PrintedSince(steps: seq<Step>, counter: nat): Lines {
    if steps == [] then []
    else
      var before := PrintedSince(steps[..|steps| - 1], counter);
      var last := steps[|steps| - 1];
      if last.Print? then before + [Line(counter + |before| + 1, last.text)] else before
  }

  predicate Numbered(lines: Lines, counter: nat) {
    forall i :: 0 <= i < |lines| ==> lines[i].number == counter + 1 + i
  }

  /** How many lines numbered after `counter` are numbered `n` or less. */
  function At(lines: Lines, counter: nat, n: nat): (k: nat)
    ensures k <= |lines|
  {
    if n <= counter then 0 else if n - counter >= |lines| then |lines| else n - counter
  }

  /** The panel has got exactly the lines above where it stood, up to where it stands. */
  predicate Exact(r: Restart, printed: Lines, p: Panel) {
    && r.latest <= p.latest <= Max(r.latest, r.counter + |printed|)
    && p.history == r.history + printed[At(printed, r.counter, r.latest)..At(printed, r.counter, p.latest)]
  }

  /** So it has at every point of the delivery of what is on the wire. */
  predicate WireExact(r: Restart, printed: Lines, p: Panel, wire: seq<Message>)
    decreases |wire|
  {
    Exact(r, printed, p) && (wire == [] || WireExact(r, printed, Handle(p, wire[0]), wire[1..]))
  }

  predicate Ends(lines: Lines, printed: Lines) {
    |lines| <= |printed| && lines == printed[|printed| - |lines|..]
  }

  predicate Tracks(r: Restart, printed: Lines, s: Stream) {
    && Numbered(printed, r.counter) && s.counter == r.counter + |printed|
    && Ends(s.buffer, printed) && Ends(s.pending, printed)
    && WireExact(r, printed, s.panel, s.wire)
    && (s.connected && s.subscribed ==> s.counter <= Max(Arrived(s.panel, s.wire).latest, r.counter) + |s.pending|)
  }

  /** Some line printed since the restart, above what the panel has, is no longer retained. */
  predicate Evicted(s: Stream, p: Panel, counter: nat) {
    exists n :: Max(p.latest, counter) < n <= s.counter && !Carries(s.buffer, n)
  }

  /** Nothing printed since the restart is dropped under pressure or evicted before it was sent. */
  predicate Lossless(s: Stream, step: Step, counter: nat) {
    match step
    case Print(_, dropped) => !dropped
    case Flush(dropped) => !dropped
    case Connect(watched, dropped) =>
      watched ==> !Drops(Chunks(Above(s.buffer, s.panel.latest)), dropped) && !Evicted(s, s.panel, counter)
    case Respond(dropped) => !dropped && !Evicted(s, Arrived(s.panel, s.wire), counter)
    case RestartAgent(_) => false
    case RestartPanel => false
    case _ => true
  }

  // ----- Slices of what was printed -----

  lemma NumberedSlice(printed: Lines, counter: nat, a: nat, b: nat)
    requires Numbered(printed, counter) && a <= b <= |printed|
    ensures Consecutive(printed[a..b]) && Numbered(printed[a..b], counter + a)
  {
  }

  /** The new lines of a slice that leaves out none the panel misses. */
  lemma FreshOfSlice(printed: Lines, counter: nat, p: Panel, a: nat, b: nat)
    requires Numbered(printed, counter) && a <= b <= |printed| && a <= At(printed, counter, p.latest)
    ensures Fresh(p, printed[a..b])
            == if At(printed, counter, p.latest) < b then printed[At(printed, counter, p.latest)..b] else []
  {
    var lines := printed[a..b];
    NumberedSlice(printed, counter, a, b);
    FreshIsSuffix(p, lines);
    hide Fresh, Consecutive;
    var k := At(printed, counter, p.latest);
    if k < b { assert lines[k - a..] == printed[k..b]; }
  }

  lemma HandleIs(p: Panel, m: Message)
    ensures var added := Fresh(p, m.lines);
            var reached := if added == [] then p.latest else Max(p.latest, added[|added| - 1].number);
            && Handle(p, m).history == p.history + added
            && Handle(p, m).latest == if m.Batch? then reached else Max(reached, m.latest)
  {
    hide Fresh, LastOf;
  }

  lemma ExactOn(r: Restart, printed: Lines, p: Panel, q: Panel)
    requires Exact(r, printed, p) && p.latest <= q.latest <= Max(p.latest, r.counter + |printed|)
    requires var k, b := At(printed, r.counter, p.latest), At(printed, r.counter, q.latest);
             k <= b && q.history == p.history + printed[k..b]
    ensures Exact(r, printed, q)
  {
    var from := At(printed, r.counter, r.latest);
    var k, b := At(printed, r.counter, p.latest), At(printed, r.counter, q.latest);
    assert printed[from..k] + printed[k..b] == printed[from..b];
    assert q.history == r.history + (printed[from..k] + printed[k..b]);
  }

  lemma AtIs(printed: Lines, counter: nat, n: nat, b: nat)
    requires b <= |printed|
    ensures At(printed, counter, n) < b ==> At(printed, counter, counter + b) == b && n < counter + b
    ensures At(printed, counter, n) >= b ==> At(printed, counter, Max(n, counter + b)) == At(printed, counter, n)
    ensures At(printed, counter, n) >= b > 0 ==> n >= counter + b
  {
  }

  lemma LastOfSlice(printed: Lines, counter: nat, k: nat, b: nat)
    requires Numbered(printed, counter) && k < b <= |printed|
    ensures var added := printed[k..b]; added != [] && added[|added| - 1].number == counter + b
  {
  }

  /** The numbers after a message that leaves out none of the lines the panel misses. */
  lemma HandleReaches(printed: Lines, counter: nat, p: Panel, m: Message, a: nat, b: nat)
    requires Numbered(printed, counter) && a <= b <= |printed|
    requires m.lines == printed[a..b] && a <= At(printed, counter, p.latest)
    requires if m.Batch? then a < b else b == |printed| && m.latest == counter + b
    ensures var k := At(printed, counter, p.latest);
            && Handle(p, m).latest == Max(p.latest, counter + b)
            && Handle(p, m).history == p.history + if k < b then printed[k..b] else []
  {
    hide Fresh, Handle, Numbered, At;
    var k := At(printed, counter, p.latest);
    FreshOfSlice(printed, counter, p, a, b);
    HandleIs(p, m);
    AtIs(printed, counter, p.latest, b);
    if k < b { LastOfSlice(printed, counter, k, b); }
  }

  /** A message that leaves out none of the lines the panel misses brings it exactly up to date. */
  lemma HandleExact(r: Restart, printed: Lines, p: Panel, m: Message, a: nat, b: nat)
    requires Numbered(printed, r.counter) && Exact(r, printed, p)
    requires a <= b <= |printed| && m.lines == printed[a..b] && a <= At(printed, r.counter, p.latest)
    requires if m.Batch? then a < b else b == |printed| && m.latest == r.counter + b
    ensures Exact(r, printed, Handle(p, m)) && Handle(p, m).latest == Max(p.latest, r.counter + b)
  {
    var k := At(printed, r.counter, p.latest);
    HandleReaches(printed, r.counter, p, m, a, b);
    AtIs(printed, r.counter, p.latest, b);
    hide Handle, Numbered, Exact, At;
    if k >= b { assert printed[k..k] == []; }
    ExactOn(r, printed, p, Handle(p, m));
  }

  lemma {:induction false} WireExactSnoc(r: Restart, printed: Lines, p: Panel, wire: seq<Message>, m: Message)
    requires WireExact(r, printed, p, wire) && Exact(r, printed, Handle(Arrived(p, wire), m))
    ensures WireExact(r, printed, p, wire + [m])
    decreases |wire|
  {
    hide Exact, Handle;
    if wire == [] {
      assert (wire + [m])[1..] == [];
    } else {
      WireExactSnoc(r, printed, Handle(p, wire[0]), wire[1..], m);
      assert (wire + [m])[1..] == wire[1..] + [m];
    }
  }

  lemma {:induction false} ArrivedExact(r: Restart, printed: Lines, p: Panel, wire: seq<Message>)
    requires WireExact(r, printed, p, wire)
    ensures Exact(r, printed, p) && Exact(r, printed, Arrived(p, wire))
    decreases |wire|
  {
    hide Exact, Handle;
    if wire != [] { ArrivedExact(r, printed, Handle(p, wire[0]), wire[1..]); }
  }

  lemma PrintKeepsExact(r: Restart, printed: Lines, p: Panel, x: Line)
    requires Exact(r, printed, p)
    ensures Exact(r, printed + [x], p)
  {
    var from, to := At(printed, r.counter, r.latest), At(printed, r.counter, p.latest);
    if p.latest <= r.counter + |printed| {
      assert printed[from..to] == (printed + [x])[from..to];
    }
  }

  lemma {:induction false} PrintKeepsWireExact(r: Restart, printed: Lines, p: Panel, wire: seq<Message>, x: Line)
    requires WireExact(r, printed, p, wire)
    ensures WireExact(r, printed + [x], p, wire)
    decreases |wire|
  {
    PrintKeepsExact(r, printed, p, x);
    hide Exact, Handle;
    if wire != [] { PrintKeepsWireExact(r, printed, Handle(p, wire[0]), wire[1..], x); }
  }

  // ----- Every step -----

  lemma FlushTracks(r: Restart, printed: Lines, s: Stream)
    requires Tracks(r, printed, s)
    ensures Tracks(r, printed, FlushPending(s, false))
  {
    if s.pending != [] && s.connected && s.subscribed {
      var p := Arrived(s.panel, s.wire);
      var m := Batch(s.pending);
      ArrivedExact(r, printed, s.panel, s.wire);
      WireSnoc(s.panel, s.wire, m);
      var a := |printed| - |s.pending|;
      hide WireExact, Arrived, Numbered, WireOk;
      assert s.pending == printed[a..|printed|];
      HandleExact(r, printed, p, m, a, |printed|);
      hide Handle, Exact;
      WireExactSnoc(r, printed, s.panel, s.wire, m);
    }
    hide WireExact, Arrived, Numbered, Handle;
  }

  lemma PrintedTracks(r: Restart, printed: Lines, s: Stream, text: Text, limits: Limits)
    requires Tracks(r, printed, s)
    ensures Tracks(r, printed + [Line(s.counter + 1, text)], Printed(s, text, limits))
  {
    hide WireExact, Arrived, Retained, Ends, Numbered;
    var line := Line(s.counter + 1, text);
    PrintKeepsWireExact(r, printed, s.panel, s.wire, line);
    PrintKeepsEnds(s.buffer, printed, line, limits);
    PrintKeepsEnds(s.pending, printed, line, limits);
    NumberedSnoc(printed, r.counter, line);
  }

  lemma NumberedSnoc(printed: Lines, counter: nat, x: Line)
    requires Numbered(printed, counter) && x.number == counter + |printed| + 1
    ensures Numbered(printed + [x], counter)
  {
  }

  lemma PrintKeepsEnds(lines: Lines, printed: Lines, x: Line, limits: Limits)
    requires Ends(lines, printed)
    ensures Ends(lines + [x], printed + [x]) && Ends(Retained(lines + [x], limits), printed + [x])
  {
    RetainedIsSuffix(lines + [x], limits);
    hide Retained;
    EndsOn(Retained(lines + [x], limits), lines + [x], printed + [x]);
  }

  lemma EndsOn(a: Lines, b: Lines, c: Lines)
    requires Ends(b, c) && |a| <= |b| && a == b[|b| - |a|..]
    ensures Ends(a, c)
  {
  }

  lemma PrintTracks(r: Restart, printed: Lines, s: Stream, text: Text, limits: Limits)
    requires Tracks(r, printed, s)
    ensures Tracks(r, printed + [Line(s.counter + 1, text)], PrintLine(s, text, false, limits))
  {
    PrintedTracks(r, printed, s, text, limits);
    hide Tracks, FlushPending, Printed;
    FlushTracks(r, printed + [Line(s.counter + 1, text)], Printed(s, text, limits));
  }

  /** Without an eviction the retained lines leave out none the panel misses. */
  lemma BufferReaches(r: Restart, printed: Lines, s: Stream, p: Panel)
    requires Numbered(printed, r.counter) && s.counter == r.counter + |printed| && Ends(s.buffer, printed)
    requires !Evicted(s, p, r.counter)
    ensures |printed| - |s.buffer| <= At(printed, r.counter, p.latest)
  {
    var n := Max(p.latest, r.counter) + 1;
    if n <= s.counter {
      assert Carries(s.buffer, n);
      var i :| 0 <= i < |s.buffer| && s.buffer[i].number == n;
      assert s.buffer[i] == printed[|printed| - |s.buffer| + i];
    }
  }

  /** What is retained above `n`, as a slice of what was printed. */
  lemma AboveOfSlice(printed: Lines, counter: nat, e: nat, n: nat)
    requires Numbered(printed, counter) && e <= |printed|
    ensures Above(printed[e..], n) == printed[if e < At(printed, counter, n) then At(printed, counter, n) else e..]
  {
    var lines := printed[e..];
    NumberedSlice(printed, counter, e, |printed|);
    assert printed[e..|printed|] == lines;
    AboveIsSuffix(lines, n);
    hide Above, Consecutive;
    assert lines[SplitPoint(lines, n)..] == printed[e + SplitPoint(lines, n)..];
  }

  /** A catch-up sent in chunks brings the panel exactly up to date. */
  lemma {:induction false} ChunksExact(r: Restart, printed: Lines, p: Panel, a: nat)
    requires Numbered(printed, r.counter) && Exact(r, printed, p)
    requires a <= At(printed, r.counter, p.latest)
    ensures WireExact(r, printed, p, Chunks(printed[a..]))
    ensures a < |printed| ==> Arrived(p, Chunks(printed[a..])).latest == Max(p.latest, r.counter + |printed|)
    decreases |printed| - a
  {
    var lines := printed[a..];
    if |lines| <= CHUNK {
      if lines != [] {
        assert lines == printed[a..|printed|];
        HandleExact(r, printed, p, Batch(lines), a, |printed|);
        hide Exact, Handle, Numbered;
        var one: seq<Message> := [Batch(lines)];
        assert Chunks(lines) == one && one[1..] == [];
      }
    } else {
      var b := a + CHUNK;
      var first, rest := lines[..CHUNK], printed[b..];
      assert first == printed[a..b] && lines[CHUNK..] == rest;
      HandleExact(r, printed, p, Batch(first), a, b);
      var q := Handle(p, Batch(first));
      hide Exact, Handle, Numbered, Arrived, WireExact, Chunks;
      ChunksExact(r, printed, q, b);
      FirstExactChunk(r, printed, p, lines);
    }
  }

  lemma FirstExactChunk(r: Restart, printed: Lines, p: Panel, lines: Lines)
    requires |lines| > CHUNK
    ensures var q := Handle(p, Batch(lines[..CHUNK]));
            && Arrived(p, Chunks(lines)) == Arrived(q, Chunks(lines[CHUNK..]))
            && (WireExact(r, printed, p, Chunks(lines))
                <==> Exact(r, printed, p) && WireExact(r, printed, q, Chunks(lines[CHUNK..])))
  {
    hide Exact, Handle;
    var first, rest := lines[..CHUNK], lines[CHUNK..];
    assert Chunks(lines) == [Batch(first)] + Chunks(rest);
    hide Chunks;
    assert ([Batch(first)] + Chunks(rest))[1..] == Chunks(rest);
  }

  /** What a session that loses nothing sends. */
  lemma SessionIs(s: Stream, dropped: set<nat>)
    requires !Drops(Chunks(Above(s.buffer, s.panel.latest)), dropped)
    ensures var t := NewSession(s, true, dropped);
            && t.counter == s.counter && t.buffer == s.buffer && t.pending == s.pending && t.panel == s.panel
            && t.wire == Chunks(Above(s.buffer, s.panel.latest))
  {
    WithoutKeeps(Chunks(Above(s.buffer, s.panel.latest)), dropped, 0);
    hide Above, Chunks, Without, Misses;
  }

  /** The catch-up of a session brings the panel exactly up to date. */
  lemma CatchUpExact(r: Restart, printed: Lines, s: Stream)
    requires Tracks(r, printed, s) && !Evicted(s, s.panel, r.counter)
    ensures var wire := Chunks(Above(s.buffer, s.panel.latest));
            WireExact(r, printed, s.panel, wire) && s.counter <= Max(Arrived(s.panel, wire).latest, r.counter)
  {
    var e, k := |printed| - |s.buffer|, At(printed, r.counter, s.panel.latest);
    TracksBuffer(r, printed, s);
    TracksPanel(r, printed, s);
    BufferReaches(r, printed, s, s.panel);
    AboveOfSlice(printed, r.counter, e, s.panel.latest);
    assert Above(s.buffer, s.panel.latest) == printed[k..];
    AtIs(printed, r.counter, s.panel.latest, |printed|);
    hide Above, Chunks, Evicted, Numbered, WireExact, Exact, Ends, Arrived, At, Tracks;
    ChunksExact(r, printed, s.panel, k);
    if k == |printed| { NothingToCatchUp(s.panel, printed[k..]); }
  }

  lemma NothingToCatchUp(p: Panel, lines: Lines)
    requires lines == []
    ensures Arrived(p, Chunks(lines)) == p
  {
  }

  lemma TracksPanel(r: Restart, printed: Lines, s: Stream)
    requires Tracks(r, printed, s)
    ensures Exact(r, printed, s.panel) && Ends(s.pending, printed)
  {
    ArrivedExact(r, printed, s.panel, s.wire);
    hide Exact, Numbered, Ends, Arrived;
  }

  lemma SessionTracks(r: Restart, printed: Lines, s: Stream, watched: bool, dropped: set<nat>)
    requires Tracks(r, printed, s) && Lossless(s, Connect(watched, dropped), r.counter)
    ensures Tracks(r, printed, NewSession(s, watched, dropped))
  {
    TracksBuffer(r, printed, s);
    TracksPanel(r, printed, s);
    hide Above, Chunks, Drops, Evicted, Exact, Numbered, Ends, Without, Misses, Arrived;
    if watched {
      hide WireExact, NewSession;
      SessionIs(s, dropped);
      CatchUpExact(r, printed, s);
    }
  }

  lemma AtGrows(printed: Lines, counter: nat, m: nat, n: nat)
    requires m <= n
    ensures At(printed, counter, m) <= At(printed, counter, n)
  {
  }

  lemma TracksBuffer(r: Restart, printed: Lines, s: Stream)
    requires Tracks(r, printed, s)
    ensures Numbered(printed, r.counter) && s.counter == r.counter + |printed| && Ends(s.buffer, printed)
    ensures |s.buffer| <= |printed| && s.buffer == printed[|printed| - |s.buffer|..]
  {
    hide Numbered, WireExact, Arrived;
  }

  lemma AnswerAllowed(s: Stream, counter: nat)
    requires AskOk(s) && s.ask.Some? && Lossless(s, Respond(false), counter)
    ensures s.ask.value <= s.panel.latest && !Evicted(s, Arrived(s.panel, s.wire), counter)
  {
    hide Evicted, Arrived;
  }

  /** A subscription answer, as a slice of what was printed. */
  lemma AnswerIsSlice(r: Restart, printed: Lines, s: Stream) returns (a: nat)
    requires Tracks(r, printed, s) && AskOk(s) && s.ask.Some? && Lossless(s, Respond(false), r.counter)
    ensures a <= |printed| && a <= At(printed, r.counter, Arrived(s.panel, s.wire).latest)
    ensures Above(s.buffer, s.ask.value) == printed[a..|printed|]
  {
    hide *;
    var p := Arrived(s.panel, s.wire);
    TracksBuffer(r, printed, s);
    AnswerAllowed(s, r.counter);
    var e, k := |printed| - |s.buffer|, At(printed, r.counter, s.ask.value);
    a := if e < k then k else e;
    ArrivedGrows(s.panel, s.wire);
    AtGrows(printed, r.counter, s.ask.value, p.latest);
    BufferReaches(r, printed, s, p);
    AboveOfSlice(printed, r.counter, e, s.ask.value);
    assert printed[a..] == printed[a..|printed|];
  }

  lemma AnswerTracks(r: Restart, printed: Lines, s: Stream)
    requires Tracks(r, printed, s) && AskOk(s) && s.ask.Some? && Lossless(s, Respond(false), r.counter)
    requires Sound(s)
    ensures Tracks(r, printed, AnswerAsk(s, false))
  {
    var p := Arrived(s.panel, s.wire);
    var a := AnswerIsSlice(r, printed, s);
    ArrivedExact(r, printed, s.panel, s.wire);
    LatestIsCounter(s);
    hide Arrived, Above, Misses, Evicted, Numbered, WireExact, Sound, LatestNumber, At, AskOk, Ends, Lossless;
    var m := Message.Reply(Above(s.buffer, s.ask.value), s.counter);
    HandleExact(r, printed, p, m, a, |printed|);
    hide Handle, Exact;
    WireExactSnoc(r, printed, s.panel, s.wire, m);
    hide WireOk;
    WireSnoc(s.panel, s.wire, m);
  }

  lemma DeliverTracks(r: Restart, printed: Lines, s: Stream, limits: Limits)
    requires Tracks(r, printed, s) && s.wire != []
    ensures Tracks(r, printed, Next(s, Deliver, limits))
  {
    hide Exact, Handle, Numbered, Ends;
  }

  function AfterStep(printed: Lines, step: Step, counter: nat): Lines {
    if step.Print? then printed + [Line(counter + |printed| + 1, step.text)] else printed
  }

  lemma QuietTracks(r: Restart, printed: Lines, s: Stream, step: Step, limits: Limits)
    requires Tracks(r, printed, s) && Can(s, step) && (step.Disconnect? || step.Ask? || step.Unsubscribe?)
    ensures Tracks(r, printed, Next(s, step, limits))
  {
    ArrivedExact(r, printed, s.panel, s.wire);
    hide Exact, Numbered, Ends, At;
  }

  lemma PrintIs(s: Stream, text: Text, dropped: bool, limits: Limits)
    requires !dropped
    ensures Next(s, Print(text, dropped), limits) == PrintLine(s, text, false, limits)
  {
    hide PrintLine;
  }

  lemma StepTracks(r: Restart, printed: Lines, s: Stream, step: Step, limits: Limits)
    requires Tracks(r, printed, s) && AskOk(s) && Sound(s) && Can(s, step) && Lossless(s, step, r.counter)
    ensures Tracks(r, AfterStep(printed, step, r.counter), Next(s, step, limits))
  {
    hide Tracks, Sound, AskOk, PrintLine, FlushPending, NewSession, AnswerAsk, Handle, Evicted, Drops;
    match step
    case Print(text, dropped) =>
      TracksBuffer(r, printed, s);
      PrintTracks(r, printed, s, text, limits);
      PrintIs(s, text, dropped, limits);
    case Flush(dropped) => FlushTracks(r, printed, s);
    case Deliver => DeliverTracks(r, printed, s, limits);
    case Connect(watched, dropped) => SessionTracks(r, printed, s, watched, dropped);
    case Respond(dropped) => AnswerTracks(r, printed, s);
    case _ => QuietTracks(r, printed, s, step, limits);
  }

  ghost predicate RestartedRun(run: seq<Stream>, steps: seq<Step>, limits: Limits, i: nat, n: nat) {
    && IsRun(run, steps, limits) && i < n < |run| && steps[i].RestartAgent?
    && forall k :: i < k < n ==> Lossless(run[k], steps[k], steps[i].counter)
  }

  function RestartAt(run: seq<Stream>, steps: seq<Step>, i: nat): Restart
    requires i < |run| && i < |steps| && steps[i].RestartAgent?
  {
    Restart(steps[i].counter, run[i].panel.latest, run[i].panel.history)
  }

  lemma RestartedIs(s: Stream, counter: nat, limits: Limits)
    ensures var t := Next(s, RestartAgent(counter), limits);
            && t.counter == counter && t.buffer == [] && t.pending == [] && t.wire == []
            && !t.connected && t.panel == s.panel
  {
  }

  lemma RestartTracks(s: Stream, counter: nat, limits: Limits)
    ensures Tracks(Restart(counter, s.panel.latest, s.panel.history), [], Next(s, RestartAgent(counter), limits))
  {
    hide Next, Exact, Arrived, WireExact, At;
    RestartedIs(s, counter, limits);
    NothingPrintedYet(Restart(counter, s.panel.latest, s.panel.history), s.panel);
  }

  lemma NothingPrintedYet(r: Restart, p: Panel)
    requires r.latest == p.latest && r.history == p.history
    ensures Exact(r, [], p) && WireExact(r, [], p, [])
  {
    var none: Lines := [];
    assert none[At(none, r.counter, r.latest)..At(none, r.counter, p.latest)] == [];
  }

  lemma PrintedOn(steps: seq<Step>, i: nat, n: nat, counter: nat)
    requires i + 1 < n <= |steps|
    ensures PrintedSince(steps[i + 1..n], counter)
            == AfterStep(PrintedSince(steps[i + 1..n - 1], counter), steps[n - 1], counter)
  {
    assert steps[i + 1..n][..n - i - 2] == steps[i + 1..n - 1];
  }

  lemma RunStep(run: seq<Stream>, steps: seq<Step>, limits: Limits, i: nat, n: nat)
    requires RestartedRun(run, steps, limits, i, n)
    ensures Can(run[n - 1], steps[n - 1]) && run[n] == Next(run[n - 1], steps[n - 1], limits)
    ensures i + 1 < n ==> Lossless(run[n - 1], steps[n - 1], steps[i].counter)
    ensures i + 1 < n ==> RestartedRun(run, steps, limits, i, n - 1)
    ensures i + 1 < n ==> Sound(run[n - 1]) && AskOk(run[n - 1])
  {
    hide Next, Can, Lossless, Sound, AskOk, Whole;
    RunIsSound(run, steps, limits, n - 1);
    RunIsWhole(run, steps, limits, n - 1);
  }

  lemma {:induction false} RunTracks(run: seq<Stream>, steps: seq<Step>, limits: Limits, i: nat, n: nat)
    requires RestartedRun(run, steps, limits, i, n)
    ensures Tracks(RestartAt(run, steps, i), PrintedSince(steps[i + 1..n], steps[i].counter), run[n])
    decreases n
  {
    hide Tracks, Sound, AskOk, Lossless, Next, Can, PrintedSince;
    RunStep(run, steps, limits, i, n);
    var r := RestartAt(run, steps, i);
    if n == i + 1 {
      RestartTracks(run[i], steps[i].counter, limits);
      assert PrintedSince(steps[i + 1..n], steps[i].counter) == [] by { NothingPrinted(steps, i, r.counter); }
    } else {
      PrintedOn(steps, i, n, r.counter);
      RunTracks(run, steps, limits, i, n - 1);
      StepTracks(r, PrintedSince(steps[i + 1..n - 1], r.counter), run[n - 1], steps[n - 1], limits);
    }
  }

  lemma NothingPrinted(steps: seq<Step>, i: nat, counter: nat)
    requires i < |steps|
    ensures PrintedSince(steps[i + 1..i + 1], counter) == []
  {
  }

  /**
   * The agent restarts with any counter. As long as nothing printed since then is dropped or evicted,
   * through any number of sessions, subscriptions and disconnections, what comes in is the lines above
   * where the panel stood, in order and from the first on; once all is flushed and arrived it is all of them.
   */
  lemma OnlyLaterNumbersArrive(run: seq<Stream>, steps: seq<Step>, limits: Limits, i: nat, n: nat)
    requires RestartedRun(run, steps, limits, i, n)
    ensures var r := RestartAt(run, steps, i);
            var later := Above(PrintedSince(steps[i + 1..n], r.counter), r.latest);
            var s := run[n];
            && s.panel.history <= r.history + later
            && (s.connected && s.subscribed && s.pending == []
                ==> Arrived(s.panel, s.wire).history == r.history + later)
  {
    hide *;
    RestartIs(run, steps, limits, i, n);
    var r := RestartAt(run, steps, i);
    RunTracks(run, steps, limits, i, n);
    LaterOfTracked(r, PrintedSince(steps[i + 1..n], r.counter), run[n]);
  }

  lemma RestartIs(run: seq<Stream>, steps: seq<Step>, limits: Limits, i: nat, n: nat)
    requires RestartedRun(run, steps, limits, i, n)
    ensures |run| == |steps| + 1 && i < n < |run| && steps[i].RestartAgent?
    ensures RestartAt(run, steps, i).counter == steps[i].counter
    ensures RestartAt(run, steps, i).latest == run[i].panel.latest
    ensures RestartAt(run, steps, i).history == run[i].panel.history
  {
  }

  lemma ExactIsPrefix(r: Restart, printed: Lines, p: Panel)
    requires Exact(r, printed, p)
    ensures p.history <= r.history + printed[At(printed, r.counter, r.latest)..]
    ensures r.counter + |printed| <= Max(p.latest, r.counter)
            ==> p.history == r.history + printed[At(printed, r.counter, r.latest)..]
  {
    var from, to := At(printed, r.counter, r.latest), At(printed, r.counter, p.latest);
    assert printed[from..to] <= printed[from..];
  }

  lemma LaterOfTracked(r: Restart, printed: Lines, s: Stream)
    requires Tracks(r, printed, s)
    ensures s.panel.history <= r.history + Above(printed, r.latest)
    ensures s.connected && s.subscribed && s.pending == []
            ==> Arrived(s.panel, s.wire).history == r.history + Above(printed, r.latest)
  {
    ArrivedExact(r, printed, s.panel, s.wire);
    AboveOfSlice(printed, r.counter, 0, r.latest);
    assert printed[0..] == printed;
    hide Above, Arrived, WireExact, Numbered, Ends, Exact, At;
    ExactIsPrefix(r, printed, s.panel);
    ExactIsPrefix(r, printed, Arrived(s.panel, s.wire));
  }

  /** So the restart costs no line printed after it if and only if the counter did not fall behind the panel. */
  lemma RestartCostsNothingIff(run: seq<Stream>, steps: seq<Step>, limits: Limits, i: nat, n: nat)
    requires RestartedRun(run, steps, limits, i, n)
    requires run[n].connected && run[n].subscribed && run[n].pending == []
    ensures var printed := PrintedSince(steps[i + 1..n], steps[i].counter);
            Arrived(run[n].panel, run[n].wire).history == run[i].panel.history + printed
            <==> run[i].panel.latest <= steps[i].counter || printed == []
  {
    var r := RestartAt(run, steps, i);
    var printed := PrintedSince(steps[i + 1..n], r.counter);
    OnlyLaterNumbersArrive(run, steps, limits, i, n);
    RunTracks(run, steps, limits, i, n);
    AboveOfSlice(printed, r.counter, 0, r.latest);
    assert printed[0..] == printed;
    hide RestartedRun, PrintedSince, Above, Arrived, WireExact, Numbered, Ends;
    var later := Above(printed, r.latest);
    if |later| < |printed| { assert |r.history + later| < |r.history + printed|; }
  }

  // ----- A run that reuses a number -----

  /** Connect, print a line, send it and deliver it. */
  function ShowLine(text: Text): (steps: seq<Step>)
    ensures |steps| == 4
  {
    [Connect(true, {}), Print(text, false), Flush(false), Deliver]
  }

  /** One printed line, on its way from an agent that had nothing to send. */
  predicate Shows(s: Stream, states: seq<Stream>, text: Text, limits: Limits) {
    && |states| == 4
    && states[0] == Next(s, Connect(true, {}), limits)
    && forall k :: 0 < k < 4
        ==> Can(states[k - 1], ShowLine(text)[k]) && states[k] == Next(states[k - 1], ShowLine(text)[k], limits)
  }

  lemma ShowStates(s: Stream, text: Text, limits: Limits) returns (states: seq<Stream>)
    requires s.buffer == [] && s.pending == []
    ensures |states| == 4 && Shows(s, states, text, limits)
    ensures var t := states[3];
            && t.panel == OnLines(s.panel, [Line(s.counter + 1, text)])
            && t.connected && t.subscribed && t.pending == [] && t.wire == []
  {
    hide Retained, OnLines;
    var line := Line(s.counter + 1, text);
    var idle := NewSession(s, true, {});
    assert idle.wire == [] && idle.pending + [line] == [line];
    var printed := PrintLine(idle, text, false, limits);
    var sent := FlushPending(printed, false);
    assert sent.wire == [Batch([line])] && sent.wire[1..] == [];
    states := [idle, printed, sent, sent.(panel := Handle(sent.panel, sent.wire[0]), wire := sent.wire[1..])];
  }

  lemma {:induction false} OneLineArrives(p: Panel, line: Line)
    ensures OnLines(p, [line]).history == if line.number > p.latest then p.history + [line] else p.history
    ensures OnLines(p, [line]).latest == Max(p.latest, line.number)
  {
    FreshIsSuffix(p, [line]);
    hide Fresh, LastOf;
  }

  lemma ShowTwice(limits: Limits) returns (first: seq<Stream>, restarted: Stream, second: seq<Stream>)
    ensures Shows(START, first, [65], limits) && restarted == Next(first[3], RestartAgent(0), limits)
    ensures Shows(restarted, second, [66], limits)
    ensures first[3].panel.history == second[3].panel.history == [Line(1, [65])]
    ensures second[3].connected && second[3].subscribed && second[3].pending == [] && second[3].wire == []
  {
    hide Shows, OnLines, Next;
    first := ShowStates(START, [65], limits);
    restarted := Next(first[3], RestartAgent(0), limits);
    RestartedIs(first[3], 0, limits);
    second := ShowStates(restarted, [66], limits);
    OneLineArrives(EMPTY, Line(1, [65]));
    OneLineArrives(first[3].panel, Line(1, [66]));
  }

  /** The counter falls back, and the second line, printed under the number of the first, is lost. */
  lemma ReusedNumberRun(limits: Limits) returns (run: seq<Stream>, steps: seq<Step>)
    ensures IsRun(run, steps, limits) && |steps| == 9 && steps[4] == RestartAgent(0)
    ensures PrintedSince(steps[5..9], 0) == [Line(1, [66])]
    ensures run[4].panel.history == run[9].panel.history == [Line(1, [65])]
    ensures run[9].connected && run[9].subscribed && run[9].pending == [] && run[9].wire == []
  {
    var first, restarted, second := ShowTwice(limits);
    steps := ShowLine([65]) + [RestartAgent(0)] + ShowLine([66]);
    run := [START] + first + [restarted] + second;
    JoinRuns(first, restarted, second, [65], [66], limits);
    hide *;
    assert steps[5..9] == ShowLine([66]);
    PrintedByShow(steps[5..9], [66]);
    assert run[4] == first[3] && run[9] == second[3];
  }

  lemma JoinRuns(first: seq<Stream>, restarted: Stream, second: seq<Stream>, a: Text, b: Text, limits: Limits)
    requires Shows(START, first, a, limits) && restarted == Next(first[3], RestartAgent(0), limits)
    requires Shows(restarted, second, b, limits)
    ensures IsRun([START] + first + [restarted] + second, ShowLine(a) + [RestartAgent(0)] + ShowLine(b), limits)
  {
    CanConnect(START);
    CanConnect(first[3]);
    CanConnect(restarted);
    hide Next, Can;
    var run, steps := [START] + first + [restarted] + second, ShowLine(a) + [RestartAgent(0)] + ShowLine(b);
    forall i | 0 <= i < 9 ensures Can(run[i], steps[i]) && run[i + 1] == Next(run[i], steps[i], limits) {
      assert 1 <= i <= 3 ==> run[i] == first[i - 1] && run[i + 1] == first[i] && steps[i] == ShowLine(a)[i];
      assert 6 <= i <= 8 ==> run[i] == second[i - 6] && run[i + 1] == second[i - 5] && steps[i] == ShowLine(b)[i - 5];
    }
  }

  lemma CanConnect(s: Stream)
    ensures Can(s, Connect(true, {})) && Can(s, RestartAgent(0))
  {
  }

  lemma PrintedByShow(steps: seq<Step>, text: Text)
    requires steps == ShowLine(text)
    ensures PrintedSince(steps, 0) == [Line(1, text)]
  {
    assert steps[..3][..2] == [Connect(true, {}), Print(text, false)];
    assert steps[..3][..2][..1] == [Connect(true, {})];
    assert steps[..3] == [Connect(true, {}), Print(text, false), Flush(false)];
    assert [Connect(true, {})][..0] == [];
    assert PrintedSince([Connect(true, {})], 0) == [];
    assert PrintedSince(steps[..3][..2], 0) == [Line(1, text)];
    assert PrintedSince(steps[..3], 0) == [Line(1, text)];
  }
}
