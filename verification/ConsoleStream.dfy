/**
 * One server's console from the agent to the panel: live batches, catch-up on reconnection,
 * subscription answers, lost messages, and restarts on either side.
 *
 * Two invariants hold over every run. `Sound` needs nothing: whatever is sent is consecutive, and the
 * panel's ring and publications stay in order. `Whole` is about runs without losses: delivering what
 * is on the wire leaves no gap, and what was printed and is not pending has arrived or is on its way.
 */
module ConsoleStream {
  import opened Options
  import opened Properties
  import opened Console
  import opened ConsoleRelay

  datatype Message = Batch(lines: Lines) | Reply(lines: Lines, latest: nat)

  datatype Stream = Stream(
    counter: nat,            // number of the last line printed
    buffer: Lines,           // what the agent retains
    pending: Lines,          // lines of the next live batch
    connected: bool,
    subscribed: bool,        // the agent sends live batches
    ask: Option<nat>,        // a subscription request under way
    wire: seq<Message>,      // sent by the agent, not handled by the panel yet
    panel: Panel,
    lost: bool)              // a line was missing from a catch-up, or a message was dropped

  datatype Step =
    | Print(text: Text, dropped: bool)
    | Flush(dropped: bool)
    | Deliver
    | Disconnect
    | Connect(watched: bool, lostChunks: set<nat>)
    | Ask
    | Respond(dropped: bool)
    | Unsubscribe
    | RestartAgent(counter: nat)
    | RestartPanel

  const BATCH_MAX: nat := 50
  const CHUNK: nat := 200

  function Handle(p: Panel, m: Message): Panel {
    match m
    case Batch(lines) => OnLines(p, lines)
    case Reply(lines, latest) => Merge(p, lines, latest)
  }

  /** The panel once it has handled everything on the wire. */
  function Arrived(p: Panel, wire: seq<Message>): Panel
    decreases |wire|
  {
    if wire == [] then p else Arrived(Handle(p, wire[0]), wire[1..])
  }

  function FlushPending(s: Stream, dropped: bool): Stream {
    if s.pending == [] then s
    else if !(s.connected && s.subscribed) then s.(pending := [])
    else if dropped then s.(pending := [], lost := true)
    else s.(pending := [], wire := s.wire + [Batch(s.pending)])
  }

  /** The state right after a line was printed, before a full batch goes out. */
  function Printed(s: Stream, text: Text, limits: Limits): Stream {
    var line := Line(s.counter + 1, text);
    s.(counter := line.number, buffer := Retained(s.buffer + [line], limits), pending := s.pending + [line])
  }

  /** A full batch goes out at once. */
  function PrintLine(s: Stream, text: Text, dropped: bool, limits: Limits): Stream {
    var t := Printed(s, text, limits);
    if |t.pending| >= BATCH_MAX then FlushPending(t, dropped) else t
  }

  /** Some line that the panel will not have is no longer retained, and there are lines before it. */
  predicate Misses(s: Stream) {
    var p := Arrived(s.panel, s.wire);
    p.history != [] && p.latest < s.counter && (s.buffer == [] || p.latest + 1 < s.buffer[0].number)
  }

  function Chunks(lines: Lines): seq<Message> {
    if |lines| <= CHUNK then (if lines == [] then [] else [Batch(lines)])
    else [Batch(lines[..CHUNK])] + Chunks(lines[CHUNK..])
  }

  function Without(messages: seq<Message>, dropped: set<nat>, at: nat): seq<Message> {
    if messages == [] then []
    else (if at in dropped then [] else [messages[0]]) + Without(messages[1..], dropped, at + 1)
  }

  predicate Drops(messages: seq<Message>, dropped: set<nat>) {
    exists at :: 0 <= at < |messages| && at in dropped
  }

  /** A new session: the panel says where it stands, the agent sends what came after. */
  function NewSession(s: Stream, watched: bool, dropped: set<nat>): Stream {
    var t := s.(wire := [], connected := true, subscribed := watched, ask := None);
    if !watched then t
    else
      var messages := Chunks(Above(s.buffer, s.panel.latest));
      t.(wire := Without(messages, dropped, 0), lost := s.lost || Misses(t) || Drops(messages, dropped))
  }

  function LatestNumber(s: Stream): nat {
    if s.buffer == [] then s.counter else s.buffer[|s.buffer| - 1].number
  }

  function AnswerAsk(s: Stream, dropped: bool): Stream
    requires s.ask.Some?
  {
    var reply := Message.Reply(Above(s.buffer, s.ask.value), LatestNumber(s));
    if dropped then s.(ask := None, subscribed := true, lost := true)
    else s.(ask := None, subscribed := true, wire := s.wire + [reply], lost := s.lost || Misses(s))
  }

  predicate Can(s: Stream, step: Step) {
    match step
    case Deliver => s.wire != []
    case Ask => s.connected && s.ask.None?
    case Respond(_) => s.connected && s.ask.Some?
    case _ => true
  }

  function Next(s: Stream, step: Step, limits: Limits): Stream
    requires Can(s, step)
  {
    match step
    case Print(text, dropped) => PrintLine(s, text, dropped, limits)
    case Flush(dropped) => FlushPending(s, dropped)
    case Deliver => s.(panel := Handle(s.panel, s.wire[0]), wire := s.wire[1..])
    case Disconnect => s.(connected := false, wire := [], ask := None)
    case Connect(watched, dropped) => NewSession(s, watched, dropped)
    case Ask => s.(ask := Some(s.panel.latest))
    case Respond(dropped) => AnswerAsk(s, dropped)
    case Unsubscribe => s.(subscribed := false)
    case RestartAgent(counter) =>
      s.(counter := counter, buffer := [], pending := [], connected := false, subscribed := false, ask := None,
         wire := [])
    case RestartPanel => s.(connected := false, wire := [], ask := None, panel := EMPTY, lost := false)
  }

  const START: Stream := Stream(0, [], [], false, false, None, [], EMPTY, false)

  ghost predicate IsRun(run: seq<Stream>, steps: seq<Step>, limits: Limits) {
    && |run| == |steps| + 1 && run[0] == START
    && forall i :: 0 <= i < |steps| ==> Can(run[i], steps[i]) && run[i + 1] == Next(run[i], steps[i], limits)
  }

  // ----- What is sent -----

  predicate UpTo(lines: Lines, n: nat) {
    Consecutive(lines) && (lines != [] ==> lines[|lines| - 1].number == n)
  }

  predicate SentOk(wire: seq<Message>) {
    forall i :: 0 <= i < |wire| ==> Consecutive(wire[i].lines)
  }

  lemma ConsecutiveIncreases(lines: Lines)
    requires Consecutive(lines)
    ensures Increasing(lines) && NoTwins(lines) && Ordered(lines)
  {
    forall i, k | 0 <= i < k < |lines| ensures lines[i].number < lines[k].number {
      ConsecutiveAt(lines, i);
      ConsecutiveAt(lines, k);
    }
  }

  lemma UpToSnoc(lines: Lines, n: nat, text: Text)
    requires UpTo(lines, n)
    ensures UpTo(lines + [Line(n + 1, text)], n + 1)
  {
  }

  lemma UpToTail(lines: Lines, n: nat, k: nat)
    requires UpTo(lines, n) && k <= |lines|
    ensures UpTo(lines[k..], n)
  {
    ConsecutiveTail(lines, k);
  }

  lemma {:induction false} ChunksAreConsecutive(lines: Lines)
    requires Consecutive(lines)
    ensures SentOk(Chunks(lines))
  {
    if |lines| > CHUNK {
      ConsecutiveTail(lines, CHUNK);
      ChunksAreConsecutive(lines[CHUNK..]);
      var first := lines[..CHUNK];
      assert Consecutive(first);
    }
  }

  lemma {:induction false} WithoutKeeps(messages: seq<Message>, dropped: set<nat>, at: nat)
    ensures forall m :: m in Without(messages, dropped, at) ==> m in messages
    ensures (forall k :: at <= k < at + |messages| ==> k !in dropped) ==> Without(messages, dropped, at) == messages
  {
    if messages != [] {
      WithoutKeeps(messages[1..], dropped, at + 1);
      assert messages == [messages[0]] + messages[1..];
    }
  }

  // ----- Safety, whatever is lost -----

  /** Holds in every state, with any loss and any reuse of numbers. */
  predicate Sound(s: Stream) {
    UpTo(s.buffer, s.counter) && UpTo(s.pending, s.counter) && SentOk(s.wire) && PanelOk(s.panel)
  }

  lemma HandleKeepsPanel(p: Panel, m: Message)
    requires PanelOk(p) && Consecutive(m.lines)
    ensures PanelOk(Handle(p, m)) && p.latest <= Handle(p, m).latest
  {
    ConsecutiveIncreases(m.lines);
    hide PanelOk, NoTwins, Increasing, Consecutive, OnLines, Merge;
    AboveNoTwins(m.lines, p.latest);
    match m
    case Batch(lines) => OnLinesKeepsPanel(p, lines);
    case Reply(lines, latest) => MergeKeepsPanel(p, lines, latest);
  }

  lemma FlushKeepsSound(s: Stream, dropped: bool)
    requires Sound(s)
    ensures Sound(FlushPending(s, dropped))
  {
    hide PanelOk, Consecutive;
    NothingIsConsecutive();
  }

  lemma NothingIsConsecutive()
    ensures Consecutive([])
  {
  }

  lemma SoundIs(s: Stream)
    ensures Sound(s) <==> UpTo(s.buffer, s.counter) && UpTo(s.pending, s.counter) && SentOk(s.wire) && PanelOk(s.panel)
  {
  }

  lemma RetainedUpTo(lines: Lines, n: nat, limits: Limits)
    requires UpTo(lines, n)
    ensures UpTo(Retained(lines, limits), n)
  {
    RetainedIsSuffix(lines, limits);
    hide Retained, UpTo;
    UpToTail(lines, n, |lines| - |Retained(lines, limits)|);
  }

  lemma NextUpTo(lines: Lines, n: nat, text: Text, limits: Limits)
    requires UpTo(lines, n)
    ensures UpTo(lines + [Line(n + 1, text)], n + 1)
    ensures UpTo(Retained(lines + [Line(n + 1, text)], limits), n + 1)
  {
    UpToSnoc(lines, n, text);
    hide UpTo, Retained;
    RetainedUpTo(lines + [Line(n + 1, text)], n + 1, limits);
  }

  lemma PrintedIsSound(s: Stream, text: Text, limits: Limits)
    requires Sound(s)
    ensures Sound(Printed(s, text, limits))
  {
    SoundIs(s);
    SoundIs(Printed(s, text, limits));
    hide PanelOk, UpTo, Retained, SentOk, Sound;
    NextUpTo(s.buffer, s.counter, text, limits);
    NextUpTo(s.pending, s.counter, text, limits);
  }

  lemma PrintKeepsSound(s: Stream, text: Text, dropped: bool, limits: Limits)
    requires Sound(s)
    ensures Sound(PrintLine(s, text, dropped, limits))
  {
    PrintedIsSound(s, text, limits);
    hide Sound, Retained, FlushPending;
    FlushKeepsSound(Printed(s, text, limits), dropped);
  }

  lemma NothingSentIsOk()
    ensures SentOk([])
  {
  }

  lemma SessionKeepsSound(s: Stream, watched: bool, dropped: set<nat>)
    requires Sound(s)
    ensures Sound(NewSession(s, watched, dropped))
  {
    var lines := Above(s.buffer, s.panel.latest);
    AboveIsSuffix(s.buffer, s.panel.latest);
    ConsecutiveTail(s.buffer, SplitPoint(s.buffer, s.panel.latest));
    ChunksAreConsecutive(lines);
    WithoutKeeps(Chunks(lines), dropped, 0);
    hide PanelOk, Consecutive, Above, Chunks, Without, SplitPoint, Misses, Drops;
    var sent := Without(Chunks(lines), dropped, 0);
    forall i | 0 <= i < |sent| ensures sent[i] in Chunks(lines) { assert sent[i] in sent; }
    NothingSentIsOk();
  }

  lemma StepKeepsSound(s: Stream, step: Step, limits: Limits)
    requires Sound(s) && Can(s, step)
    ensures Sound(Next(s, step, limits))
  {
    if step.Print? { PrintKeepsSound(s, step.text, step.dropped, limits); }
    if step.Deliver? { HandleKeepsPanel(s.panel, s.wire[0]); }
    if step.Connect? { SessionKeepsSound(s, step.watched, step.lostChunks); }
    if step.Respond? {
      AboveIsSuffix(s.buffer, s.ask.value);
      ConsecutiveTail(s.buffer, SplitPoint(s.buffer, s.ask.value));
    }
    if step.RestartPanel? { EmptyIsOk(); }
    hide PanelOk, Consecutive, PrintLine, NewSession, Above, Misses, Handle, SplitPoint;
  }

  lemma EmptyIsOk()
    ensures PanelOk(EMPTY)
  {
  }

  lemma {:induction false} RunIsSound(run: seq<Stream>, steps: seq<Step>, limits: Limits, n: nat)
    requires IsRun(run, steps, limits) && n < |run|
    ensures Sound(run[n])
    decreases n
  {
    if n > 0 {
      RunIsSound(run, steps, limits, n - 1);
      StepKeepsSound(run[n - 1], steps[n - 1], limits);
    }
  }

  /**
   * In every state of every run, whatever is lost, repeated or dropped: the ring holds at most 1000
   * lines with strictly increasing numbers, and no number was ever published twice.
   */
  lemma RingIsSane(run: seq<Stream>, steps: seq<Step>, limits: Limits, n: nat)
    requires IsRun(run, steps, limits) && n < |run|
    ensures var p := run[n].panel;
            |p.ring| <= RING_MAX && Increasing(p.ring) && Increasing(p.published) && NoTwins(p.published)
  {
    RunIsSound(run, steps, limits, n);
    hide IsRun;
  }

  // ----- No gap when nothing was lost -----

  /** What went into the ring so far has no gap and ends where the panel stands. */
  predicate GapFree(p: Panel) {
    Consecutive(p.history) && (p.history != [] ==> p.history[|p.history| - 1].number == p.latest)
  }

  /** The lines do not leave out any after the last one known. */
  predicate Continues(p: Panel, lines: Lines) {
    p.history == [] || lines == [] || lines[0].number <= p.latest + 1
  }

  lemma ConsecutiveConcat(a: Lines, b: Lines)
    requires Consecutive(a) && Consecutive(b)
    requires a != [] && b != [] ==> b[0].number == a[|a| - 1].number + 1
    ensures Consecutive(a + b)
  {
  }

  /** The new lines of consecutive ones: a suffix, starting where it should. */
  lemma FreshIsSuffix(p: Panel, lines: Lines)
    requires Consecutive(lines)
    ensures Fresh(p, lines) == lines[SplitPoint(lines, p.latest)..] && Consecutive(Fresh(p, lines))
  {
    var k := SplitPoint(lines, p.latest);
    AboveIsSuffix(lines, p.latest);
    ConsecutiveTail(lines, k);
    ConsecutiveIncreases(lines[k..]);
    SortKeepsOrdered(lines[k..]);
    hide Consecutive, Above, SortByNumber;
  }

  lemma FreshEnds(p: Panel, lines: Lines)
    requires Consecutive(lines)
    ensures var added := Fresh(p, lines);
            && (added != [] ==> lines != [] && added[|added| - 1].number == lines[|lines| - 1].number > p.latest)
            && (added == [] && lines != [] ==> lines[|lines| - 1].number <= p.latest)
            && (added != [] && Continues(p, lines) && p.history != [] ==> added[0].number == p.latest + 1)
  {
    var k := SplitPoint(lines, p.latest);
    FreshIsSuffix(p, lines);
    if lines != [] { ConsecutiveAt(lines, |lines| - 1); }
    if k < |lines| { ConsecutiveAt(lines, k); }
    hide Consecutive, Fresh;
  }

  lemma AppendKeepsGapFree(p: Panel, added: Lines)
    requires GapFree(p) && Consecutive(added)
    requires added != [] && p.history != [] ==> added[0].number == p.latest + 1
    requires added != [] ==> added[|added| - 1].number > p.latest
    ensures GapFree(Append(p, added))
    ensures Append(p, added).latest == if added == [] then p.latest else added[|added| - 1].number
  {
    ConsecutiveConcat(p.history, added);
    hide Consecutive, LastOf;
  }

  lemma OnLinesKeepsGapFree(p: Panel, lines: Lines)
    requires GapFree(p) && Consecutive(lines) && Continues(p, lines)
    ensures var q := OnLines(p, lines);
            && GapFree(q) && p.history <= q.history && p.latest <= q.latest
            && (lines != [] ==> q.latest == Max(p.latest, lines[|lines| - 1].number))
            && (lines == [] ==> q == p)
  {
    FreshIsSuffix(p, lines);
    FreshEnds(p, lines);
    hide Consecutive, Fresh, Continues;
    AppendKeepsGapFree(p, Fresh(p, lines));
    hide GapFree, LastOf;
  }

  lemma MergeKeepsGapFree(p: Panel, lines: Lines, latest: nat)
    requires GapFree(p) && Consecutive(lines) && Continues(p, lines)
    requires lines != [] ==> lines[|lines| - 1].number == latest
    requires lines == [] ==> p.history == [] || latest <= p.latest
    ensures var q := Merge(p, lines, latest);
            GapFree(q) && p.history <= q.history && q.latest == Max(p.latest, latest)
  {
    FreshIsSuffix(p, lines);
    FreshEnds(p, lines);
    hide Consecutive, Fresh, Continues;
    AppendKeepsGapFree(p, Fresh(p, lines));
    hide LastOf;
  }

  /** At every point of the delivery of what is on the wire there is no gap. */
  predicate WireOk(p: Panel, wire: seq<Message>)
    decreases |wire|
  {
    GapFree(p) && (wire == [] || WireOk(Handle(p, wire[0]), wire[1..]))
  }

  lemma {:induction false} WireSnoc(p: Panel, wire: seq<Message>, m: Message)
    ensures Arrived(p, wire + [m]) == Handle(Arrived(p, wire), m)
    ensures WireOk(p, wire + [m]) <==> WireOk(p, wire) && GapFree(Handle(Arrived(p, wire), m))
    decreases |wire|
  {
    hide GapFree, Handle;
    if wire == [] {
      assert (wire + [m])[1..] == [];
    } else {
      WireSnoc(Handle(p, wire[0]), wire[1..], m);
      assert (wire + [m])[1..] == wire[1..] + [m];
    }
  }

  lemma {:induction false} WireEnd(p: Panel, wire: seq<Message>)
    requires WireOk(p, wire)
    ensures GapFree(Arrived(p, wire)) && GapFree(p)
    decreases |wire|
  {
    hide GapFree, Handle;
    if wire != [] { WireEnd(Handle(p, wire[0]), wire[1..]); }
  }

  /** Everything printed and not pending has reached the panel or is on its way. */
  predicate CaughtUp(s: Stream) {
    var p := Arrived(s.panel, s.wire);
    p.history == [] || s.counter <= p.latest + |s.pending|
  }

  predicate Whole(s: Stream) {
    s.lost || (WireOk(s.panel, s.wire) && (s.connected && s.subscribed ==> CaughtUp(s)))
  }

  /** A request under way asks from no later than where the panel stands. */
  predicate AskOk(s: Stream) {
    s.ask.Some? ==> s.ask.value <= s.panel.latest
  }

  lemma {:induction false} ArrivedGrows(p: Panel, wire: seq<Message>)
    ensures p.latest <= Arrived(p, wire).latest
    decreases |wire|
  {
    if wire != [] {
      hide Fresh;
      ArrivedGrows(Handle(p, wire[0]), wire[1..]);
    }
  }

  lemma PendingStarts(s: Stream)
    requires Sound(s) && s.pending != []
    ensures s.pending[0].number + |s.pending| == s.counter + 1
  {
    ConsecutiveAt(s.pending, |s.pending| - 1);
  }

  lemma BufferStarts(s: Stream)
    requires Sound(s) && s.buffer != []
    ensures s.buffer[0].number + |s.buffer| == s.counter + 1 && LatestNumber(s) == s.counter
  {
    ConsecutiveAt(s.buffer, |s.buffer| - 1);
  }

  lemma FlushKeepsWhole(s: Stream, dropped: bool)
    requires Sound(s) && Whole(s)
    ensures Whole(FlushPending(s, dropped))
  {
    if s.pending != [] && s.connected && s.subscribed && !dropped && !s.lost {
      var p := Arrived(s.panel, s.wire);
      PendingStarts(s);
      WireEnd(s.panel, s.wire);
      WireSnoc(s.panel, s.wire, Batch(s.pending));
      hide WireOk, Arrived, GapFree, Consecutive, OnLines, SentOk, PanelOk;
      OnLinesKeepsGapFree(p, s.pending);
    }
    hide WireOk, Arrived, PanelOk, SentOk;
  }

  lemma PrintKeepsWhole(s: Stream, text: Text, dropped: bool, limits: Limits)
    requires Sound(s) && Whole(s)
    ensures Whole(PrintLine(s, text, dropped, limits))
  {
    assert Whole(Printed(s, text, limits)) by { hide WireOk, Arrived, Sound, Retained; }
    PrintedIsSound(s, text, limits);
    hide Whole, Sound, Retained, FlushPending;
    FlushKeepsWhole(Printed(s, text, limits), dropped);
  }

  lemma SplitChunk(lines: Lines)
    requires Consecutive(lines) && |lines| > CHUNK
    ensures Consecutive(lines[..CHUNK]) && Consecutive(lines[CHUNK..])
    ensures lines[CHUNK].number == lines[CHUNK - 1].number + 1
    ensures lines[|lines| - 1].number >= lines[CHUNK].number
  {
    ConsecutiveTail(lines, CHUNK);
    assert lines[CHUNK - 1 + 1].number == lines[CHUNK - 1].number + 1;
    ConsecutiveAt(lines, CHUNK);
    ConsecutiveAt(lines, |lines| - 1);
  }

  lemma FirstChunk(p: Panel, lines: Lines)
    requires |lines| > CHUNK
    ensures var q := OnLines(p, lines[..CHUNK]);
            && Arrived(p, Chunks(lines)) == Arrived(q, Chunks(lines[CHUNK..]))
            && (WireOk(p, Chunks(lines)) <==> GapFree(p) && WireOk(q, Chunks(lines[CHUNK..])))
  {
    hide GapFree, OnLines;
    var first, rest := lines[..CHUNK], lines[CHUNK..];
    assert Chunks(lines) == [Batch(first)] + Chunks(rest);
    hide Chunks;
    assert ([Batch(first)] + Chunks(rest))[1..] == Chunks(rest);
  }

  /** Handing consecutive lines over in chunks is as good as handing them over at once. */
  lemma {:induction false} ChunksKeepGapFree(p: Panel, lines: Lines)
    requires GapFree(p) && Consecutive(lines) && Continues(p, lines)
    ensures WireOk(p, Chunks(lines))
    ensures var q := Arrived(p, Chunks(lines));
            lines != [] ==> q.latest == Max(p.latest, lines[|lines| - 1].number)
    decreases |lines|
  {
    if lines == [] {
      assert Chunks(lines) == [];
    } else if |lines| <= CHUNK {
      hide GapFree, Consecutive, OnLines, Arrived, Chunks, WireOk;
      OnLinesKeepsGapFree(p, lines);
      OneChunk(p, lines);
    } else {
      hide GapFree, Consecutive, OnLines, Arrived, Chunks, WireOk;
      var first, rest := lines[..CHUNK], lines[CHUNK..];
      SplitChunk(lines);
      OnLinesKeepsGapFree(p, first);
      ChunksKeepGapFree(OnLines(p, first), rest);
      FirstChunk(p, lines);
      assert rest[|rest| - 1] == lines[|lines| - 1] && first[|first| - 1] == lines[CHUNK - 1];
    }
  }

  lemma OneChunk(p: Panel, lines: Lines)
    requires lines != [] && |lines| <= CHUNK
    ensures Arrived(p, Chunks(lines)) == OnLines(p, lines)
    ensures WireOk(p, Chunks(lines)) <==> GapFree(p) && GapFree(OnLines(p, lines))
  {
    hide GapFree, OnLines;
    var one := [Batch(lines)];
    assert Chunks(lines) == one && one[1..] == [];
  }

  /** What is retained above `n` continues a panel that stands at `n` or later and misses nothing. */
  lemma CatchUpContinues(s: Stream, n: nat)
    requires Sound(s) && !Misses(s) && n <= Arrived(s.panel, s.wire).latest
    ensures var p, lines := Arrived(s.panel, s.wire), Above(s.buffer, n);
            && Consecutive(lines) && Continues(p, lines)
            && (lines != [] ==> lines[|lines| - 1].number == s.counter)
            && (lines == [] ==> p.history == [] || s.counter <= p.latest)
  {
    hide Arrived, PanelOk, SentOk;
    var k := SplitPoint(s.buffer, n);
    AboveIsSuffix(s.buffer, n);
    ConsecutiveTail(s.buffer, k);
    if s.buffer != [] {
      BufferStarts(s);
      if k < |s.buffer| { ConsecutiveAt(s.buffer, k); }
    }
    hide Above, Consecutive;
  }

  lemma SessionKeepsWhole(s: Stream, watched: bool, dropped: set<nat>)
    requires Sound(s) && Whole(s)
    ensures Whole(NewSession(s, watched, dropped))
  {
    var t := NewSession(s, watched, dropped);
    if !t.lost {
      assert GapFree(s.panel) by { WireEnd(s.panel, s.wire); }
      if watched { WatchedSession(s, dropped); }
      hide GapFree, Above, Chunks, Without, Misses, Drops, Sound, PanelOk;
    }
  }

  /** The state of a session before anything is sent. */
  function Idle(s: Stream): Stream {
    s.(wire := [], connected := true, subscribed := true, ask := None)
  }

  lemma IdleFacts(s: Stream, dropped: set<nat>)
    requires Sound(s) && !NewSession(s, true, dropped).lost
    ensures var idle := Idle(s);
            Sound(idle) && !Misses(idle) && Arrived(idle.panel, idle.wire) == s.panel
    ensures var t := NewSession(s, true, dropped);
            t.wire == Chunks(Above(s.buffer, s.panel.latest)) && t.panel == s.panel && t.counter == s.counter
  {
    var messages := Chunks(Above(s.buffer, s.panel.latest));
    WithoutKeeps(messages, dropped, 0);
    NothingSentIsOk();
    hide Above, Chunks, Without, UpTo, PanelOk, SentOk;
  }

  lemma CaughtUpIs(s: Stream)
    ensures CaughtUp(s) <==>
              Arrived(s.panel, s.wire).history == [] || s.counter <= Arrived(s.panel, s.wire).latest + |s.pending|
  {
  }

  /** What is sent in a session that loses nothing. */
  lemma SessionSends(s: Stream, dropped: set<nat>)
    requires Sound(s) && !NewSession(s, true, dropped).lost
    ensures var p, lines := s.panel, Above(s.buffer, s.panel.latest);
            && Consecutive(lines) && Continues(p, lines)
            && (lines != [] ==> lines[|lines| - 1].number == s.counter)
            && (lines == [] ==> p.history == [] || s.counter <= p.latest)
  {
    IdleFacts(s, dropped);
    CatchUpContinues(Idle(s), s.panel.latest);
    IdleCounts(s);
    hide Misses, Sound, NewSession, Above, Consecutive, Continues, Arrived, Idle;
  }

  lemma WatchedSession(s: Stream, dropped: set<nat>)
    requires Sound(s) && GapFree(s.panel) && !NewSession(s, true, dropped).lost
    ensures var t := NewSession(s, true, dropped); WireOk(t.panel, t.wire) && CaughtUp(t)
  {
    hide Misses, Sound, NewSession, Above, GapFree, Consecutive, Continues, WireOk, Arrived, Chunks, CaughtUp;
    var t := NewSession(s, true, dropped);
    var lines := Above(s.buffer, s.panel.latest);
    IdleFacts(s, dropped);
    SessionSends(s, dropped);
    CaughtUpIs(t);
    ChunksKeepGapFree(s.panel, lines);
    HistoryOfNothing(s.panel, lines);
  }

  lemma IdleCounts(s: Stream)
    ensures Idle(s).buffer == s.buffer && Idle(s).counter == s.counter
  {
  }

  /** Catching up on nothing leaves the panel where it is. */
  lemma HistoryOfNothing(p: Panel, lines: Lines)
    ensures lines == [] ==> Arrived(p, Chunks(lines)) == p
  {
  }

  lemma AnswerKeepsWhole(s: Stream, dropped: bool)
    requires Sound(s) && Whole(s) && AskOk(s) && s.ask.Some?
    ensures Whole(AnswerAsk(s, dropped))
  {
    var t := AnswerAsk(s, dropped);
    if !t.lost {
      var p := Arrived(s.panel, s.wire);
      var lines := Above(s.buffer, s.ask.value);
      ArrivedGrows(s.panel, s.wire);
      WireEnd(s.panel, s.wire);
      CatchUpContinues(s, s.ask.value);
      LatestIsCounter(s);
      hide Arrived, Above, GapFree, Consecutive, Misses, Sound, LatestNumber, Continues, WireOk;
      WireSnoc(s.panel, s.wire, Message.Reply(lines, s.counter));
      MergeKeepsGapFree(p, lines, s.counter);
    }
  }

  lemma LatestIsCounter(s: Stream)
    requires Sound(s)
    ensures LatestNumber(s) == s.counter
  {
    hide Consecutive, PanelOk;
  }

  lemma StepKeepsWhole(s: Stream, step: Step, limits: Limits)
    requires Sound(s) && Whole(s) && AskOk(s) && Can(s, step)
    ensures Whole(Next(s, step, limits)) && AskOk(Next(s, step, limits))
  {
    match step
    case Print(text, dropped) => PrintKeepsWhole(s, text, dropped, limits); hide Whole, Sound, Retained;
    case Flush(dropped) => FlushKeepsWhole(s, dropped); hide Whole, Sound;
    case Deliver => DeliverKeepsWhole(s); hide Whole, Sound;
    case Connect(watched, dropped) => SessionKeepsWhole(s, watched, dropped); hide Whole, Sound, Misses;
    case Respond(dropped) => AnswerKeepsWhole(s, dropped); hide Whole, Sound, Misses;
    case RestartPanel => EmptyIsGapFree(); hide GapFree;
    case _ => if !s.lost { WireEnd(s.panel, s.wire); } hide GapFree, Sound;
  }

  lemma EmptyIsGapFree()
    ensures GapFree(EMPTY)
  {
  }

  lemma DeliverKeepsWhole(s: Stream)
    requires Sound(s) && Whole(s) && AskOk(s) && s.wire != []
    ensures var t := s.(panel := Handle(s.panel, s.wire[0]), wire := s.wire[1..]); Whole(t) && AskOk(t)
  {
    ArrivedGrows(s.panel, [s.wire[0]]);
    assert Arrived(s.panel, [s.wire[0]]) == Handle(s.panel, s.wire[0]) by { assert [s.wire[0]][1..] == []; }
    hide GapFree, Sound, Handle;
  }

  lemma {:induction false} RunIsWhole(run: seq<Stream>, steps: seq<Step>, limits: Limits, n: nat)
    requires IsRun(run, steps, limits) && n < |run|
    ensures Whole(run[n]) && AskOk(run[n])
    decreases n
  {
    if n == 0 {
      EmptyIsGapFree();
    } else {
      hide Whole, Sound, AskOk, Can, Next;
      RunIsWhole(run, steps, limits, n - 1);
      RunIsSound(run, steps, limits, n - 1);
      StepKeepsWhole(run[n - 1], steps[n - 1], limits);
    }
  }

  /**
   * As long as no line was missing from a catch-up and no message was dropped under pressure, the
   * numbers of everything that ever went into the ring are consecutive, whatever the agent's counter
   * does in restarts, and the ring is the end of it.
   */
  lemma RingHasNoGap(run: seq<Stream>, steps: seq<Step>, limits: Limits, n: nat)
    requires IsRun(run, steps, limits) && n < |run| && !run[n].lost
    ensures Consecutive(run[n].panel.history) && Consecutive(run[n].panel.ring)
    ensures run[n].panel.ring == LastOf(run[n].panel.history, RING_MAX)
  {
    RunIsWhole(run, steps, limits, n);
    RunIsSound(run, steps, limits, n);
    hide IsRun;
    var p := run[n].panel;
    WireEnd(p, run[n].wire);
    if |p.history| > RING_MAX { ConsecutiveTail(p.history, |p.history| - RING_MAX); }
  }
}
