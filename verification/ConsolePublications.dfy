/**
 * What browsers are sent of a server's console, over every run: each new line of a live batch, once
 * and in order, and nothing of a subscription answer.
 */
module ConsolePublications {
  import opened Options
  import opened Console
  import opened ConsoleRelay
  import opened ConsoleStream

  /** What came in behind `before`. */
  function Added(before: Lines, after: Lines): Lines {
    if |before| <= |after| then after[|before|..] else []
  }

  lemma AddedIs(before: Lines, more: Lines)
    ensures Added(before, before + more) == more
  {
  }

  /** A live batch sends browsers exactly the lines it brings in; a subscription answer sends none. */
  lemma HandlePublishes(p: Panel, m: Message)
    ensures var q := Handle(p, m);
            && q.history == p.history + Added(p.history, q.history)
            && q.published == p.published + if m.Batch? then Added(p.history, q.history) else []
  {
    var added := Fresh(p, m.lines);
    AddedIs(p.history, added);
    AddedIs(p.history, []);
    assert p.history + [] == p.history && p.published + [] == p.published;
    hide Fresh, LastOf, Added;
  }

  lemma OtherStepsPublishNothing(s: Stream, step: Step, limits: Limits)
    requires Can(s, step) && !step.Deliver?
    ensures var t := Next(s, step, limits);
            if step.RestartPanel? then t.panel.history == [] && t.panel.published == [] else t.panel == s.panel
  {
    hide Retained, Above, Misses, Drops, Chunks, Without;
  }

  /** The lines that live batches have brought in since the panel started. */
  ghost function FromBatches(run: seq<Stream>, steps: seq<Step>, limits: Limits, n: nat): Lines
    requires IsRun(run, steps, limits) && n < |run|
  {
    if n == 0 || steps[n - 1].RestartPanel? then []
    else
      FromBatches(run, steps, limits, n - 1)
      + if steps[n - 1].Deliver? && run[n - 1].wire[0].Batch?
        then Added(run[n - 1].panel.history, run[n].panel.history) else []
  }

  lemma {:induction false} PublishedExactly(run: seq<Stream>, steps: seq<Step>, limits: Limits, n: nat)
    requires IsRun(run, steps, limits) && n < |run|
    ensures run[n].panel.published == FromBatches(run, steps, limits, n)
    decreases n
  {
    if n > 0 {
      var s, step := run[n - 1], steps[n - 1];
      PublishedExactly(run, steps, limits, n - 1);
      StepOf(run, steps, limits, n - 1);
      hide IsRun, Handle, Added;
      if step.Deliver? {
        HandlePublishes(s.panel, s.wire[0]);
      } else {
        OtherStepsPublishNothing(s, step, limits);
        hide Next, Can;
      }
    }
  }

  /** No subscription answer is delivered in these steps, and the panel does not restart. */
  ghost predicate OnlyBatches(run: seq<Stream>, steps: seq<Step>, limits: Limits, i: nat, n: nat)
    requires IsRun(run, steps, limits) && i <= n < |run|
  {
    forall k :: i <= k < n ==> !steps[k].RestartPanel? && (steps[k].Deliver? ==> run[k].wire[0].Batch?)
  }

  /**
   * As long as only live batches are delivered, browsers are sent everything that comes in, in order.
   * From the start of the panel that is its whole history.
   */
  lemma {:induction false} BatchesArePublished(run: seq<Stream>, steps: seq<Step>, limits: Limits, i: nat, n: nat)
    requires IsRun(run, steps, limits) && i <= n < |run| && OnlyBatches(run, steps, limits, i, n)
    ensures var more := Added(run[i].panel.history, run[n].panel.history);
            && run[n].panel.history == run[i].panel.history + more
            && run[n].panel.published == run[i].panel.published + more
    ensures i == 0 ==> run[n].panel.published == run[n].panel.history
    decreases n
  {
    if i == n {
      AddedIs(run[i].panel.history, []);
      assert run[i].panel.history + [] == run[i].panel.history;
    } else {
      var s, step := run[n - 1], steps[n - 1];
      BatchesArePublished(run, steps, limits, i, n - 1);
      assert Can(s, step) && run[n] == Next(s, step, limits);
      if step.Deliver? {
        HandlePublishes(s.panel, s.wire[0]);
        hide Handle, Added;
        Chain(run[i].panel, s.panel, run[n].panel);
      } else {
        OtherStepsPublishNothing(s, step, limits);
      }
    }
  }

  lemma Chain(p: Panel, q: Panel, r: Panel)
    requires q.history == p.history + Added(p.history, q.history)
    requires q.published == p.published + Added(p.history, q.history)
    requires r.history == q.history + Added(q.history, r.history)
    requires r.published == q.published + Added(q.history, r.history)
    ensures r.history == p.history + Added(p.history, r.history)
    ensures r.published == p.published + Added(p.history, r.history)
  {
    AddedIs(p.history, Added(p.history, q.history) + Added(q.history, r.history));
    hide Added;
    assert r.history == p.history + (Added(p.history, q.history) + Added(q.history, r.history));
  }

  // ----- From the console to the wire -----

  /** The lines printed since the last batch, as the steps tell: a batch is full at fifty. */
  ghost function Unsent(run: seq<Stream>, steps: seq<Step>, limits: Limits, n: nat): Lines
    requires IsRun(run, steps, limits) && n < |run|
  {
    if n == 0 then []
    else
      match steps[n - 1]
      case Print(text, _) =>
        var lines := Unsent(run, steps, limits, n - 1) + [Line(run[n - 1].counter + 1, text)];
        if |lines| == 50 then [] else lines
      case Flush(_) => []
      case RestartAgent(_) => []
      case _ => Unsent(run, steps, limits, n - 1)
  }

  /** What a step does to the lines in hand and to the wire, given that fewer than a full batch are in hand. */
  lemma PendingAfter(s: Stream, step: Step, limits: Limits)
    requires Can(s, step) && |s.pending| < 50
    ensures var t := Next(s, step, limits);
            match step
            case Print(text, dropped) =>
              var lines := s.pending + [Line(s.counter + 1, text)];
              && t.counter == s.counter + 1
              && t.pending == (if |lines| == 50 then [] else lines)
              && t.wire == s.wire + if |lines| == 50 && s.connected && s.subscribed && !dropped
                                    then [Batch(lines)] else []
            case Flush(dropped) =>
              && t.counter == s.counter && t.pending == []
              && t.wire == s.wire + if s.pending != [] && s.connected && s.subscribed && !dropped
                                    then [Batch(s.pending)] else []
            case RestartAgent(counter) => t.counter == counter && t.pending == [] && t.wire == []
            case _ => t.counter == s.counter && t.pending == s.pending
    ensures step.Connect? ==> Next(s, step, limits).connected && Next(s, step, limits).ask.None?
  {
    hide Retained, Above, Misses, Drops, Chunks, Without, Handle;
    assert s.wire + [] == s.wire;
  }

  lemma {:induction false} PendingIsUnsent(run: seq<Stream>, steps: seq<Step>, limits: Limits, n: nat)
    requires IsRun(run, steps, limits) && n < |run|
    ensures run[n].pending == Unsent(run, steps, limits, n) && |run[n].pending| < 50
    decreases n
  {
    if n > 0 {
      PendingIsUnsent(run, steps, limits, n - 1);
      StepOf(run, steps, limits, n - 1);
      PendingAfter(run[n - 1], steps[n - 1], limits);
    }
    hide Next, Can;
  }

  /**
   * Over every run fewer than fifty lines wait, they are exactly those printed since the last batch, and
   * the line or the timer that ends a batch puts the whole of it on the wire once when somebody watches.
   */
  lemma LinesGoOutInBatches(run: seq<Stream>, steps: seq<Step>, limits: Limits, n: nat)
    requires IsRun(run, steps, limits) && n < |steps|
    ensures run[n].pending == Unsent(run, steps, limits, n) && |run[n].pending| < 50
    ensures steps[n].Print? || steps[n].Flush? ==>
              var s, t := run[n], run[n + 1];
              var lines := Unsent(run, steps, limits, n)
                           + if steps[n].Print? then [Line(s.counter + 1, steps[n].text)] else [];
              var full := lines != [] && (steps[n].Print? ==> |lines| == 50);
              t.wire == s.wire + if full && s.connected && s.subscribed && !steps[n].dropped then [Batch(lines)] else []
  {
    PendingIsUnsent(run, steps, limits, n);
    StepOf(run, steps, limits, n);
    PendingAfter(run[n], steps[n], limits);
    hide IsRun, Next, Can, Unsent;
    assert run[n].pending + [] == run[n].pending;
  }

  lemma StepOf(run: seq<Stream>, steps: seq<Step>, limits: Limits, n: nat)
    requires IsRun(run, steps, limits) && n < |steps|
    ensures Can(run[n], steps[n]) && run[n + 1] == Next(run[n], steps[n], limits)
  {
  }

  predicate Retains(buffer: Lines, number: nat) {
    exists i :: 0 <= i < |buffer| && buffer[i].number == number
  }

  lemma RetainsExactly(buffer: Lines, counter: nat, number: nat)
    requires UpTo(buffer, counter)
    ensures Retains(buffer, number) <==> buffer != [] && buffer[0].number <= number <= counter
  {
    var count := |buffer|;
    forall i | 0 <= i < count
      ensures buffer[i].number == buffer[0].number + i && buffer[0].number + count - 1 == counter
    {
      ConsecutiveAt(buffer, i);
      ConsecutiveAt(buffer, count - 1);
    }
    if buffer != [] && buffer[0].number <= number <= counter {
      assert buffer[number - buffer[0].number].number == number;
    }
  }

  /** A catch-up has a gap exactly when some printed line that the panel will lack is no longer retained. */
  lemma MissesExactly(s: Stream)
    requires Sound(s)
    ensures var p := Arrived(s.panel, s.wire);
            Misses(s) <==>
            p.history != [] && exists number :: p.latest < number <= s.counter && !Retains(s.buffer, number)
  {
    var p := Arrived(s.panel, s.wire);
    hide Arrived, PanelOk, SentOk, Retains;
    forall number: nat
      ensures Retains(s.buffer, number) <==> s.buffer != [] && s.buffer[0].number <= number <= s.counter
    {
      RetainsExactly(s.buffer, s.counter, number);
    }
    if Misses(s) { assert !Retains(s.buffer, p.latest + 1); }
  }
}
