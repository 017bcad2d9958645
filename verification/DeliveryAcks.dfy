/**
 * Acknowledgements: nothing the panel answers for in a session is lost, and no event changes.
 */
module DeliveryAcks {
  import opened Options
  import StateStore
  import opened Delivery
  import opened DeliverySafety

  function Flat(batches: seq<seq<nat>>): seq<nat> {
    if batches == [] then [] else batches[0] + Flat(batches[1..])
  }

  lemma {:induction false} FlatConcat(a: seq<seq<nat>>, b: seq<seq<nat>>)
    ensures Flat(a + b) == Flat(a) + Flat(b)
  {
    if a == [] {
      assert a + b == b && [] + Flat(b) == Flat(b);
    } else {
      FlatConcat(a[1..], b);
      assert (a + b)[1..] == a[1..] + b;
      assert a[0] + (Flat(a[1..]) + Flat(b)) == (a[0] + Flat(a[1..])) + Flat(b);
    }
  }

  lemma FlatOne(batch: seq<nat>)
    ensures Flat([batch]) == batch && Flat([]) == []
  {
    var one := [batch];
    assert one[1..] == [] && batch + [] == batch;
  }

  // ----- What has been answered, and what has come back -----

  /** What a step gives the panel to acknowledge in the open session: a duplicate, or a handler that ended. */
  function AnsweredBy(s: System, a: Action): seq<nat>
    requires Enabled(s, a)
  {
    match a
    case Delivers => if s.link.wire[0] in s.panel.claimed then [s.link.wire[0]] else []
    case HandlerEnds(i) =>
      if s.link.open && s.panel.running[i].session == s.link.session then [s.panel.running[i].id] else []
    case _ => []
  }

  /** The identifiers to acknowledge since the session began, in order. */
  ghost function Answered(run: seq<System>, actions: seq<Action>, n: nat): seq<nat>
    requires IsRun(run, actions) && n < |run|
  {
    if n == 0 then []
    else if actions[n - 1].Connects? then []
    else Answered(run, actions, n - 1) + AnsweredBy(run[n - 1], actions[n - 1])
  }

  /** The identifiers whose acknowledgement has reached the agent since the session began, in order. */
  ghost function Arrived(run: seq<System>, actions: seq<Action>, n: nat): seq<nat>
    requires IsRun(run, actions) && n < |run|
  {
    if n == 0 then []
    else if actions[n - 1].Connects? then []
    else Arrived(run, actions, n - 1) + if actions[n - 1].AcksArrive? then run[n - 1].link.acks[0] else []
  }

  // ----- One step -----

  /** On its way to the agent: on the wire, then in the queue. */
  function OnTheWay(s: System): seq<nat> {
    Flat(s.link.acks) + s.panel.queue.pending
  }

  lemma QueueKeepsOrder(q: AckQueue, id: nat)
    ensures var (r, out) := QueueAck(q, id); Flat(out) + r.pending == q.pending + [id]
  {
    FlatOne(q.pending + [id]);
    hide Flat;
    assert [] + (q.pending + [id]) == q.pending + [id] && (q.pending + [id]) + [] == q.pending + [id];
  }

  lemma FlushKeepsOrder(q: AckQueue)
    ensures var (r, out) := FlushAcks(q, true); Flat(out) + r.pending == q.pending
  {
    FlatOne(q.pending);
    hide Flat;
    assert q.pending + [] == q.pending;
  }

  /** A step that queues `id` and sends `out`. */
  lemma AnswerKeepsOrder(acks: seq<seq<nat>>, out: seq<seq<nat>>, before: seq<nat>, after: seq<nat>, ids: seq<nat>)
    requires Flat(out) + after == before + ids
    ensures Flat(acks + out) + after == (Flat(acks) + before) + ids
  {
    FlatConcat(acks, out);
    hide Flat;
    assert (Flat(acks) + Flat(out)) + after == Flat(acks) + (Flat(out) + after);
    assert Flat(acks) + (before + ids) == (Flat(acks) + before) + ids;
  }

  /** Of the open session's replies, `t` has those of `s` and then `out`, and its queue. */
  predicate Replies(s: System, t: System, q: AckQueue, out: seq<seq<nat>>) {
    t.link.acks == s.link.acks + out && t.panel.queue == q
  }

  lemma DeliverReplies(s: System)
    requires s.link.wire != []
    ensures var t, id := Next(s, Delivers), s.link.wire[0];
            if id in s.panel.claimed then Replies(s, t, QueueAck(s.panel.queue, id).0, QueueAck(s.panel.queue, id).1)
            else Replies(s, t, s.panel.queue, [])
  {
    hide QueueAck;
  }

  lemma HandlerReplies(s: System, i: nat)
    requires i < |s.panel.running| && s.link.open
    ensures var t, h := Next(s, HandlerEnds(i)), s.panel.running[i];
            if h.session == s.link.session
            then Replies(s, t, QueueAck(s.panel.queue, h.id).0, QueueAck(s.panel.queue, h.id).1)
            else Replies(s, t, s.panel.queue, [])
  {
    hide QueueAck;
  }

  lemma OtherReplies(s: System, a: Action)
    requires Enabled(s, a) && s.link.open && Next(s, a).link.open
    ensures a.AckTimerFires? ==>
              Replies(s, Next(s, a), FlushAcks(s.panel.queue, true).0, FlushAcks(s.panel.queue, true).1)
    ensures a.AcksArrive? ==> Next(s, a).link.acks == s.link.acks[1..] && Next(s, a).panel.queue == s.panel.queue
    ensures !a.Delivers? && !a.HandlerEnds? && !a.AckTimerFires? && !a.AcksArrive? && !a.Connects?
            ==> Replies(s, Next(s, a), s.panel.queue, [])
  {
    hide QueueAck, FlushAcks, Capped, Without, Replayed;
  }

  lemma RepliesKeepOrder(s: System, t: System, q: AckQueue, out: seq<seq<nat>>, ids: seq<nat>)
    requires Replies(s, t, q, out) && Flat(out) + q.pending == s.panel.queue.pending + ids
    ensures OnTheWay(t) == OnTheWay(s) + ids
  {
    AnswerKeepsOrder(s.link.acks, out, s.panel.queue.pending, q.pending, ids);
    hide Flat;
  }

  /** In an open session, what is on its way grows by the step's answers and shrinks by what arrives. */
  lemma StepConserves(s: System, a: Action)
    requires Enabled(s, a) && !a.Connects? && s.link.open && Next(s, a).link.open
    ensures var arrived := if a.AcksArrive? then s.link.acks[0] else [];
            arrived + OnTheWay(Next(s, a)) == OnTheWay(s) + AnsweredBy(s, a)
  {
    hide Next, QueueAck, FlushAcks, Flat;
    var t, q := Next(s, a), s.panel.queue;
    OtherReplies(s, a);
    FlatOne([]);
    assert [] + q.pending == q.pending && q.pending + [] == q.pending;
    if a.AcksArrive? {
      AcksArriveInOrder(s.link.acks, q.pending);
      assert OnTheWay(s) + [] == OnTheWay(s);
    } else {
      var ids := AnsweredBy(s, a);
      if a.Delivers? {
        DeliverReplies(s);
      } else if a.HandlerEnds? {
        HandlerReplies(s, a.index);
      }
      if ids != [] {
        QueueKeepsOrder(q, ids[0]);
        RepliesKeepOrder(s, t, QueueAck(q, ids[0]).0, QueueAck(q, ids[0]).1, ids);
      } else if a.AckTimerFires? {
        FlushKeepsOrder(q);
        RepliesKeepOrder(s, t, FlushAcks(q, true).0, FlushAcks(q, true).1, []);
      } else {
        RepliesKeepOrder(s, t, q, [], []);
      }
      assert [] + OnTheWay(t) == OnTheWay(t);
    }
  }

  lemma AcksArriveInOrder(acks: seq<seq<nat>>, pending: seq<nat>)
    requires acks != []
    ensures acks[0] + (Flat(acks[1..]) + pending) == Flat(acks) + pending
  {
    assert (acks[0] + Flat(acks[1..])) + pending == acks[0] + (Flat(acks[1..]) + pending);
  }

  // ----- Every run -----

  lemma RunStep(run: seq<System>, actions: seq<Action>, n: nat)
    requires IsRun(run, actions) && 0 < n < |run|
    ensures |run| == |actions| + 1
    ensures Enabled(run[n - 1], actions[n - 1]) && run[n] == Next(run[n - 1], actions[n - 1]) && CoreInv(run[n - 1])
  {
    RunKeepsInv(run, actions, n - 1);
    hide CoreInv, OrderInv, LauncherInv, Next, Enabled;
  }

  lemma SessionStarts(s: System, a: Action)
    requires Enabled(s, a) && Next(s, a).link.open
    ensures a.Connects? ==> Next(s, a).link.acks == [] && Next(s, a).panel.queue.pending == []
    ensures !a.Connects? ==> s.link.open
  {
  }

  /**
   * While a session is open: the identifiers answered for in it, in order, are those whose
   * acknowledgement has arrived, then those on the wire, then those in the queue. None is lost, sent
   * twice or overtaken.
   */
  lemma {:induction false} AnswersAreConserved(run: seq<System>, actions: seq<Action>, n: nat)
    requires IsRun(run, actions) && n < |run| && run[n].link.open
    ensures Answered(run, actions, n)
            == Arrived(run, actions, n) + Flat(run[n].link.acks) + run[n].panel.queue.pending
    decreases n
  {
    if n > 0 {
      if !actions[n - 1].Connects? && run[n - 1].link.open { AnswersAreConserved(run, actions, n - 1); }
      hide *;
      StepKeepsConserved(run, actions, n);
    }
  }

  lemma StepKeepsConserved(run: seq<System>, actions: seq<Action>, n: nat)
    requires IsRun(run, actions) && 0 < n < |run| && run[n].link.open
    requires |run| == |actions| + 1
    requires !actions[n - 1].Connects? && run[n - 1].link.open ==>
               Answered(run, actions, n - 1)
               == Arrived(run, actions, n - 1) + Flat(run[n - 1].link.acks) + run[n - 1].panel.queue.pending
    ensures Answered(run, actions, n)
            == Arrived(run, actions, n) + Flat(run[n].link.acks) + run[n].panel.queue.pending
  {
    hide *;
    RunStep(run, actions, n);
    var s, a := run[n - 1], actions[n - 1];
    SessionStarts(s, a);
    TallyStep(run, actions, n);
    if a.Connects? {
      FlatOne([]);
    } else {
      StepConserves(s, a);
      var arrived := if a.AcksArrive? then s.link.acks[0] else [];
      Regroup(Arrived(run, actions, n - 1), s, arrived, run[n], AnsweredBy(s, a));
    }
  }

  lemma TallyStep(run: seq<System>, actions: seq<Action>, n: nat)
    requires IsRun(run, actions) && 0 < n < |run|
    ensures |run| == |actions| + 1
    ensures Enabled(run[n - 1], actions[n - 1])
    ensures actions[n - 1].Connects? ==> Answered(run, actions, n) == [] && Arrived(run, actions, n) == []
    ensures actions[n - 1].AcksArrive? ==> run[n - 1].link.acks != []
    ensures !actions[n - 1].Connects? ==>
              && Answered(run, actions, n) == Answered(run, actions, n - 1) + AnsweredBy(run[n - 1], actions[n - 1])
              && Arrived(run, actions, n)
                 == Arrived(run, actions, n - 1)
                    + if actions[n - 1].AcksArrive? then run[n - 1].link.acks[0] else []
  {
    hide Next, AnsweredBy;
  }

  lemma Regroup(before: seq<nat>, s: System, arrived: seq<nat>, t: System, answered: seq<nat>)
    requires arrived + OnTheWay(t) == OnTheWay(s) + answered
    ensures (before + Flat(s.link.acks) + s.panel.queue.pending) + answered
            == (before + arrived) + Flat(t.link.acks) + t.panel.queue.pending
  {
    hide Flat;
    assert (before + Flat(s.link.acks) + s.panel.queue.pending) + answered == before + (OnTheWay(s) + answered);
    assert (before + arrived) + Flat(t.link.acks) + t.panel.queue.pending == before + (arrived + OnTheWay(t));
  }

  // ----- What the agent forgets -----

  lemma AcksTakeAway(s: System)
    requires CoreInv(s) && s.link.acks != []
    ensures MemIds(Next(s, AcksArrive).agent) == MemIds(s.agent) - Members(s.link.acks[0])
    ensures forall id <- s.link.acks[0] :: id < s.agent.next
  {
    hide PanelInv;
    assert s.link.acks[0] in s.link.acks;
    AckKeepsAgent(s.agent, Members(s.panel.claimed), s.link.acks[0]);
    hide AgentInv, Without, Ids;
    forall id <- s.link.acks[0] ensures id < s.agent.next { assert id in Members(s.link.acks[0]); }
  }

  lemma EmissionAddsNew(s: System, report: Option<Report>)
    requires CoreInv(s)
    ensures MemIds(s.agent.Emit(report)) <= MemIds(s.agent) + {s.agent.next}
    ensures s.agent.Emit(report).next == s.agent.next + 1
  {
    EmitJournals(s.agent, report);
    hide PanelInv, LinkInv, Capped, InEmissionOrder, Ids;
  }

  lemma JournalUnchanged(s: System, a: Action)
    requires Enabled(s, a) && s.link.open && Next(s, a).link.open
    ensures a.Emits? ==> Next(s, a).agent == s.agent.Emit(None)
    ensures a.Reports? ==> Next(s, a).agent == s.agent.Emit(Some(s.launcher.consumers[a.consumer].report))
    ensures !a.Emits? && !a.Reports? && !a.AcksArrive?
            ==> Next(s, a).agent.store.mem == s.agent.store.mem && Next(s, a).agent.next == s.agent.next
    ensures a.AcksArrive? ==> Next(s, a).agent.next == s.agent.next
  {
    hide QueueAck, FlushAcks, Capped, Without, Replayed;
  }

  /** A step that does not end the session brings only new identifiers into the journal. */
  lemma JournalGrowsByNew(s: System, a: Action)
    requires CoreInv(s) && Enabled(s, a) && s.link.open && Next(s, a).link.open
    ensures MemIds(Next(s, a).agent) <= MemIds(s.agent) + {s.agent.next}
    ensures s.agent.next <= Next(s, a).agent.next
    ensures a.AcksArrive? ==> Members(s.link.acks[0]) !! MemIds(Next(s, a).agent)
    ensures a.AcksArrive? ==> forall id <- s.link.acks[0] :: id < s.agent.next
  {
    hide CoreInv, Next;
    JournalUnchanged(s, a);
    if a.Emits? { EmissionAddsNew(s, None); }
    if a.Reports? { EmissionAddsNew(s, Some(s.launcher.consumers[a.consumer].report)); }
    if a.AcksArrive? { AcksTakeAway(s); }
    hide Ids;
  }

  /** An acknowledgement that has arrived has taken its events out of the agent's journal, for good. */
  lemma {:induction false} ArrivedIsForgotten(run: seq<System>, actions: seq<Action>, n: nat)
    requires IsRun(run, actions) && n < |run| && run[n].link.open
    ensures forall id <- Arrived(run, actions, n) :: id < run[n].agent.next && id !in MemIds(run[n].agent)
    decreases n
  {
    if n > 0 {
      hide CoreInv, Next, Enabled, MemIds;
      RunStep(run, actions, n);
      SessionStarts(run[n - 1], actions[n - 1]);
      if !actions[n - 1].Connects? {
        ArrivedIsForgotten(run, actions, n - 1);
        JournalGrowsByNew(run[n - 1], actions[n - 1]);
      }
    }
  }

  /** In a batch on the wire. */
  predicate InFlight(id: nat, batches: seq<seq<nat>>) {
    exists b <- batches :: id in b
  }

  lemma {:induction false} FlatMembers(batches: seq<seq<nat>>, id: nat)
    requires id in Flat(batches)
    ensures InFlight(id, batches)
  {
    if id in batches[0] {
      assert batches[0] in batches;
    } else {
      FlatMembers(batches[1..], id);
      var b :| b in batches[1..] && id in b;
      assert b in batches;
    }
  }

  /**
   * Every event answered for in the open session is waiting in the queue with the timer armed, or in a
   * batch on the wire, or gone from the agent's journal: no acknowledgement is ever stuck or lost.
   */
  lemma AnsweredIsNeverLost(run: seq<System>, actions: seq<Action>, n: nat, id: nat)
    requires IsRun(run, actions) && n < |run| && run[n].link.open && id in Answered(run, actions, n)
    ensures || (id in run[n].panel.queue.pending && Enabled(run[n], AckTimerFires))
            || (InFlight(id, run[n].link.acks) && Enabled(run[n], AcksArrive))
            || id !in MemIds(run[n].agent)
  {
    hide *;
    AnswersAreConserved(run, actions, n);
    ArrivedIsForgotten(run, actions, n);
    WhatWaitsCanMove(run, actions, n);
    if id in Flat(run[n].link.acks) {
      FlatMembers(run[n].link.acks, id);
      InFlightIsNotEmpty(run[n].link.acks, id);
    }
  }

  lemma InFlightIsNotEmpty(batches: seq<seq<nat>>, id: nat)
    requires InFlight(id, batches)
    ensures batches != []
  {
  }

  lemma WhatWaitsCanMove(run: seq<System>, actions: seq<Action>, n: nat)
    requires IsRun(run, actions) && n < |run|
    ensures run[n].panel.queue.pending != [] ==> Enabled(run[n], AckTimerFires)
    ensures run[n].link.acks != [] ==> Enabled(run[n], AcksArrive)
  {
    QueueIsValid(run, actions, n);
    hide IsRun;
  }

  /** The timer on an open session sends exactly what was queued, in one batch, in order. */
  lemma TimerSendsQueue(run: seq<System>, actions: seq<Action>, n: nat)
    requires IsRun(run, actions) && n < |actions| && actions[n] == AckTimerFires && run[n].link.open
    ensures run[n].panel.queue.pending != []
    ensures run[n + 1].link.acks == run[n].link.acks + [run[n].panel.queue.pending]
    ensures run[n + 1].panel.queue.pending == []
  {
    QueueIsValid(run, actions, n);
  }

  lemma QueueIsValid(run: seq<System>, actions: seq<Action>, n: nat)
    requires IsRun(run, actions) && n < |run|
    ensures AckQueueValid(run[n].panel.queue)
  {
    RunKeepsInv(run, actions, n);
    hide OrderInv, LauncherInv, AgentInv, LinkInv, NoRepeats, IsRun;
  }

  /** The fiftieth answer sends the batch; before that nothing leaves but by the timer. */
  lemma FullBatchLeaves(run: seq<System>, actions: seq<Action>, n: nat)
    requires IsRun(run, actions) && n < |actions| && run[n].link.open
    requires AnsweredBy(run[n], actions[n]) != []
    ensures var batch := run[n].panel.queue.pending + AnsweredBy(run[n], actions[n]);
            if |batch| == ACK_BATCH
            then run[n + 1].link.acks == run[n].link.acks + [batch] && run[n + 1].panel.queue.pending == []
            else run[n + 1].link.acks == run[n].link.acks && run[n + 1].panel.queue.pending == batch
                 && Enabled(run[n + 1], AckTimerFires)
  {
    var s, a := run[n], actions[n];
    QueueIsValid(run, actions, n);
    assert run[n + 1] == Next(s, a) && Enabled(s, a);
    if a.Delivers? { DeliverReplies(s); } else { HandlerReplies(s, a.index); }
    hide IsRun, Next;
    var id := AnsweredBy(s, a)[0];
    assert AnsweredBy(s, a) == [id];
    assert s.link.acks + [] == s.link.acks;
  }

  // ----- What the journal keeps -----

  /** Each event carries the launcher's outcome it was emitted with, if any. */
  ghost predicate CarriesItsReport(events: seq<Event>, carried: map<nat, Report>) {
    forall e <- events :: e.report == if e.id in carried then Some(carried[e.id]) else None
  }

  ghost predicate JournalsCarry(a: Agent) {
    && CarriesItsReport(a.store.mem.value.pending, a.carried)
    && CarriesItsReport(a.store.snapshot.value.pending, a.carried)
    && CarriesItsReport(a.store.file.value.pending, a.carried)
  }

  lemma CarriesMore(events: seq<Event>, carried: map<nat, Report>, next: nat, report: Report)
    requires CarriesItsReport(events, carried) && Below(Ids(events), next)
    ensures CarriesItsReport(events, carried[next := report])
  {
    forall e <- events ensures e.id < next { assert e.id in Ids(events); }
  }

  lemma {:induction false} WithoutIsFrom(events: seq<Event>, ids: set<nat>)
    ensures forall e :: e in Without(events, ids) <==> e in events && e.id !in ids
  {
    if events != [] {
      WithoutIsFrom(events[1..], ids);
      assert events == [events[0]] + events[1..];
    }
  }

  lemma EmitCarries(a: Agent, report: Option<Report>)
    requires JournalsCarry(a) && JournalsBounded(a)
    ensures JournalsCarry(a.Emit(report))
  {
    var b := a.Emit(report);
    var events, e := a.store.mem.value.pending, Event(a.next, report);
    if report.Some? {
      CarriesMore(events, a.carried, a.next, report.value);
      CarriesMore(a.store.snapshot.value.pending, a.carried, a.next, report.value);
      CarriesMore(a.store.file.value.pending, a.carried, a.next, report.value);
    }
    assert a.next !in a.carried;
    hide Ids, Below;
    assert forall x :: x in Capped(events + [e]) ==> x in events || x == e;
  }

  lemma OtherStepsCarry(s: System, a: Action)
    requires JournalsCarry(s.agent) && Enabled(s, a) && !a.Emits? && !a.Reports? && !a.AcksArrive?
    ensures JournalsCarry(Next(s, a).agent)
  {
    assert CarriesItsReport([], s.agent.carried);
    hide CarriesItsReport, QueueAck, FlushAcks, Replayed, Ids, Capped, Without;
  }

  lemma AcksCarry(s: System)
    requires JournalsCarry(s.agent) && s.link.acks != []
    ensures JournalsCarry(Next(s, AcksArrive).agent)
  {
    var events, ids := s.agent.store.mem.value.pending, Members(s.link.acks[0]);
    WithoutIsFrom(events, ids);
    assert CarriesItsReport(Without(events, ids), s.agent.carried);
    hide CarriesItsReport, Without;
  }

  lemma EmissionIs(s: System, a: Action)
    requires Enabled(s, a)
    ensures a.Emits? ==> Next(s, a).agent == s.agent.Emit(None)
    ensures a.Reports? ==> Next(s, a).agent == s.agent.Emit(Some(s.launcher.consumers[a.consumer].report))
  {
    hide Capped;
  }

  lemma JournalsAreBounded(s: System)
    requires CoreInv(s)
    ensures JournalsBounded(s.agent)
  {
    hide PanelInv, LinkInv, JournalsBounded;
  }

  lemma StepCarries(s: System, a: Action)
    requires CoreInv(s) && JournalsCarry(s.agent) && Enabled(s, a)
    ensures JournalsCarry(Next(s, a).agent)
  {
    JournalsAreBounded(s);
    hide JournalsCarry, Next, CoreInv, JournalsBounded;
    EmissionIs(s, a);
    if a.Emits? {
      EmitCarries(s.agent, None);
    } else if a.Reports? {
      EmitCarries(s.agent, Some(s.launcher.consumers[a.consumer].report));
    } else if a.AcksArrive? {
      AcksCarry(s);
    } else {
      OtherStepsCarry(s, a);
    }
  }

  /** In every run, in memory and on disk, an event keeps what it was emitted with. */
  lemma {:induction false} EventsStayAsEmitted(run: seq<System>, actions: seq<Action>, n: nat)
    requires IsRun(run, actions) && n < |run|
    ensures JournalsCarry(run[n].agent)
    decreases n
  {
    if n > 0 {
      EventsStayAsEmitted(run, actions, n - 1);
      RunStep(run, actions, n);
      hide *;
      StepCarries(run[n - 1], actions[n - 1]);
    }
  }

  /** An acknowledgement that arrives takes exactly its events out, and leaves the others in order. */
  lemma AcksTakeExactly(run: seq<System>, actions: seq<Action>, n: nat)
    requires IsRun(run, actions) && n < |actions| && actions[n] == AcksArrive
    ensures run[n].link.acks != []
    ensures var before, after := run[n].agent.store.mem.value.pending, run[n + 1].agent.store.mem.value.pending;
            && (forall e :: e in after <==> e in before && e.id !in run[n].link.acks[0])
            && InEmissionOrder(after)
  {
    RunKeepsInv(run, actions, n + 1);
    WithoutIsFrom(run[n].agent.store.mem.value.pending, Members(run[n].link.acks[0]));
    hide OrderInv, LauncherInv, PanelInv, LinkInv, Without;
  }

  /** An emission appends its event; only a full journal loses one, the oldest. */
  lemma EmissionAppends(run: seq<System>, actions: seq<Action>, n: nat)
    requires IsRun(run, actions) && n < |actions| && (actions[n].Emits? || actions[n].Reports?)
    ensures actions[n].Reports? ==>
              actions[n].consumer in run[n].launcher.consumers
              && run[n].launcher.consumers[actions[n].consumer].Holding?
    ensures var before, after := run[n].agent.store.mem.value.pending, run[n + 1].agent.store.mem.value.pending;
            var report := if actions[n].Emits? then None
                          else Some(run[n].launcher.consumers[actions[n].consumer].report);
            var e := Event(run[n].agent.next, report);
            after == if |before| < 10_000 then before + [e] else before[1..] + [e]
  {
    RunKeepsInv(run, actions, n);
    var before, next := run[n].agent.store.mem.value.pending, run[n].agent.next;
    assert |before| <= JOURNAL_CAP;
    hide OrderInv, LauncherInv, PanelInv, LinkInv, AgentInv, IsRun;
    if |before| == JOURNAL_CAP {
      forall e: Event ensures (before + [e])[1..] == before[1..] + [e] {}
    }
  }

  /** The first pairing, and any with the same identity, keeps the journal; another identity empties it. */
  lemma PairingKeepsOrEmpties(run: seq<System>, actions: seq<Action>, n: nat)
    requires IsRun(run, actions) && n < |actions| && actions[n].Pairs?
    ensures var before, after := run[n].agent.store.mem.value, run[n + 1].agent.store.mem.value;
            && after.identity == Some(actions[n].identity)
            && after.pending == if before.identity in {None, after.identity} then before.pending else []
  {
  }
}
