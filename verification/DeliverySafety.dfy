/**
 * Safety of the delivery protocol, over every run of the system of Delivery.
 */
module DeliverySafety {
  import opened Options
  import StateStore
  import opened Delivery

  // ----- The agent's journal, on disk and in memory -----

  function MemIds(a: Agent): set<nat> { Ids(a.store.mem.value.pending) }
  function SnapshotIds(a: Agent): set<nat> { Ids(a.store.snapshot.value.pending) }
  function FileIds(a: Agent): set<nat> { Ids(a.store.file.value.pending) }

  ghost predicate Below(ids: set<nat>, bound: nat) {
    forall id <- ids :: id < bound
  }

  ghost predicate JournalsOrdered(a: Agent) {
    && InEmissionOrder(a.store.mem.value.pending)
    && InEmissionOrder(a.store.snapshot.value.pending)
    && InEmissionOrder(a.store.file.value.pending)
  }

  ghost predicate JournalsBounded(a: Agent) {
    && Below(MemIds(a), a.next) && Below(SnapshotIds(a), a.next) && Below(FileIds(a), a.next)
    && Below(a.awaiting.Keys, a.next) && Below(a.carried.Keys, a.next)
    && |a.store.mem.value.pending| <= JOURNAL_CAP
    && |a.store.snapshot.value.pending| <= JOURNAL_CAP
    && |a.store.file.value.pending| <= JOURNAL_CAP
  }

  /** An event leaves the journal only once the panel claimed it, or when it was given up. */
  ghost predicate Lineage(a: Agent, claimed: set<nat>) {
    && FileIds(a) <= SnapshotIds(a) + claimed + a.dropped
    && SnapshotIds(a) <= MemIds(a) + claimed + a.dropped
  }

  /** Each write on the way to disk carries the events that wait for it. */
  ghost predicate TicketsHonoured(a: Agent, claimed: set<nat>) {
    forall id <- a.awaiting ::
      && a.awaiting[id] <= a.store.enqueued
      && id in MemIds(a) + claimed + a.dropped
      && (a.awaiting[id] <= a.store.started ==> id in SnapshotIds(a) + claimed + a.dropped)
      && (a.awaiting[id] <= a.store.finished ==> id in FileIds(a) + claimed + a.dropped)
  }

  ghost predicate DurableKept(a: Agent, claimed: set<nat>) {
    a.durable <= FileIds(a) + claimed + a.dropped
  }

  ghost predicate AgentInv(a: Agent, claimed: set<nat>) {
    && a.store.Valid() && JournalsOrdered(a) && JournalsBounded(a)
    && Lineage(a, claimed) && TicketsHonoured(a, claimed) && DurableKept(a, claimed)
  }

  lemma AppendNewest(events: seq<Event>, e: Event)
    requires Below(Ids(events), e.id)
    ensures Ids(events + [e]) == Ids(events) + {e.id}
    ensures InEmissionOrder(events) ==> InEmissionOrder(events + [e])
    ensures e.id in Ids(Capped(events + [e]))
  {
    IdsOfConcat(events, [e]);
    IdsOfOne(e);
    assert forall k :: 0 <= k < |events| ==> events[k].id in Ids(events) by {
      forall k | 0 <= k < |events| ensures events[k].id in Ids(events) { assert events[k] in events; }
    }
    var kept := Capped(events + [e]);
    assert kept[|kept| - 1] == e;
  }

  /** What an emission does to the journal in memory. */
  ghost predicate EmittedJournal(a: Agent, b: Agent) {
    && InEmissionOrder(b.store.mem.value.pending) && |b.store.mem.value.pending| <= JOURNAL_CAP
    && a.next in MemIds(b) && MemIds(b) <= MemIds(a) + {a.next}
    && MemIds(a) <= MemIds(b) + b.dropped
    && a.dropped <= b.dropped
    && b.next == a.next + 1
  }

  /** What an emission does to the writer. */
  ghost predicate EmittedWriter(a: Agent, b: Agent) {
    && b.store.file == a.store.file && b.store.snapshot == a.store.snapshot
    && b.store.started == a.store.started && b.store.finished == a.store.finished
    && b.store.enqueued == a.store.enqueued + 1
    && b.awaiting == a.awaiting[a.next := b.store.enqueued]
    && b.durable == a.durable
    && (a.store.Valid() ==> b.store.Valid())
  }

  /** An emission records which event carries which outcome, and forgets none. */
  ghost predicate EmittedCarried(a: Agent, b: Agent, report: Option<Report>) {
    && a.carried.Keys <= b.carried.Keys <= a.carried.Keys + {a.next}
    && (forall id <- a.carried :: id != a.next ==> b.carried[id] == a.carried[id])
    && (report.Some? ==> a.next in b.carried && b.carried[a.next] == report.value)
  }

  lemma EmitJournals(a: Agent, report: Option<Report>)
    requires JournalsOrdered(a) && JournalsBounded(a)
    ensures EmittedJournal(a, a.Emit(report))
  {
    var events, e := a.store.mem.value.pending, Event(a.next, report);
    AppendNewest(events, e);
    hide Ids, InEmissionOrder, Capped;
    var b := a.Emit(report);
    assert b.store.mem.value.pending == Capped(events + [e]);
  }

  lemma EmitWrites(a: Agent, report: Option<Report>)
    ensures EmittedWriter(a, a.Emit(report)) && EmittedCarried(a, a.Emit(report), report)
  {
    hide Ids, Capped;
  }

  lemma EmittedKeepsTickets(a: Agent, b: Agent, claimed: set<nat>)
    requires a.store.Valid() && TicketsHonoured(a, claimed) && EmittedJournal(a, b) && EmittedWriter(a, b)
    ensures TicketsHonoured(b, claimed)
  {
    hide Ids, InEmissionOrder;
    forall id | id in b.awaiting
      ensures b.awaiting[id] <= b.store.enqueued && id in MemIds(b) + claimed + b.dropped
      ensures b.awaiting[id] <= b.store.started ==> id in SnapshotIds(b) + claimed + b.dropped
      ensures b.awaiting[id] <= b.store.finished ==> id in FileIds(b) + claimed + b.dropped
    {
      if id != a.next { assert id in a.awaiting; }
    }
  }

  lemma EmittedKeepsAgent(a: Agent, b: Agent, claimed: set<nat>, report: Option<Report>)
    requires AgentInv(a, claimed) && EmittedJournal(a, b) && EmittedWriter(a, b) && EmittedCarried(a, b, report)
    ensures AgentInv(b, claimed)
  {
    EmittedKeepsTickets(a, b, claimed);
    hide Ids, InEmissionOrder, TicketsHonoured;
  }

  lemma EmitKeepsAgent(a: Agent, claimed: set<nat>, report: Option<Report>)
    requires AgentInv(a, claimed)
    ensures AgentInv(a.Emit(report), claimed)
  {
    EmitJournals(a, report);
    EmitWrites(a, report);
    EmittedKeepsAgent(a, a.Emit(report), claimed, report);
  }

  lemma AckKeepsAgent(a: Agent, claimed: set<nat>, ids: seq<nat>)
    requires AgentInv(a, claimed) && Members(ids) <= claimed
    ensures AgentInv(a.Acknowledge(ids), claimed)
    ensures MemIds(a.Acknowledge(ids)) == MemIds(a) - Members(ids)
  {
    WithoutRemoves(a.store.mem.value.pending, Members(ids));
  }

  lemma PairKeepsAgent(a: Agent, claimed: set<nat>, identity: nat)
    requires AgentInv(a, claimed)
    ensures AgentInv(a.Pair(identity), claimed)
  {
  }

  lemma CrashKeepsAgent(a: Agent, claimed: set<nat>)
    requires AgentInv(a, claimed)
    ensures AgentInv(a.Crash(), claimed)
  {
  }

  lemma WritesKeepAgent(a: Agent, claimed: set<nat>)
    requires AgentInv(a, claimed)
    ensures a.store.CanStart() ==> AgentInv(a.(store := a.store.StartWrite()), claimed)
    ensures a.store.CanFinish() ==> AgentInv(a.(store := a.store.FinishWrite()), claimed)
  {
  }

  lemma FlushReturnKeepsAgent(a: Agent, claimed: set<nat>, id: nat)
    requires AgentInv(a, claimed) && id in a.awaiting && a.awaiting[id] <= a.store.finished
    ensures AgentInv(a.(durable := a.durable + {id}), claimed)
  {
  }

  lemma ClaimKeepsAgent(a: Agent, claimed: set<nat>, more: set<nat>)
    requires AgentInv(a, claimed) && claimed <= more
    ensures AgentInv(a, more)
  {
  }

  // ----- The panel -----

  ghost predicate NoRepeats(ids: seq<nat>) {
    forall i, j :: 0 <= i < j < |ids| ==> ids[i] != ids[j]
  }

  function HandlerIds(handlers: seq<Handler>): seq<nat> {
    if handlers == [] then [] else [handlers[0].id] + HandlerIds(handlers[1..])
  }

  ghost predicate Batched(batches: seq<seq<nat>>, claimed: set<nat>) {
    forall b <- batches :: Members(b) <= claimed
  }

  /** Handlers started or about to start come one each from the claims. */
  ghost predicate PanelInv(p: Panel) {
    && NoRepeats(p.claimed)
    && multiset(p.started) + multiset(HandlerIds(p.waiting)) <= multiset(p.claimed)
    && (forall h <- p.running :: h.id in p.claimed)
    && Members(p.queue.pending) <= Members(p.claimed)
    && AckQueueValid(p.queue)
  }

  lemma QueueAckKeeps(q: AckQueue, id: nat, claimed: set<nat>)
    requires AckQueueValid(q) && Members(q.pending) <= claimed && id in claimed
    ensures var (r, out) := QueueAck(q, id);
            AckQueueValid(r) && Members(r.pending) <= claimed && Batched(out, claimed)
  {
    assert Members(q.pending + [id]) == Members(q.pending) + {id};
  }

  lemma {:induction false} HandlerIdsSnoc(handlers: seq<Handler>, h: Handler)
    ensures HandlerIds(handlers + [h]) == HandlerIds(handlers) + [h.id]
  {
    if handlers != [] {
      HandlerIdsSnoc(handlers[1..], h);
      assert (handlers + [h])[1..] == handlers[1..] + [h];
    }
  }

  lemma ReceiveKeepsPanel(p: Panel, id: nat, session: nat)
    requires PanelInv(p)
    ensures var (q, out) := p.Receive(id, session);
            && PanelInv(q) && Batched(out, Members(q.claimed))
            && Members(q.claimed) == Members(p.claimed) + {id}
  {
    if id in p.claimed {
      QueueAckKeeps(p.queue, id, Members(p.claimed));
    } else {
      HandlerIdsSnoc(p.waiting, Handler(id, session));
      assert Members(p.claimed + [id]) == Members(p.claimed) + {id};
    }
  }

  lemma CrashKeepsPanel(p: Panel)
    requires PanelInv(p)
    ensures PanelInv(p.Crash()) && PanelInv(p.(queue := NO_ACKS))
  {
  }

  lemma StartKeepsPanel(p: Panel)
    requires PanelInv(p) && p.waiting != []
    ensures PanelInv(p.StartHandler())
  {
    var id := p.waiting[0].id;
    assert multiset(HandlerIds(p.waiting)) == multiset{id} + multiset(HandlerIds(p.waiting[1..]));
    assert id in multiset(p.claimed);
  }

  lemma EndKeepsPanel(p: Panel, i: nat, session: nat, open: bool)
    requires PanelInv(p) && i < |p.running|
    ensures var (q, out) := p.EndHandler(i, session, open);
            PanelInv(q) && Batched(out, Members(q.claimed))
  {
    QueueAckKeeps(p.queue, p.running[i].id, Members(p.claimed));
  }

  // ----- The link -----

  ghost predicate LinkInv(l: Link, next: nat, claimed: set<nat>) {
    && Increasing(l.wire) && Below(Members(l.wire), next)
    && Batched(l.acks, claimed)
    && (!l.open ==> l.wire == [] && l.acks == [])
  }

  /** As long as no send failed, an open session has carried the whole journal. */
  ghost predicate JournalSent(s: System) {
    s.link.open && !s.link.failed ==> MemIds(s.agent) <= Members(s.link.wire) + Members(s.panel.claimed)
  }

  /** Identifiers that a later step may claim for the first time. */
  function Claimable(s: System): set<nat> {
    FileIds(s.agent) + SnapshotIds(s.agent) + MemIds(s.agent) + Members(s.link.wire)
    - Members(s.panel.claimed) - s.agent.dropped
  }

  /** Everything that can still be claimed for the first time is newer than everything claimed. */
  ghost predicate ClaimsLeadTheRest(s: System) {
    !s.link.failed ==>
      forall x, y :: x in Claimable(s) && y in s.panel.claimed ==> y < x
  }

  /** First claims follow emission order, apart from events that had been given up. */
  ghost predicate ClaimsInOrder(s: System) {
    !s.link.failed ==>
      forall i, j :: 0 <= i < j < |s.panel.claimed| ==>
        s.panel.claimed[i] < s.panel.claimed[j] || s.panel.claimed[j] in s.agent.dropped
  }

  // ----- The launcher's outcome -----

  function HeldReport(k: Consumer): Report
    requires !k.Opened?
  {
    k.report
  }

  /** A report is somewhere a crash cannot reach, or its event has been claimed or given up. */
  ghost predicate Safe(s: System, r: Report) {
    || s.launcher.file == Some(r)
    || s.launcher.claim == Some(r)
    || exists id <- s.agent.carried ::
         s.agent.carried[id] == r
         && id in FileIds(s.agent) + Members(s.panel.claimed) + s.agent.dropped
  }

  /** What a consumer holds is the claimed outcome, and what it waits for is what it emitted. */
  ghost predicate ConsumerInv(a: Agent, l: Launcher, k: Consumer) {
    && (!k.Opened? ==> l.file.None? && (l.claim == None || l.claim == Some(k.report)))
    && (k.Holding? || k.Waiting? ==> k.report.valid)
    && (k.Discarding? ==> !k.report.valid)
    && (k.Waiting? ==>
          && k.id in a.awaiting && a.awaiting[k.id] == k.ticket
          && k.id in a.carried && a.carried[k.id] == k.report)
  }

  ghost predicate LauncherInv(s: System) {
    && !(s.launcher.file.Some? && s.launcher.claim.Some?)
    && (forall c <- s.launcher.consumers :: ConsumerInv(s.agent, s.launcher, s.launcher.consumers[c]))
    && (forall r <- s.launcher.written :: r.valid ==> Safe(s, r))
  }

  // ----- The invariant of the system -----

  ghost predicate CoreInv(s: System) {
    && AgentInv(s.agent, Members(s.panel.claimed))
    && PanelInv(s.panel)
    && LinkInv(s.link, s.agent.next, Members(s.panel.claimed))
    && Below(Members(s.panel.claimed), s.agent.next)
  }

  ghost predicate OrderInv(s: System) {
    JournalSent(s) && ClaimsLeadTheRest(s) && ClaimsInOrder(s)
  }

  ghost predicate Inv(s: System) {
    CoreInv(s) && OrderInv(s) && LauncherInv(s)
  }

  lemma {:induction false} InitialInv()
    ensures Inv(INITIAL)
  {
  }

  lemma MoreAcks(acks: seq<seq<nat>>, out: seq<seq<nat>>, claimed: set<nat>)
    requires Batched(acks, claimed) && Batched(out, claimed)
    ensures Batched(acks + out, claimed)
  {
  }

  lemma SendKeepsLink(l: Link, next: nat, claimed: set<nat>, fails: bool)
    requires LinkInv(l, next, claimed)
    ensures LinkInv(l.Send(next, fails), next + 1, claimed)
    ensures Members(l.Send(next, fails).wire) <= Members(l.wire) + {next}
    ensures l.open && !fails ==> Members(l.Send(next, fails).wire) == Members(l.wire) + {next}
  {
    assert Members(l.wire + [next]) == Members(l.wire) + {next};
    assert forall k :: 0 <= k < |l.wire| ==> l.wire[k] in Members(l.wire);
  }

  lemma TailOfWire(wire: seq<nat>)
    requires wire != [] && Increasing(wire)
    ensures Increasing(wire[1..]) && Members(wire) == {wire[0]} + Members(wire[1..])
    ensures forall x <- Members(wire[1..]) :: wire[0] < x
  {
    assert wire == [wire[0]] + wire[1..];
  }

  lemma EmitKeepsCore(s: System, report: Option<Report>, fails: bool)
    requires CoreInv(s)
    ensures CoreInv(s.(agent := s.agent.Emit(report), link := s.link.Send(s.agent.next, fails)))
  {
    EmitKeepsAgent(s.agent, Members(s.panel.claimed), report);
    SendKeepsLink(s.link, s.agent.next, Members(s.panel.claimed), fails);
  }

  lemma DeliverKeepsCore(s: System)
    requires CoreInv(s) && s.link.wire != []
    ensures CoreInv(Next(s, Delivers))
  {
    hide AgentInv, PanelInv, NoRepeats;
    var id := s.link.wire[0];
    TailOfWire(s.link.wire);
    ReceiveKeepsPanel(s.panel, id, s.link.session);
    var (q, out) := s.panel.Receive(id, s.link.session);
    ClaimKeepsAgent(s.agent, Members(s.panel.claimed), Members(q.claimed));
    MoreAcks(s.link.acks, out, Members(q.claimed));
  }

  lemma AcksKeepCore(s: System)
    requires CoreInv(s) && s.link.acks != []
    ensures CoreInv(Next(s, AcksArrive))
  {
    assert s.link.acks[0] in s.link.acks;
    AckKeepsAgent(s.agent, Members(s.panel.claimed), s.link.acks[0]);
  }

  lemma HandlerEndKeepsCore(s: System, i: nat)
    requires CoreInv(s) && i < |s.panel.running|
    ensures CoreInv(Next(s, HandlerEnds(i)))
  {
    EndKeepsPanel(s.panel, i, s.link.session, s.link.open);
    var (q, out) := s.panel.EndHandler(i, s.link.session, s.link.open);
    MoreAcks(s.link.acks, out, Members(q.claimed));
  }

  lemma AckTimerKeepsCore(s: System)
    requires CoreInv(s) && s.panel.queue.timer
    ensures CoreInv(Next(s, AckTimerFires))
  {
    var (q, out) := FlushAcks(s.panel.queue, s.link.open);
    MoreAcks(s.link.acks, out, Members(s.panel.claimed));
  }

  lemma ConnectKeepsCore(s: System, through: set<nat>)
    requires CoreInv(s) && !s.link.open
    ensures CoreInv(Next(s, Connects(through)))
  {
    CrashKeepsPanel(s.panel);
    ReplayedInOrder(s.agent.store.mem.value.pending, through);
    hide PanelInv, InEmissionOrder, Ids;
  }

  lemma StepKeepsCore(s: System, a: Action)
    requires CoreInv(s) && Enabled(s, a)
    ensures CoreInv(Next(s, a))
  {
    hide AgentInv, PanelInv;
    CrashKeepsPanel(s.panel);
    match a
    case Emits(fails) => EmitKeepsCore(s, None, fails);
    case WriteStarts => WritesKeepAgent(s.agent, Members(s.panel.claimed));
    case WriteEnds => WritesKeepAgent(s.agent, Members(s.panel.claimed));
    case FlushReturns(id) => FlushReturnKeepsAgent(s.agent, Members(s.panel.claimed), id);
    case Connects(through) => ConnectKeepsCore(s, through);
    case Disconnects =>
    case Delivers => DeliverKeepsCore(s);
    case HandlerStarts => StartKeepsPanel(s.panel);
    case HandlerEnds(i) => HandlerEndKeepsCore(s, i);
    case AckTimerFires => AckTimerKeepsCore(s);
    case AcksArrive => AcksKeepCore(s);
    case Pairs(identity) => PairKeepsAgent(s.agent, Members(s.panel.claimed), identity);
    case AgentCrashes => CrashKeepsAgent(s.agent, Members(s.panel.claimed));
    case PanelCrashes =>
    case LauncherWrites(_) =>
    case Claims(_) =>
    case Reads(_) =>
    case Reports(c, fails) => EmitKeepsCore(s, Some(s.launcher.consumers[c].report), fails);
    case Releases(_) =>
  }

  // ----- Order of first claims -----

  /** A step that claims nothing keeps the order when whatever becomes claimable is newer than all claims. */
  lemma NothingClaimed(s: System, t: System, newer: set<nat>)
    requires ClaimsLeadTheRest(s) && ClaimsInOrder(s)
    requires t.panel.claimed == s.panel.claimed && s.agent.dropped <= t.agent.dropped
    requires s.link.failed ==> t.link.failed
    requires Claimable(t) <= Claimable(s) + newer
    requires forall x, y :: x in newer && y in s.panel.claimed ==> y < x
    ensures ClaimsLeadTheRest(t) && ClaimsInOrder(t)
  {
  }

  lemma EmitKeepsOrder(s: System, report: Option<Report>, fails: bool)
    requires CoreInv(s) && OrderInv(s)
    ensures OrderInv(s.(agent := s.agent.Emit(report), link := s.link.Send(s.agent.next, fails)))
  {
    var t := s.(agent := s.agent.Emit(report), link := s.link.Send(s.agent.next, fails));
    EmitJournals(s.agent, report);
    EmitWrites(s.agent, report);
    SendKeepsLink(s.link, s.agent.next, Members(s.panel.claimed), fails);
    assert Below(Members(s.panel.claimed), s.agent.next);
    assert forall y :: y in s.panel.claimed ==> y in Members(s.panel.claimed);
    NothingClaimed(s, t, {s.agent.next});
  }

  lemma ConnectKeepsOrder(s: System, through: set<nat>)
    requires CoreInv(s) && OrderInv(s) && !s.link.open
    ensures OrderInv(Next(s, Connects(through)))
  {
    ReplayedInOrder(s.agent.store.mem.value.pending, through);
    NothingClaimed(s, Next(s, Connects(through)), {});
  }

  lemma FirstClaimKeepsLead(s: System, t: System, id: nat)
    requires CoreInv(s) && OrderInv(s) && s.link.wire != [] && id == s.link.wire[0] && id !in s.panel.claimed
    requires t.agent == s.agent && t.link.wire == s.link.wire[1..] && t.link.failed == s.link.failed
    requires t.panel.claimed == s.panel.claimed + [id]
    ensures ClaimsLeadTheRest(t)
  {
    TailOfWire(s.link.wire);
    assert Members(t.panel.claimed) == Members(s.panel.claimed) + {id};
    if !s.link.failed {
      forall x, y | x in Claimable(t) && y in t.panel.claimed ensures y < x {
        assert x in MemIds(s.agent) || x in Members(s.link.wire);
        assert x in Claimable(s) && x in Members(t.link.wire);
      }
    }
  }

  lemma FirstClaimKeepsOrder(s: System, t: System, id: nat)
    requires CoreInv(s) && OrderInv(s) && s.link.wire != [] && id == s.link.wire[0] && id !in s.panel.claimed
    requires t.agent == s.agent && t.link.failed == s.link.failed
    requires t.panel.claimed == s.panel.claimed + [id]
    ensures ClaimsInOrder(t)
  {
    TailOfWire(s.link.wire);
    if !s.link.failed && id !in s.agent.dropped {
      assert id in Claimable(s);
      assert forall i :: 0 <= i < |s.panel.claimed| ==> s.panel.claimed[i] in s.panel.claimed;
    }
  }

  lemma DeliverKeepsOrder(s: System)
    requires CoreInv(s) && OrderInv(s) && s.link.wire != []
    ensures OrderInv(Next(s, Delivers))
  {
    var id := s.link.wire[0];
    var t := Next(s, Delivers);
    TailOfWire(s.link.wire);
    ReceiveKeepsPanel(s.panel, id, s.link.session);
    if id in s.panel.claimed {
      NothingClaimed(s, t, {});
    } else {
      FirstClaimKeepsLead(s, t, id);
      FirstClaimKeepsOrder(s, t, id);
    }
  }

  lemma AcksKeepOrder(s: System)
    requires CoreInv(s) && OrderInv(s) && s.link.acks != []
    ensures OrderInv(Next(s, AcksArrive))
  {
    assert s.link.acks[0] in s.link.acks;
    AckKeepsAgent(s.agent, Members(s.panel.claimed), s.link.acks[0]);
    NothingClaimed(s, Next(s, AcksArrive), {});
  }

  lemma AgentStepsKeepOrder(s: System, a: Action)
    requires CoreInv(s) && OrderInv(s) && Enabled(s, a)
    requires a.WriteStarts? || a.WriteEnds? || a.FlushReturns? || a.Pairs? || a.AgentCrashes?
    ensures OrderInv(Next(s, a))
  {
    NothingClaimed(s, Next(s, a), {});
  }

  lemma PanelStepsKeepOrder(s: System, a: Action)
    requires CoreInv(s) && OrderInv(s) && Enabled(s, a)
    requires a.Disconnects? || a.HandlerStarts? || a.HandlerEnds? || a.AckTimerFires? || a.PanelCrashes?
    ensures OrderInv(Next(s, a))
  {
    NothingClaimed(s, Next(s, a), {});
  }

  lemma LauncherStepsKeepOrder(s: System, a: Action)
    requires CoreInv(s) && OrderInv(s) && Enabled(s, a)
    requires a.LauncherWrites? || a.Claims? || a.Reads? || a.Releases?
    ensures OrderInv(Next(s, a))
  {
    NothingClaimed(s, Next(s, a), {});
  }

  lemma SendingStepsKeepOrder(s: System, a: Action)
    requires CoreInv(s) && OrderInv(s) && Enabled(s, a)
    requires a.Emits? || a.Reports?
    ensures OrderInv(Next(s, a))
  {
    EmitKeepsOrder(s, if a.Emits? then None else Some(s.launcher.consumers[a.consumer].report), a.fails);
    var t := s.(agent := Next(s, a).agent, link := Next(s, a).link);
    assert OrderInv(t) && Claimable(Next(s, a)) == Claimable(t);
  }

  lemma StepKeepsOrder(s: System, a: Action)
    requires CoreInv(s) && OrderInv(s) && Enabled(s, a)
    ensures OrderInv(Next(s, a))
  {
    match a
    case Emits(_) => SendingStepsKeepOrder(s, a);
    case Reports(_, _) => SendingStepsKeepOrder(s, a);
    case Connects(through) => ConnectKeepsOrder(s, through);
    case Delivers => DeliverKeepsOrder(s);
    case AcksArrive => AcksKeepOrder(s);
    case LauncherWrites(_) => LauncherStepsKeepOrder(s, a);
    case Claims(_) => LauncherStepsKeepOrder(s, a);
    case Reads(_) => LauncherStepsKeepOrder(s, a);
    case Releases(_) => LauncherStepsKeepOrder(s, a);
    case Disconnects => PanelStepsKeepOrder(s, a);
    case HandlerStarts => PanelStepsKeepOrder(s, a);
    case HandlerEnds(_) => PanelStepsKeepOrder(s, a);
    case AckTimerFires => PanelStepsKeepOrder(s, a);
    case PanelCrashes => PanelStepsKeepOrder(s, a);
    case WriteStarts => AgentStepsKeepOrder(s, a);
    case WriteEnds => AgentStepsKeepOrder(s, a);
    case FlushReturns(_) => AgentStepsKeepOrder(s, a);
    case Pairs(_) => AgentStepsKeepOrder(s, a);
    case AgentCrashes => AgentStepsKeepOrder(s, a);
  }

  // ----- The launcher's outcome -----

  /** A step that leaves the launcher's files alone keeps every report safe. */
  lemma StaysSafe(s: System, t: System, r: Report)
    requires Safe(s, r)
    requires s.launcher.file == Some(r) ==> t.launcher.file == Some(r) || t.launcher.claim == Some(r)
    requires s.launcher.claim == Some(r) ==> t.launcher.claim == Some(r)
    requires forall id <- s.agent.carried :: id in t.agent.carried && t.agent.carried[id] == s.agent.carried[id]
    requires FileIds(s.agent) + Members(s.panel.claimed) + s.agent.dropped
             <= FileIds(t.agent) + Members(t.panel.claimed) + t.agent.dropped
    ensures Safe(t, r)
  {
  }

  lemma EmitKeepsLauncher(s: System, report: Option<Report>, fails: bool)
    requires CoreInv(s) && LauncherInv(s)
    ensures LauncherInv(s.(agent := s.agent.Emit(report), link := s.link.Send(s.agent.next, fails)))
  {
    var t := s.(agent := s.agent.Emit(report), link := s.link.Send(s.agent.next, fails));
    EmitJournals(s.agent, report);
    EmitWrites(s.agent, report);
    assert s.agent.next !in s.agent.carried && s.agent.next !in s.agent.awaiting;
    hide AgentInv, PanelInv, LinkInv, Ids, Journalled;
    forall c | c in t.launcher.consumers ensures ConsumerInv(t.agent, t.launcher, t.launcher.consumers[c]) {
      assert ConsumerInv(s.agent, s.launcher, s.launcher.consumers[c]);
    }
    forall r | r in s.launcher.written && r.valid ensures Safe(t, r) { StaysSafe(s, t, r); }
  }

  lemma AgentAndPanelStepsKeepLauncher(s: System, a: Action)
    requires CoreInv(s) && LauncherInv(s) && Enabled(s, a)
    requires a.WriteStarts? || a.WriteEnds? || a.FlushReturns? || a.Connects? || a.Disconnects? || a.Delivers?
             || a.HandlerStarts? || a.HandlerEnds? || a.AckTimerFires? || a.AcksArrive? || a.Pairs?
             || a.AgentCrashes? || a.PanelCrashes?
    ensures LauncherInv(Next(s, a))
  {
    var t := Next(s, a);
    assert t.agent.carried == s.agent.carried;
    assert Members(s.panel.claimed) <= Members(t.panel.claimed) by {
      if a.Delivers? { ReceiveKeepsPanel(s.panel, s.link.wire[0], s.link.session); }
    }
    forall r | r in s.launcher.written && r.valid ensures Safe(t, r) { StaysSafe(s, t, r); }
  }

  lemma ConsumerStepsKeepLauncher(s: System, a: Action)
    requires CoreInv(s) && LauncherInv(s) && Enabled(s, a)
    requires a.LauncherWrites? || a.Claims? || a.Reads?
    ensures LauncherInv(Next(s, a))
  {
    var t := Next(s, a);
    match a
    case LauncherWrites(report) =>
      forall c | c in t.launcher.consumers ensures ConsumerInv(t.agent, t.launcher, t.launcher.consumers[c]) {
        assert s.launcher.consumers[c].Opened?;
      }
      forall r | r in t.launcher.written && r.valid ensures Safe(t, r) {
        if r in s.launcher.written { StaysSafe(s, t, r); }
      }
    case Claims(c) =>
      forall r | r in t.launcher.written && r.valid ensures Safe(t, r) { StaysSafe(s, t, r); }
    case Reads(c) =>
      forall r | r in t.launcher.written && r.valid ensures Safe(t, r) { StaysSafe(s, t, r); }
  }

  lemma ReportKeepsLauncher(s: System, c: nat, fails: bool)
    requires CoreInv(s) && LauncherInv(s) && Enabled(s, Reports(c, fails))
    ensures LauncherInv(Next(s, Reports(c, fails)))
  {
    var k := s.launcher.consumers[c];
    EmitKeepsLauncher(s, Some(k.report), fails);
    var e := s.(agent := s.agent.Emit(Some(k.report)), link := s.link.Send(s.agent.next, fails));
    var t := Next(s, Reports(c, fails));
    forall r | r in t.launcher.written && r.valid ensures Safe(t, r) { StaysSafe(e, t, r); }
  }

  /** Releasing destroys the claim only once the event that carries it is on disk, claimed or given up. */
  lemma ReleaseKeepsLauncher(s: System, c: nat)
    requires CoreInv(s) && LauncherInv(s) && Enabled(s, Releases(c))
    ensures LauncherInv(Next(s, Releases(c)))
    ensures var k := s.launcher.consumers[c];
            k.Waiting? ==> k.id in FileIds(s.agent) + Members(s.panel.claimed) + s.agent.dropped
  {
    var k := s.launcher.consumers[c];
    var t := Next(s, Releases(c));
    forall r | r in t.launcher.written && r.valid ensures Safe(t, r) {
      if s.launcher.claim == Some(r) {
        assert ConsumerInv(s.agent, s.launcher, k) && k.Waiting?;
        assert k.id in FileIds(s.agent) + Members(s.panel.claimed) + s.agent.dropped;
      }
    }
  }

  lemma StepKeepsLauncher(s: System, a: Action)
    requires CoreInv(s) && LauncherInv(s) && Enabled(s, a)
    ensures LauncherInv(Next(s, a))
  {
    match a
    case Emits(fails) => EmitKeepsLauncher(s, None, fails);
    case LauncherWrites(_) => ConsumerStepsKeepLauncher(s, a);
    case Claims(_) => ConsumerStepsKeepLauncher(s, a);
    case Reads(_) => ConsumerStepsKeepLauncher(s, a);
    case Reports(c, fails) => ReportKeepsLauncher(s, c, fails);
    case Releases(c) => ReleaseKeepsLauncher(s, c);
    case _ => AgentAndPanelStepsKeepLauncher(s, a);
  }

  // ----- Every run -----

  lemma {:induction false} RunKeepsInv(run: seq<System>, actions: seq<Action>, i: nat)
    requires IsRun(run, actions) && i < |run|
    ensures Inv(run[i])
  {
    if i == 0 {
      InitialInv();
    } else {
      RunKeepsInv(run, actions, i - 1);
      StepKeepsCore(run[i - 1], actions[i - 1]);
      StepKeepsOrder(run[i - 1], actions[i - 1]);
      StepKeepsLauncher(run[i - 1], actions[i - 1]);
    }
  }

  /** An acknowledgement removes an event from the journal only after the panel claimed it. */
  lemma AckedOnlyAfterClaim(run: seq<System>, actions: seq<Action>, i: nat)
    requires IsRun(run, actions) && i < |actions| && actions[i] == AcksArrive
    ensures MemIds(run[i].agent) - MemIds(run[i + 1].agent) <= Members(run[i].panel.claimed)
  {
    RunKeepsInv(run, actions, i);
    assert run[i].link.acks[0] in run[i].link.acks;
    AckKeepsAgent(run[i].agent, Members(run[i].panel.claimed), run[i].link.acks[0]);
  }

  lemma OccursAtMostOnce(ids: seq<nat>, id: nat)
    requires NoRepeats(ids)
    ensures multiset(ids)[id] <= 1
  {
    if ids != [] {
      var last := |ids| - 1;
      assert ids == ids[..last] + [ids[last]];
      OccursAtMostOnce(ids[..last], id);
    }
  }

  /** The handler of an event starts at most once, and only for a claimed event, whatever crashes. */
  lemma HandlerStartsAtMostOnce(run: seq<System>, actions: seq<Action>, i: nat, id: nat)
    requires IsRun(run, actions) && i < |run|
    ensures multiset(run[i].panel.started)[id] <= 1
    ensures id in run[i].panel.started ==> id in run[i].panel.claimed
  {
    RunKeepsInv(run, actions, i);
    OccursAtMostOnce(run[i].panel.claimed, id);
    assert multiset(run[i].panel.started) <= multiset(run[i].panel.claimed);
    if id in run[i].panel.started { assert id in multiset(run[i].panel.started); }
  }

  /** Unless the panel dies, every claimed event is handled, one after the other in claim order. */
  lemma {:induction false} HandlersFollowClaims(run: seq<System>, actions: seq<Action>, i: nat)
    requires IsRun(run, actions) && i < |run| && PanelCrashes !in actions
    ensures run[i].panel.started + HandlerIds(run[i].panel.waiting) == run[i].panel.claimed
  {
    if i > 0 {
      HandlersFollowClaims(run, actions, i - 1);
      assert actions[i - 1] in actions;
      StepFollowsClaims(run[i - 1], actions[i - 1]);
    }
  }

  lemma StepFollowsClaims(s: System, a: Action)
    requires Enabled(s, a) && !a.PanelCrashes?
    requires s.panel.started + HandlerIds(s.panel.waiting) == s.panel.claimed
    ensures Next(s, a).panel.started + HandlerIds(Next(s, a).panel.waiting) == Next(s, a).panel.claimed
  {
    if a.Delivers? {
      HandlerIdsSnoc(s.panel.waiting, Handler(s.link.wire[0], s.link.session));
    } else if a.HandlerStarts? {
      var waiting := s.panel.waiting;
      assert HandlerIds(waiting) == [waiting[0].id] + HandlerIds(waiting[1..]);
    }
  }

  /** An event whose flush returned is on disk until it is claimed, unless it was given up. */
  lemma DurableUntilClaimed(run: seq<System>, actions: seq<Action>, i: nat, id: nat)
    requires IsRun(run, actions) && i < |run| && id in run[i].agent.durable
    ensures id in FileIds(run[i].agent) || id in run[i].panel.claimed || id in run[i].agent.dropped
  {
    RunKeepsInv(run, actions, i);
  }

  /** A full journal makes room for a newer event by losing exactly its first one. */
  lemma FullJournalLosesFirst(journal: seq<Event>, e: Event)
    requires InEmissionOrder(journal) && Below(Ids(journal), e.id) && |journal| <= JOURNAL_CAP
    ensures Ids(journal + [e]) - Ids(Capped(journal + [e]))
            == if |journal| == JOURNAL_CAP then {journal[0].id} else {}
  {
    if |journal| == JOURNAL_CAP {
      assert Capped(journal + [e]) == journal[1..] + [e];
      FirstIsSmallest(journal);
      IdsOfConcat(journal, [e]);
      IdsOfConcat(journal[1..], [e]);
      IdsOfOne(e);
      assert journal[0].id in Ids(journal);
    }
  }

  /** Events are given up only one by one past the journal's cap, the oldest first, or for another identity. */
  lemma GivenUpOnlyByCapOrPairing(run: seq<System>, actions: seq<Action>, i: nat)
    requires IsRun(run, actions) && i < |actions|
    requires run[i + 1].agent.dropped != run[i].agent.dropped
    ensures var a, journal := actions[i], run[i].agent.store.mem.value.pending;
            || ((a.Emits? || a.Reports?)
                && |journal| == JOURNAL_CAP
                && run[i + 1].agent.dropped == run[i].agent.dropped + {journal[0].id})
            || (a.Pairs? && run[i].agent.store.mem.value.identity !in {None, Some(a.identity)})
  {
    RunKeepsInv(run, actions, i);
    JournalBounds(run[i]);
    assert Enabled(run[i], actions[i]) && run[i + 1] == Next(run[i], actions[i]);
    hide IsRun, CoreInv;
    StepGivesUp(run[i], actions[i]);
  }

  lemma JournalBounds(s: System)
    requires CoreInv(s)
    ensures var journal := s.agent.store.mem.value.pending;
            InEmissionOrder(journal) && Below(Ids(journal), s.agent.next) && |journal| <= JOURNAL_CAP
  {
    hide PanelInv, LinkInv;
  }

  lemma EmitGivesUp(a: Agent, report: Option<Report>)
    requires var journal := a.store.mem.value.pending;
             InEmissionOrder(journal) && Below(Ids(journal), a.next) && |journal| <= JOURNAL_CAP
    ensures var journal := a.store.mem.value.pending;
            a.Emit(report).dropped == a.dropped + if |journal| == JOURNAL_CAP then {journal[0].id} else {}
  {
    FullJournalLosesFirst(a.store.mem.value.pending, Event(a.next, report));
    hide Capped, Ids, InEmissionOrder, Below;
  }

  lemma StepGivesUp(s: System, a: Action)
    requires Enabled(s, a) && Next(s, a).agent.dropped != s.agent.dropped
    requires var journal := s.agent.store.mem.value.pending;
             InEmissionOrder(journal) && Below(Ids(journal), s.agent.next) && |journal| <= JOURNAL_CAP
    ensures var journal := s.agent.store.mem.value.pending;
            || ((a.Emits? || a.Reports?)
                && |journal| == JOURNAL_CAP
                && Next(s, a).agent.dropped == s.agent.dropped + {journal[0].id})
            || (a.Pairs? && s.agent.store.mem.value.identity !in {None, Some(a.identity)})
  {
    EmitGivesUp(s.agent, None);
    if a.Reports? { EmitGivesUp(s.agent, Some(s.launcher.consumers[a.consumer].report)); }
    hide QueueAck, FlushAcks, Capped, Without, Replayed, Ids, Members, InEmissionOrder, Below, Journalled;
  }

  /** While no send has failed, first claims follow emission order. */
  lemma ClaimsFollowEmission(run: seq<System>, actions: seq<Action>, n: nat, i: nat, j: nat)
    requires IsRun(run, actions) && n < |run| && !run[n].link.failed
    requires i < j < |run[n].panel.claimed| && run[n].panel.claimed[j] !in run[n].agent.dropped
    ensures run[n].panel.claimed[i] < run[n].panel.claimed[j]
  {
    RunKeepsInv(run, actions, n);
  }

  /** Wherever the agent dies, a valid outcome of the launcher is not lost. */
  lemma OutcomeNeverLost(run: seq<System>, actions: seq<Action>, i: nat, r: Report)
    requires IsRun(run, actions) && i < |run|
    requires r in run[i].launcher.written && r.valid
    ensures Safe(run[i], r)
  {
    RunKeepsInv(run, actions, i);
  }
}
