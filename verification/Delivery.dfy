/**
 * Reliable delivery of critical events from an agent to the panel.
 *
 * The agent journals an event before sending it, replays its journal at every session and drops an
 * event when the panel acknowledges it. The panel claims the identifier of an event, runs its
 * handler and acknowledges in batches. Links, processes and handlers may die at any step.
 *
 * This file holds the two halves and the system made of them; its safety is proved in
 * DeliverySafety.
 */
module Delivery {
  import opened Options
  import opened StateStore

  const JOURNAL_CAP: nat := 10_000
  const ACK_BATCH: nat := 50

  /** An outcome left by the launcher; an unreadable one is consumed and forgotten. */
  datatype Report = Report(number: nat, valid: bool)

  /** Identifiers are numbered in emission order; `report` is the launcher outcome an event carries. */
  datatype Event = Event(id: nat, report: Option<Report>)

  /** `identity` is absent until the first pairing. */
  datatype AgentState = AgentState(identity: Option<nat>, pending: seq<Event>)

  // ----- Journal -----

  function Ids(events: seq<Event>): set<nat> {
    set e <- events :: e.id
  }

  predicate Increasing(ids: seq<nat>) {
    forall i, j :: 0 <= i < j < |ids| ==> ids[i] < ids[j]
  }

  predicate InEmissionOrder(events: seq<Event>) {
    forall i, j :: 0 <= i < j < |events| ==> events[i].id < events[j].id
  }

  /** The journal keeps the newest events once it is full. */
  function Capped(events: seq<Event>): (kept: seq<Event>)
    ensures |kept| <= JOURNAL_CAP
    ensures Ids(kept) <= Ids(events)
    ensures InEmissionOrder(events) ==> InEmissionOrder(kept)
  {
    if |events| > JOURNAL_CAP then events[|events| - JOURNAL_CAP..] else events
  }

  lemma IdsOfConcat(a: seq<Event>, b: seq<Event>)
    ensures Ids(a + b) == Ids(a) + Ids(b)
  {
    assert forall e :: e in a + b <==> e in a || e in b;
  }

  lemma IdsOfOne(e: Event)
    ensures Ids([e]) == {e.id}
  {
    assert e in [e];
  }

  /** In emission order, everything after the first event has a larger identifier. */
  lemma FirstIsSmallest(events: seq<Event>)
    requires events != []
    ensures Ids(events) == {events[0].id} + Ids(events[1..])
    ensures InEmissionOrder(events) ==>
              InEmissionOrder(events[1..]) && forall id :: id in Ids(events[1..]) ==> events[0].id < id
  {
    IdsOfOne(events[0]);
    IdsOfConcat([events[0]], events[1..]);
    assert events == [events[0]] + events[1..];
  }

  lemma PrependSmaller(e: Event, rest: seq<Event>)
    ensures Ids([e] + rest) == {e.id} + Ids(rest)
    ensures InEmissionOrder(rest) && (forall id :: id in Ids(rest) ==> e.id < id) ==> InEmissionOrder([e] + rest)
  {
    IdsOfOne(e);
    IdsOfConcat([e], rest);
    assert forall k :: 0 <= k < |rest| ==> rest[k].id in Ids(rest) by {
      forall k | 0 <= k < |rest| ensures rest[k].id in Ids(rest) { assert rest[k] in rest; }
    }
  }

  function Without(events: seq<Event>, ids: set<nat>): seq<Event> {
    if events == [] then []
    else
      var rest := Without(events[1..], ids);
      if events[0].id in ids then rest else [events[0]] + rest
  }

  lemma {:induction false} WithoutRemoves(events: seq<Event>, ids: set<nat>)
    ensures Ids(Without(events, ids)) == Ids(events) - ids
    ensures |Without(events, ids)| <= |events|
    ensures InEmissionOrder(events) ==> InEmissionOrder(Without(events, ids))
  {
    if events != [] {
      FirstIsSmallest(events);
      WithoutRemoves(events[1..], ids);
      PrependSmaller(events[0], Without(events[1..], ids));
    }
  }

  function Members(ids: seq<nat>): set<nat> {
    set id <- ids
  }

  /** The frames of a replay, in journal order; only those of `through` make it onto the link. */
  function Replayed(events: seq<Event>, through: set<nat>): seq<nat> {
    if events == [] then []
    else
      var rest := Replayed(events[1..], through);
      if events[0].id in through then [events[0].id] + rest else rest
  }

  lemma {:induction false} ReplayedInOrder(events: seq<Event>, through: set<nat>)
    ensures Members(Replayed(events, through)) == Ids(events) * through
    ensures InEmissionOrder(events) ==> Increasing(Replayed(events, through))
  {
    if events != [] {
      FirstIsSmallest(events);
      ReplayedInOrder(events[1..], through);
      var id, rest := events[0].id, Replayed(events[1..], through);
      assert forall k :: 0 <= k < |rest| ==> rest[k] in Members(rest);
      assert Members([id] + rest) == {id} + Members(rest) by {
        assert forall x :: x in [id] + rest <==> x == id || x in rest;
      }
    }
  }

  type AgentStore = Store<AgentState>

  /** `emit`: journal first, ask for a write, then try to send. */
  function Journalled(s: AgentStore, e: Event): (AgentStore, nat) {
    s.Mutate(s.mem.value.(pending := Capped(s.mem.value.pending + [e]))).Flush()
  }

  /** `acknowledge`: forget the events the panel answered for. */
  function Acknowledged(s: AgentStore, ids: seq<nat>): (AgentStore, nat) {
    s.Mutate(s.mem.value.(pending := Without(s.mem.value.pending, Members(ids)))).Flush()
  }

  /** Pairing: the journal of another identity means nothing to the new panel; before any it is kept. */
  function Paired(s: AgentStore, identity: nat): (AgentStore, nat) {
    var known, pending := s.mem.value.identity, s.mem.value.pending;
    s.Update(AgentState(Some(identity), if known.Some? && known.value != identity then [] else pending))
  }

  // ----- Panel -----

  datatype AckQueue = AckQueue(pending: seq<nat>, timer: bool)

  const NO_ACKS := AckQueue([], false)

  /** Queues one acknowledgement; a full batch leaves at once. */
  function QueueAck(q: AckQueue, id: nat): (AckQueue, seq<seq<nat>>) {
    var pending := q.pending + [id];
    if |pending| >= ACK_BATCH then FlushAcks(AckQueue(pending, q.timer), true)
    else (AckQueue(pending, true), [])
  }

  function FlushAcks(q: AckQueue, open: bool): (AckQueue, seq<seq<nat>>) {
    (NO_ACKS, if q.pending == [] || !open then [] else [q.pending])
  }

  predicate AckQueueValid(q: AckQueue) {
    |q.pending| < ACK_BATCH && (q.timer <==> q.pending != [])
  }

  /** A handler and the session on which its event arrived. */
  datatype Handler = Handler(id: nat, session: nat)

  datatype Panel = Panel(
    claimed: seq<nat>,       // identifiers, in the order of their first claim; survives a crash
    started: seq<nat>,       // handlers started so far
    waiting: seq<Handler>,   // claimed, handler not started yet
    running: seq<Handler>,
    queue: AckQueue          // of the current session
  ) {
    /** `critical`: claim, then schedule the handler; an identifier seen before is only acknowledged. */
    function Receive(id: nat, session: nat): (Panel, seq<seq<nat>>) {
      if id in claimed then
        var (q, out) := QueueAck(queue, id);
        (this.(queue := q), out)
      else
        (this.(claimed := claimed + [id], waiting := waiting + [Handler(id, session)]), [])
    }

    function StartHandler(): Panel
      requires waiting != []
    {
      this.(started := started + [waiting[0].id], running := running + [waiting[0]], waiting := waiting[1..])
    }

    /** The handler returned or threw; its session acknowledges it if it is still the open one. */
    function EndHandler(i: nat, session: nat, open: bool): (Panel, seq<seq<nat>>)
      requires i < |running|
    {
      var rest := running[..i] + running[i + 1..];
      if open && running[i].session == session then
        var (q, out) := QueueAck(queue, running[i].id);
        (this.(running := rest, queue := q), out)
      else (this.(running := rest), [])
    }

    function Crash(): Panel {
      this.(waiting := [], running := [], queue := NO_ACKS)
    }
  }

  // ----- The system -----

  datatype Agent = Agent(
    store: AgentStore,
    next: nat,                  // identifiers handed out so far
    awaiting: map<nat, nat>,    // the write each event emitted by this process waits for
    durable: set<nat>,          // events whose flush returned
    dropped: set<nat>,          // events given up by the cap or by a new pairing
    carried: map<nat, Report>   // which event carries which launcher outcome
  ) {
    function Emit(report: Option<Report>): Agent {
      var (s, ticket) := Journalled(store, Event(next, report));
      var lost := Ids(store.mem.value.pending + [Event(next, report)]) - Ids(s.mem.value.pending);
      Agent(s, next + 1, awaiting[next := ticket], durable, dropped + lost,
            if report.Some? then carried[next := report.value] else carried)
    }

    function Acknowledge(ids: seq<nat>): Agent {
      this.(store := Acknowledged(store, ids).0)
    }

    function Pair(identity: nat): Agent {
      var s := Paired(store, identity).0;
      this.(store := s, dropped := dropped + (Ids(store.mem.value.pending) - Ids(s.mem.value.pending)))
    }

    function Crash(): Agent {
      this.(store := store.Restart(), awaiting := map[])
    }
  }

  /** Both directions of the socket are FIFO; what is in flight dies with the session. */
  datatype Link = Link(open: bool, session: nat, wire: seq<nat>, acks: seq<seq<nat>>, failed: bool) {
    function Send(id: nat, fails: bool): Link {
      if !open then this
      else if fails then this.(failed := true)
      else this.(wire := wire + [id])
    }

    function Close(): Link {
      this.(open := false, wire := [], acks := [])
    }
  }

  /** One run of `consume`: after the rename, after a valid read, after the emission, or discarding. */
  datatype Consumer =
    | Opened
    | Holding(report: Report)
    | Waiting(report: Report, id: nat, ticket: nat)
    | Discarding(report: Report)

  datatype Launcher = Launcher(
    file: Option<Report>,             // update-result.json
    claim: Option<Report>,            // update-result.claimed.json
    consumers: map<nat, Consumer>,
    written: set<Report>
  ) {
    predicate Unreleased() {
      claim.Some? || exists c <- consumers :: !consumers[c].Opened?
    }

    /** Claiming renames the new outcome, or resumes a claim a dead process left behind. */
    function Claim(c: nat): Launcher {
      if file.Some? then this.(claim := file, file := None, consumers := consumers[c := Opened])
      else if claim.Some? then this.(consumers := consumers[c := Opened])
      else this
    }

    function Read(c: nat): Launcher {
      match claim
      case None => this.(consumers := consumers - {c})
      case Some(r) => this.(consumers := consumers[c := if r.valid then Holding(r) else Discarding(r)])
    }

    function Release(c: nat): Launcher {
      this.(claim := None, consumers := consumers - {c})
    }
  }

  datatype System = System(agent: Agent, link: Link, panel: Panel, launcher: Launcher)

  datatype Action =
    | Emits(fails: bool)
    | WriteStarts
    | WriteEnds
    | FlushReturns(id: nat)
    | Connects(through: set<nat>)
    | Disconnects
    | Delivers
    | HandlerStarts
    | HandlerEnds(index: nat)
    | AckTimerFires
    | AcksArrive
    | Pairs(identity: nat)
    | AgentCrashes
    | PanelCrashes
    | LauncherWrites(report: Report)
    | Claims(consumer: nat)
    | Reads(consumer: nat)
    | Reports(consumer: nat, fails: bool)
    | Releases(consumer: nat)

  /**
   * When a step can happen. The launcher leaves a new outcome only when the previous one is neither
   * unread nor claimed and not yet released.
   */
  predicate Enabled(s: System, a: Action) {
    match a
    case WriteStarts => s.agent.store.CanStart()
    case WriteEnds => s.agent.store.CanFinish()
    case FlushReturns(id) => id in s.agent.awaiting && s.agent.awaiting[id] <= s.agent.store.finished
    case Connects(_) => !s.link.open
    case Delivers => s.link.wire != []
    case HandlerStarts => s.panel.waiting != []
    case HandlerEnds(i) => i < |s.panel.running|
    case AckTimerFires => s.panel.queue.timer
    case AcksArrive => s.link.acks != []
    case Pairs(_) => !s.link.open
    case LauncherWrites(_) => s.launcher.file.None? && !s.launcher.Unreleased()
    case Claims(c) => c !in s.launcher.consumers
    case Reads(c) => c in s.launcher.consumers && s.launcher.consumers[c].Opened?
    case Reports(c, _) => c in s.launcher.consumers && s.launcher.consumers[c].Holding?
    case Releases(c) =>
      && c in s.launcher.consumers
      && var k := s.launcher.consumers[c];
         k.Discarding? || (k.Waiting? && k.ticket <= s.agent.store.finished)
    case _ => true
  }

  /** Replies of the panel leave on the open session. */
  function Answer(s: System, r: (Panel, seq<seq<nat>>)): System {
    s.(panel := r.0, link := s.link.(acks := s.link.acks + r.1))
  }

  function Next(s: System, a: Action): System
    requires Enabled(s, a)
  {
    match a
    case Emits(fails) =>
      s.(agent := s.agent.Emit(None), link := s.link.Send(s.agent.next, fails))
    case WriteStarts => s.(agent := s.agent.(store := s.agent.store.StartWrite()))
    case WriteEnds => s.(agent := s.agent.(store := s.agent.store.FinishWrite()))
    case FlushReturns(id) => s.(agent := s.agent.(durable := s.agent.durable + {id}))
    case Connects(through) =>
      var journal := s.agent.store.mem.value.pending;
      s.(link := Link(true, s.link.session + 1, Replayed(journal, through), [],
                      s.link.failed || !(Ids(journal) <= through)),
         panel := s.panel.(queue := NO_ACKS))
    case Disconnects => s.(link := s.link.Close())
    case Delivers =>
      var t := s.(link := s.link.(wire := s.link.wire[1..]));
      Answer(t, s.panel.Receive(s.link.wire[0], s.link.session))
    case HandlerStarts => s.(panel := s.panel.StartHandler())
    case HandlerEnds(i) => Answer(s, s.panel.EndHandler(i, s.link.session, s.link.open))
    case AckTimerFires =>
      var (q, out) := FlushAcks(s.panel.queue, s.link.open);
      Answer(s, (s.panel.(queue := q), out))
    case AcksArrive =>
      s.(agent := s.agent.Acknowledge(s.link.acks[0]), link := s.link.(acks := s.link.acks[1..]))
    case Pairs(identity) => s.(agent := s.agent.Pair(identity))
    case AgentCrashes =>
      s.(agent := s.agent.Crash(), link := s.link.Close(), launcher := s.launcher.(consumers := map[]))
    case PanelCrashes => s.(panel := s.panel.Crash(), link := s.link.Close())
    case LauncherWrites(r) =>
      s.(launcher := s.launcher.(file := Some(r), written := s.launcher.written + {r}))
    case Claims(c) => s.(launcher := s.launcher.Claim(c))
    case Reads(c) => s.(launcher := s.launcher.Read(c))
    case Reports(c, fails) =>
      var r := s.launcher.consumers[c].report;
      var agent := s.agent.Emit(Some(r));
      s.(agent := agent, link := s.link.Send(s.agent.next, fails),
         launcher := s.launcher.(consumers :=
           s.launcher.consumers[c := Waiting(r, s.agent.next, agent.awaiting[s.agent.next])]))
    case Releases(c) => s.(launcher := s.launcher.Release(c))
  }

  const INITIAL_STORE: AgentStore := Load(Image(AgentState(None, []), 0))

  const INITIAL: System := System(
    Agent(INITIAL_STORE, 0, map[], {}, {}, map[]),
    Link(false, 0, [], [], false),
    Panel([], [], [], [], NO_ACKS),
    Launcher(None, None, map[], {}))

  ghost predicate IsRun(run: seq<System>, actions: seq<Action>) {
    && |run| == |actions| + 1
    && run[0] == INITIAL
    && forall i :: 0 <= i < |actions| ==> Enabled(run[i], actions[i]) && run[i + 1] == Next(run[i], actions[i])
  }
}
