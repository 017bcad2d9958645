/**
 * The two objects of the delivery protocol, as the agent and the panel hold them. Each method is
 * tied to the step of Delivery it performs.
 */
module DeliveryObjects {
  import opened Options
  import opened Delivery
  import StateStore

  lemma {:induction false} ReplayedAppend(events: seq<Event>, e: Event, through: set<nat>)
    ensures Replayed(events + [e], through)
            == Replayed(events, through) + (if e.id in through then [e.id] else [])
  {
    if events == [] {
      assert Replayed([e], through) == if e.id in through then [e.id] else [];
    } else {
      ReplayedAppend(events[1..], e, through);
      assert (events + [e])[1..] == events[1..] + [e];
    }
  }

  class AgentConnection {
    const store: StateStore.StateFile<AgentState>
    var session: bool
    var number: nat          // sessions established so far
    var wire: seq<nat>       // frames accepted by the current peer
    var failed: bool         // some frame was refused by its peer

    ghost predicate Valid()
      reads this, store
    {
      store.Valid() && (!session ==> wire == [])
    }

    ghost function Outgoing(): Link
      reads this
    {
      Link(session, number, wire, [], failed)
    }

    constructor (store: StateStore.StateFile<AgentState>)
      requires store.Valid()
      ensures Valid() && this.store == store && Outgoing() == Link(false, 0, [], [], false)
    {
      this.store := store;
      session, number, wire, failed := false, 0, [], false;
    }

    /** Without a session the event only stays in the journal; a peer that throws is survived. */
    method TrySend(id: nat, fails: bool)
      requires Valid()
      modifies this
      ensures Valid() && Outgoing() == old(Outgoing()).Send(id, fails)
    {
      if !session { return; }
      if fails { failed := true; } else { wire := wire + [id]; }
    }

    /** Journals the event, asks for a write, then tries to send. The ticket is the write to await. */
    method Emit(e: Event, fails: bool) returns (ticket: nat)
      requires Valid()
      modifies this, store
      ensures Valid()
      ensures (store.Value(), ticket) == Journalled(old(store.Value()), e)
      ensures Outgoing() == old(Outgoing()).Send(e.id, fails)
      ensures StateStore.Owed(store.Value(), ticket, old(store.stateVersion) + 1)
    {
      var pending := store.state.pending + [e];
      if |pending| > JOURNAL_CAP { pending := pending[|pending| - JOURNAL_CAP..]; }
      store.Mutate(store.state.(pending := pending));
      ticket := store.Flush();
      TrySend(e.id, fails);
    }

    method Acknowledge(ids: seq<nat>)
      requires Valid()
      modifies store
      ensures Valid() && store.Value() == Acknowledged(old(store.Value()), ids).0
    {
      store.Mutate(store.state.(pending := Without(store.state.pending, Members(ids))));
      var ticket := store.Flush();
    }

    /** The panel accepted this agent: the whole journal is replayed before anything else is sent. */
    method StartSession(through: set<nat>)
      requires Valid() && !session
      modifies this
      ensures Valid()
      ensures Outgoing() == Link(true, old(number) + 1, Replayed(store.state.pending, through), [],
                                 old(failed) || !(Ids(store.state.pending) <= through))
    {
      session, number := true, number + 1;
      var pending := store.state.pending;
      for i := 0 to |pending|
        invariant session && number == old(number) + 1 && store.Valid()
        invariant pending == store.state.pending
        invariant wire == Replayed(pending[..i], through)
        invariant failed == (old(failed) || !(Ids(pending[..i]) <= through))
      {
        assert pending[..i + 1] == pending[..i] + [pending[i]];
        ReplayedAppend(pending[..i], pending[i], through);
        IdsOfConcat(pending[..i], [pending[i]]);
        IdsOfOne(pending[i]);
        TrySend(pending[i].id, pending[i].id !in through);
      }
      assert pending[..|pending|] == pending;
    }

    method EndSession()
      requires Valid()
      modifies this
      ensures Valid() && Outgoing() == old(Outgoing()).Close()
    {
      session, wire := false, [];
    }
  }

  /** The panel's record of claimed identifiers: `Claim` is true exactly the first time. */
  class ProcessedEvents {
    var claimed: seq<nat>

    constructor ()
      ensures claimed == []
    {
      claimed := [];
    }

    method Claim(id: nat) returns (first: bool)
      modifies this
      ensures first <==> id !in old(claimed)
      ensures claimed == old(claimed) + (if first then [id] else [])
    {
      first := id !in claimed;
      if first { claimed := claimed + [id]; }
    }
  }

  class AgentSession {
    const processed: ProcessedEvents
    const number: nat
    var scheduled: seq<Handler>
    var pendingAcks: seq<nat>
    var ackTimer: bool
    var closed: bool
    var sent: seq<seq<nat>>    // event.ack requests, in order

    ghost function Queue(): AckQueue
      reads this
    {
      AckQueue(pendingAcks, ackTimer)
    }

    /** The panel as this session sees it. */
    ghost function Value(): Panel
      reads this, processed
    {
      Panel(processed.claimed, [], scheduled, [], Queue())
    }

    ghost predicate Valid()
      reads this
    {
      AckQueueValid(Queue())
    }

    constructor (processed: ProcessedEvents, number: nat)
      ensures Valid() && this.processed == processed && this.number == number
      ensures Queue() == NO_ACKS && scheduled == [] && sent == [] && !closed
    {
      this.processed, this.number := processed, number;
      scheduled, pendingAcks, ackTimer, closed, sent := [], [], false, false, [];
    }

    method FlushPending()
      modifies this
      ensures Valid() && closed == old(closed) && scheduled == old(scheduled)
      ensures Queue() == FlushAcks(old(Queue()), !closed).0
      ensures sent == old(sent) + FlushAcks(old(Queue()), !closed).1
      ensures pendingAcks == [] && !ackTimer
      ensures sent == old(sent) + if old(pendingAcks) == [] || closed then [] else [old(pendingAcks)]
    {
      ackTimer := false;
      var ids := pendingAcks;
      pendingAcks := [];
      if ids != [] && !closed { sent := sent + [ids]; }
    }

    method Acknowledge(id: nat)
      requires Valid() && !closed
      modifies this
      ensures Valid() && !closed && scheduled == old(scheduled)
      ensures Queue() == QueueAck(old(Queue()), id).0
      ensures sent == old(sent) + QueueAck(old(Queue()), id).1
      ensures var batch := old(pendingAcks) + [id];
              if |batch| == ACK_BATCH then sent == old(sent) + [batch] && pendingAcks == [] && !ackTimer
              else sent == old(sent) && pendingAcks == batch && ackTimer
    {
      pendingAcks := pendingAcks + [id];
      if |pendingAcks| >= ACK_BATCH {
        FlushPending();
      } else {
        ackTimer := true;
      }
    }

    /** A critical event arrived: claimed once, acknowledged every time. */
    method Critical(id: nat)
      requires Valid() && !closed
      modifies this, processed
      ensures Valid() && !closed
      ensures Value() == old(Value()).Receive(id, number).0
      ensures sent == old(sent) + old(Value()).Receive(id, number).1
    {
      var first := processed.Claim(id);
      if first {
        scheduled := scheduled + [Handler(id, number)];
      } else {
        Acknowledge(id);
      }
    }
  }
}
