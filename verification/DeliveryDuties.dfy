/**
 * What agent, link and panel must do: handlers end once, and no outcome, write or link gets stuck.
 */
module DeliveryDuties {
  import opened Options
  import StateStore
  import opened Delivery
  import opened DeliverySafety
  import opened DeliveryAcks

  // ----- Handlers -----

  /** The handlers that ended since the panel started. */
  ghost function Finished(run: seq<System>, actions: seq<Action>, n: nat): multiset<Handler>
    requires IsRun(run, actions) && n < |run|
  {
    if n == 0 || actions[n - 1].PanelCrashes? then multiset{}
    else
      Finished(run, actions, n - 1)
      + if actions[n - 1].HandlerEnds? then multiset{run[n - 1].panel.running[actions[n - 1].index]} else multiset{}
  }

  /** The first deliveries since the panel started: the identifier, and the session that brought it. */
  ghost function Accepted(run: seq<System>, actions: seq<Action>, n: nat): multiset<Handler>
    requires IsRun(run, actions) && n < |run|
  {
    if n == 0 || actions[n - 1].PanelCrashes? then multiset{}
    else
      Accepted(run, actions, n - 1)
      + if actions[n - 1].Delivers? && run[n - 1].link.wire[0] !in run[n - 1].panel.claimed
        then multiset{Handler(run[n - 1].link.wire[0], run[n - 1].link.session)} else multiset{}
  }

  function InHand(p: Panel): multiset<Handler> {
    multiset(p.waiting) + multiset(p.running)
  }

  lemma EndTakesOne(running: seq<Handler>, i: nat)
    requires i < |running|
    ensures multiset(running[..i] + running[i + 1..]) + multiset{running[i]} == multiset(running)
  {
    assert running == running[..i] + [running[i]] + running[i + 1..];
  }

  lemma StartMovesOne(p: Panel)
    requires p.waiting != []
    ensures InHand(p.StartHandler()) == InHand(p)
  {
    assert p.waiting == [p.waiting[0]] + p.waiting[1..];
  }

  lemma DeliverAddsOne(p: Panel, id: nat, session: nat)
    ensures InHand(p.Receive(id, session).0)
            == InHand(p) + if id in p.claimed then multiset{} else multiset{Handler(id, session)}
  {
    hide QueueAck;
  }

  lemma EndRemovesOne(p: Panel, i: nat, session: nat, open: bool)
    requires i < |p.running|
    ensures InHand(p.EndHandler(i, session, open).0) + multiset{p.running[i]} == InHand(p)
  {
    hide QueueAck;
    EndTakesOne(p.running, i);
  }

  lemma StepKeepsInHand(s: System, a: Action)
    requires Enabled(s, a)
    ensures var t := Next(s, a);
            && (a.PanelCrashes? ==> InHand(t.panel) == multiset{})
            && (a.Delivers? ==>
                  InHand(t.panel)
                  == InHand(s.panel) + if s.link.wire[0] in s.panel.claimed then multiset{}
                                       else multiset{Handler(s.link.wire[0], s.link.session)})
            && (a.HandlerEnds? ==> InHand(t.panel) + multiset{s.panel.running[a.index]} == InHand(s.panel))
            && (!a.PanelCrashes? && !a.Delivers? && !a.HandlerEnds? ==> InHand(t.panel) == InHand(s.panel))
  {
    hide InHand;
    if a.HandlerStarts? {
      StartMovesOne(s.panel);
    } else if a.Delivers? {
      DeliverAddsOne(s.panel, s.link.wire[0], s.link.session);
    } else if a.HandlerEnds? {
      EndRemovesOne(s.panel, a.index, s.link.session, s.link.open);
    } else {
      SamePanel(s, a);
    }
  }

  lemma SamePanel(s: System, a: Action)
    requires Enabled(s, a) && !a.HandlerStarts? && !a.Delivers? && !a.HandlerEnds?
    ensures InHand(Next(s, a).panel) == if a.PanelCrashes? then multiset{} else InHand(s.panel)
  {
    hide QueueAck, FlushAcks, Capped, Without, Replayed, Ids, Members;
  }

  /**
   * Every event accepted since the panel started is handled exactly once: its handler waits, runs or has
   * ended, and remembers the session that brought it.
   */
  lemma {:induction false} HandlersAreConserved(run: seq<System>, actions: seq<Action>, n: nat)
    requires IsRun(run, actions) && n < |run|
    ensures Accepted(run, actions, n) == InHand(run[n].panel) + Finished(run, actions, n)
    decreases n
  {
    if n > 0 {
      HandlersAreConserved(run, actions, n - 1);
      RunStep(run, actions, n);
      hide Next, Enabled, CoreInv, InHand;
      StepKeepsInHand(run[n - 1], actions[n - 1]);
    }
  }

  // ----- What a step must do -----

  /** The link is marked as having failed exactly when a frame was refused. */
  ghost predicate SendFailed(run: seq<System>, actions: seq<Action>, n: nat)
    requires |run| == |actions| + 1 && n < |run|
  {
    exists k :: 0 <= k < n && Refuses(run[k], actions[k])
  }

  predicate Refuses(s: System, a: Action) {
    match a
    case Emits(fails) => s.link.open && fails
    case Reports(_, fails) => s.link.open && fails
    case Connects(through) => exists e <- s.agent.store.mem.value.pending :: e.id !in through
    case _ => false
  }

  lemma StepFails(s: System, a: Action)
    requires Enabled(s, a)
    ensures Next(s, a).link.failed <==> s.link.failed || Refuses(s, a)
  {
    if a.Connects? {
      var events := s.agent.store.mem.value.pending;
      forall e <- events ensures e.id in Ids(events) {}
      if !(Ids(events) <= a.through) {
        var id :| id in Ids(events) && id !in a.through;
        var e :| e in events && e.id == id;
      }
    }
    hide QueueAck, FlushAcks, Capped, Without, Replayed, Ids;
  }

  lemma SendFailedStep(run: seq<System>, actions: seq<Action>, n: nat)
    requires |run| == |actions| + 1 && 0 < n < |run|
    ensures SendFailed(run, actions, n) <==> SendFailed(run, actions, n - 1) || Refuses(run[n - 1], actions[n - 1])
  {
    hide Refuses;
  }

  lemma {:induction false} FailedExactly(run: seq<System>, actions: seq<Action>, n: nat)
    requires IsRun(run, actions) && n < |run|
    ensures run[n].link.failed <==> SendFailed(run, actions, n)
    decreases n
  {
    hide Next, Enabled, Refuses;
    if n > 0 {
      FailedExactly(run, actions, n - 1);
      StepFails(run[n - 1], actions[n - 1]);
      hide SendFailed;
      SendFailedStep(run, actions, n);
    }
  }

  /** A crash of either process loses what was only in its memory, and the session with it. */
  lemma CrashesForget(s: System)
    ensures Enabled(s, AgentCrashes) && Enabled(s, PanelCrashes) && Enabled(s, Disconnects)
    ensures var t := Next(s, AgentCrashes);
            && t.agent.store.mem == t.agent.store.file == s.agent.store.file && t.agent.awaiting == map[]
            && t.launcher.consumers == map[]
            && t.launcher.file == s.launcher.file && t.launcher.claim == s.launcher.claim && t.panel == s.panel
    ensures var t := Next(s, PanelCrashes);
            && t.panel.claimed == s.panel.claimed
            && t.panel.waiting == [] && t.panel.running == [] && t.panel.queue.pending == []
            && t.agent == s.agent && t.launcher == s.launcher
    ensures forall a :: a in {AgentCrashes, PanelCrashes, Disconnects} ==>
              !Next(s, a).link.open && Next(s, a).link.wire == [] && Next(s, a).link.acks == []
    ensures Next(s, Disconnects).panel == s.panel && Next(s, Disconnects).agent == s.agent
  {
    forall a | a in {AgentCrashes, PanelCrashes, Disconnects}
      ensures !Next(s, a).link.open && Next(s, a).link.wire == [] && Next(s, a).link.acks == []
    {
    }
  }

  /** A write that somebody waits for can always be moved on: it starts when none is under way, then it ends. */
  lemma WritesMoveOn(s: System)
    requires CoreInv(s) && s.agent.store.finished < s.agent.store.enqueued
    ensures Enabled(s, WriteStarts) || Enabled(s, WriteEnds)
    ensures Enabled(s, WriteStarts) ==>
              var t := Next(s, WriteStarts).agent.store;
              t.snapshot == t.mem == s.agent.store.mem && t.started == s.agent.store.started + 1
              && t.file == s.agent.store.file
    ensures Enabled(s, WriteEnds) ==>
              var t := Next(s, WriteEnds).agent.store;
              t.file == t.snapshot == s.agent.store.snapshot && t.finished == s.agent.store.finished + 1
              && t.mem == s.agent.store.mem
  {
    hide PanelInv, LinkInv;
  }

  /** An emission whose write has ended returns, and is durable from then on. */
  lemma FlushReturnsOnce(s: System, id: nat)
    requires CoreInv(s) && id in s.agent.awaiting && s.agent.awaiting[id] <= s.agent.store.finished
    ensures Enabled(s, FlushReturns(id)) && id in Next(s, FlushReturns(id)).agent.durable
  {
  }

  /**
   * No stage of the launcher's outcome is a dead end: an outcome that is there is claimed, what is claimed
   * is read, a valid outcome is emitted, and the claim is released once the emission is on disk; an
   * unreadable one is released at once.
   */
  lemma OutcomeMovesOn(s: System, c: nat, fails: bool)
    ensures c !in s.launcher.consumers ==>
              Enabled(s, Claims(c))
              && var t := Next(s, Claims(c)).launcher;
                 if s.launcher.file.Some? then
                   t.file.None? && t.claim == s.launcher.file && c in t.consumers && t.consumers[c].Opened?
                 else
                   t.file.None? && t.claim == s.launcher.claim
                   && (s.launcher.claim.Some? ==> c in t.consumers && t.consumers[c].Opened?)
                   && (s.launcher.claim.None? ==> t.consumers == s.launcher.consumers)
    ensures c in s.launcher.consumers && s.launcher.consumers[c].Opened? ==>
              Enabled(s, Reads(c))
              && var t := Next(s, Reads(c)).launcher;
                 t.claim == s.launcher.claim
                 && match s.launcher.claim
                    case None => c !in t.consumers
                    case Some(r) => c in t.consumers && t.consumers[c] == if r.valid then Holding(r) else Discarding(r)
    ensures c in s.launcher.consumers && s.launcher.consumers[c].Holding? ==>
              Enabled(s, Reports(c, fails))
              && var t := Next(s, Reports(c, fails));
                 var k := s.launcher.consumers[c];
                 && c in t.launcher.consumers && s.agent.next in t.agent.awaiting
                 && t.launcher.consumers[c] == Waiting(k.report, s.agent.next, t.agent.awaiting[s.agent.next])
                 && t.agent.awaiting[s.agent.next] <= t.agent.store.enqueued
                 && s.agent.next in t.agent.carried && t.agent.carried[s.agent.next] == k.report
    ensures c in s.launcher.consumers
            && (s.launcher.consumers[c].Discarding?
                || (s.launcher.consumers[c].Waiting? && s.launcher.consumers[c].ticket <= s.agent.store.finished)) ==>
              Enabled(s, Releases(c))
              && var t := Next(s, Releases(c)).launcher; t.claim.None? && c !in t.consumers && t.file == s.launcher.file
  {
    hide Capped;
  }

  /** The launcher may leave a new outcome whenever the last one is released and unclaimed. */
  lemma LauncherMayWrite(s: System, r: Report)
    requires s.launcher.file.None? && s.launcher.claim.None? && s.launcher.consumers == map[]
    ensures Enabled(s, LauncherWrites(r))
    ensures var t := Next(s, LauncherWrites(r)).launcher; t.file == Some(r) && r in t.written
  {
  }

  /** A closed link can be opened: the journal is replayed as far as the peer accepts it, in a new session. */
  lemma SessionsOpen(s: System, through: set<nat>)
    requires CoreInv(s) && !s.link.open
    ensures Enabled(s, Connects(through))
    ensures var t := Next(s, Connects(through));
            && t.link.open && t.link.session > s.link.session && t.link.acks == [] && t.panel.queue.pending == []
            && Members(t.link.wire) == MemIds(s.agent) * through && Increasing(t.link.wire)
            && t.agent == s.agent
  {
    ReplayedInOrder(s.agent.store.mem.value.pending, through);
    hide PanelInv, LinkInv, Replayed;
  }

  /** What is waiting is taken in order: frames are delivered, handlers started, and any running one may end. */
  lemma PanelMovesOn(s: System)
    ensures s.link.wire != [] ==> Enabled(s, Delivers) && Next(s, Delivers).link.wire == s.link.wire[1..]
    ensures s.panel.waiting != [] ==>
              Enabled(s, HandlerStarts)
              && var p := Next(s, HandlerStarts).panel;
                 && p.waiting == s.panel.waiting[1..] && p.running == s.panel.running + [s.panel.waiting[0]]
                 && p.started == s.panel.started + [s.panel.waiting[0].id]
    ensures forall i: nat :: i < |s.panel.running| ==> Enabled(s, HandlerEnds(i))
  {
    hide QueueAck;
  }

  /** An event may be emitted at any time, and goes out on an open session unless its peer refuses it. */
  lemma EmissionGoesOut(s: System, fails: bool)
    ensures Enabled(s, Emits(fails))
    ensures Next(s, Emits(fails)).link.wire == s.link.wire + if s.link.open && !fails then [s.agent.next] else []
    ensures Next(s, Emits(fails)).agent.next == s.agent.next + 1
  {
    hide Capped;
  }
}
