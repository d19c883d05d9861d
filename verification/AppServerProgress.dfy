/**
  What can always still happen: whatever a client does is taken up by the
  processor, whatever is sent can be written to those it is for, and a
  connection whose writer is gone is reported and forgotten.
*/
module AppServerProgress {
  import opened Wrappers
  import opened Subscriptions
  import opened AppServer
  import opened AppServerMaps
  import opened AppServerTrust
  import opened AppServerSafety
  import opened AppServerOrder

  // --- The processor goes on ---------------------------------------------------------------------------------

  /** How many steps the processor is away from its next event. */
  function StepsLeft(p: Processor): nat {
    match p
    case Idle => 0
    case Opening(_) => 2
    case Announced(_) => 1
    case Closing(_) => 3
    case Retracted(_) => 2
    case Forgetting(_) => 1
    case Rejecting(_) => 2
    case Replying(_) => 3
    case ReplySent(_) => 2
    case Serving(_) => 2
    case Copying(_) => 1
    case Attaching(_, todo) => 1 + |todo|
  }

  /** The processor never waits for a connection that is gone. */
  lemma WorksForHeld(t: Server)
    requires Reachable(t) && (t.processor.ReplySent? || t.processor.Copying?)
    ensures CanProceed(t)
  {
    ReachableIsTrusted(t);
  }

  lemma ProceedingAdvances(t: Server)
    requires CanProceed(t)
    ensures DoProceed(t).events == t.events && DoProceed(t).pendingClosed == t.pendingClosed
    ensures StepsLeft(DoProceed(t).processor) < StepsLeft(t.processor)
  {
  }

  lemma AttachingAdvances(t: Server)
    requires t.processor.Attaching? && t.processor.todo != []
    ensures DoAttachNext(t, None).events == t.events && DoAttachNext(t, None).pendingClosed == t.pendingClosed
    ensures StepsLeft(DoAttachNext(t, None).processor) < StepsLeft(t.processor)
  {
  }

  lemma ProcessorCanGoOn(t: Server) returns (a: Action)
    requires Reachable(t) && !t.processor.Idle?
    ensures Can(t, a) && Do(t, a).events == t.events && Do(t, a).pendingClosed == t.pendingClosed
    ensures StepsLeft(Do(t, a).processor) < StepsLeft(t.processor)
  {
    if t.processor.ReplySent? || t.processor.Copying? {
      WorksForHeld(t);
    }
    if t.processor.Attaching? && t.processor.todo != [] {
      a := AttachNext(None);
      AttachingAdvances(t);
    } else {
      a := Proceed;
      ProceedingAdvances(t);
    }
  }

  lemma {:induction false} BecomesIdle(s: Server, t: Server) returns (u: Server)
    requires Reachable(s) && Leads(s, t)
    ensures Leads(s, u) && u.processor.Idle? && u.events == t.events && u.pendingClosed == t.pendingClosed
    decreases StepsLeft(t.processor)
  {
    u := t;
    if !t.processor.Idle? {
      ReachLeads(s, t);
      var a := ProcessorCanGoOn(t);
      LeadsOn(s, t, a);
      u := BecomesIdle(s, Do(t, a));
    }
  }

  lemma TakingKeepsPending(t: Server)
    requires Can(t, TakeEvent)
    ensures Do(t, TakeEvent).events == t.events[1..] && Do(t, TakeEvent).pendingClosed == t.pendingClosed
  {
  }

  /** Every event in the queue can come to its turn. */
  lemma {:induction false} ComesToTurn(s: Server, t: Server, i: nat) returns (u: Server)
    requires Reachable(s) && Leads(s, t) && i <= |t.events|
    ensures Leads(s, u) && u.processor.Idle? && u.events == t.events[i..] && u.pendingClosed == t.pendingClosed
    decreases i
  {
    u := BecomesIdle(s, t);
    if i > 0 {
      LeadsOn(s, u, TakeEvent);
      TakingKeepsPending(u);
      var rest := u.events[1..];
      u := ComesToTurn(s, Do(u, TakeEvent), i - 1);
      assert rest[i - 1..] == t.events[i..];
    }
  }

  /** What a client's step tells the processor, and what the router's reporting of a dead writer does. */
  predicate Tells(s: Server, a: Action, e: Event) {
    match a
    case Announce(c) => e == ConnectionOpened(c)
    case Say(c, incoming) => e == IncomingMessage(c, incoming)
    case Hangup(c) => e == ConnectionClosed(c)
    case Flush => s.pendingClosed != [] && e == ConnectionClosed(s.pendingClosed[0])
    case _ => false
  }

  /** Whatever is told comes to be the next event that the processor takes, behind those told before. */
  lemma ClientsAreHeard(s: Server, a: Action, e: Event) returns (t: Server)
    requires Reachable(s) && Can(s, a) && Tells(s, a, e)
    ensures Leads(s, t) && Can(t, TakeEvent) && t.events == [e]
  {
    LeadsHere(s);
    LeadsOn(s, s, a);
    t := ComesToTurn(s, Do(s, a), |s.events|);
    assert Do(s, a).events == s.events + [e];
  }

  // --- What is sent can be written ------------------------------------------------------------------------------

  /** The message can be written to the connection from now on. */
  ghost predicate CanBeWritten(s: Server, c: ConnectionId, message: Message) {
    exists t :: Leads(s, t) && s.history <= t.history && Wrote(c, message) in t.history[|s.history|..]
  }

  lemma TakesFor(t: Server, c: ConnectionId, order: seq<ConnectionId>)
    requires Can(t, Take(order)) && c in t.outbound && IsFor(t, t.outgoing[0], c) && !Skipped(t, c, t.outgoing[0].message)
    requires t.outgoing[0].Broadcast? ==> forall d :: d in order <==> d in BroadcastTargets(t, t.outgoing[0].message)
    ensures c in DoTake(t, order).router.targets
  {
    if t.outgoing[0].Broadcast? {
      assert c in BroadcastTargets(t, t.outgoing[0].message);
    }
  }

  lemma SomewhereBehind(before: seq<Record>, middle: seq<Record>, written: seq<Record>, r: Record)
    requires before <= middle && r in written
    ensures before <= middle + written && r in (middle + written)[|before|..]
  {
    var i :| 0 <= i < |written| && written[i] == r;
    assert (middle + written)[|before|..][|middle| - |before| + i] == r;
  }

  lemma TakenIsWritten(s: Server, ahead: Server, c: ConnectionId)
    requires Leads(s, ahead) && s.history <= ahead.history && ahead.router.Waiting? && ahead.outgoing != [] && c in ahead.outbound
    requires IsFor(ahead, ahead.outgoing[0], c) && !Skipped(ahead, c, ahead.outgoing[0].message)
    ensures CanBeWritten(s, c, ahead.outgoing[0].message)
  {
    var order := OrderToTake(ahead);
    LeadsOn(s, ahead, Take(order));
    TakesFor(ahead, c, order);
    var t, written := DeliversTo(s, DoTake(ahead, order), c);
    SomewhereBehind(s.history, ahead.history + [Taken], written, Wrote(c, ahead.outgoing[0].message));
  }

  /** An envelope in the queue can be written to a connection in the router's map that it is for and that does not opt out. */
  lemma QueuedCanBeWritten(s: Server, k: nat, c: ConnectionId)
    requires k < |s.outgoing| && c in Routed(s) && IsFor(s, s.outgoing[k], c) && !Skipped(s, c, s.outgoing[k].message)
    ensures CanBeWritten(s, c, s.outgoing[k].message)
  {
    LeadsHere(s);
    var finished := FinishesRoute(s, s);
    assert Routed(finished) == Routed(s);
    var ready := AppliesControl(s, finished);
    var ahead := RoutesAhead(s, ready, k);
    assert ahead.outgoing == s.outgoing[k..];
    TakenIsWritten(s, ahead, c);
  }

  lemma StillBehind(before: seq<Record>, middle: seq<Record>, after: seq<Record>, r: Record)
    requires before <= middle <= after && r in after[|middle|..]
    ensures r in after[|before|..]
  {
    var i :| 0 <= i < |after| - |middle| && after[|middle|..][i] == r;
    assert after[|before|..][|middle| - |before| + i] == r;
  }

  lemma WrittenLater(s: Server, t: Server, c: ConnectionId, message: Message)
    requires Leads(s, t) && s.history <= t.history && CanBeWritten(t, c, message)
    ensures CanBeWritten(s, c, message)
  {
    var u :| Leads(t, u) && t.history <= u.history && Wrote(c, message) in u.history[|t.history|..];
    LeadsThrough(s, t, u);
    StillBehind(s.history, t.history, u.history, Wrote(c, message));
  }

  lemma {:induction false} LeadsAlong(s: Server, t: Server, actions: seq<Action>)
    requires Leads(s, t) && CanRunFrom(t, actions)
    ensures Leads(s, AfterFrom(t, actions))
    decreases |actions|
  {
    if actions != [] {
      var before := actions[..|actions| - 1];
      LeadsAlong(s, t, before);
      LeadsOn(s, AfterFrom(t, before), actions[|actions| - 1]);
    }
  }

  lemma LeadsThrough(s: Server, t: Server, u: Server)
    requires Leads(s, t) && Leads(t, u)
    ensures Leads(s, u)
  {
    var actions :| CanRunFrom(t, actions) && AfterFrom(t, actions) == u;
    LeadsAlong(s, t, actions);
  }

  /** A response or an error for a connection in the router's map can be written to it. */
  lemma RepliesArrive(s: Server, c: ConnectionId, message: Message)
    requires IsReply(message) && c in Routed(s)
    ensures CanBeWritten(s, c, message)
  {
    var t := Do(s, Reply(c, message));
    LeadsHere(s);
    LeadsOn(s, s, Reply(c, message));
    assert t.outgoing[|s.outgoing|] == ToConnection(c, message);
    QueuedCanBeWritten(t, |s.outgoing|, c);
    WrittenLater(s, t, c, message);
  }

  /** A broadcast can be written to each initialized connection in the map that does not opt out of it. */
  lemma BroadcastsArrive(s: Server, c: ConnectionId, message: Message)
    requires Can(s, BroadcastAll(message)) && c in Routed(s) && c in s.cells && s.cells[c].initialized
    requires message.Notification? ==> message.name !in s.cells[c].optOut
    ensures CanBeWritten(s, c, message)
  {
    var t := Do(s, BroadcastAll(message));
    LeadsHere(s);
    LeadsOn(s, s, BroadcastAll(message));
    assert t.outgoing[|s.outgoing|] == Broadcast(message);
    QueuedCanBeWritten(t, |s.outgoing|, c);
    WrittenLater(s, t, c, message);
  }

  // --- Messages for subscribers ------------------------------------------------------------------------------------

  /** Nothing but the envelopes of sending tasks has moved. */
  ghost predicate OnlySent(t: Server, u: Server) {
    u == t.(outgoing := u.outgoing, sending := u.sending, senders := u.senders)
  }

  /** The task's envelopes go into the outgoing queue one after the other. */
  lemma {:induction false} Drains(s: Server, t: Server, k: nat) returns (u: Server)
    requires Leads(s, t) && k < |t.sending|
    ensures Leads(s, u) && u.outgoing == t.outgoing + t.sending[k] && OnlySent(t, u)
    decreases |t.sending[k]|
  {
    u := t;
    if t.sending[k] == [] {
      assert t.outgoing + [] == t.outgoing;
    } else {
      LeadsOn(s, t, Enqueue(k));
      u := Drains(s, Do(t, Enqueue(k)), k);
      assert t.outgoing + t.sending[k] == t.outgoing + [t.sending[k][0]] + t.sending[k][1..];
    }
  }

  /**
    A message for the subscribers of a thread, live or removed with a listener
    still there, can be queued for exactly those, in order, and for nobody if
    there are none.
  */
  lemma SubscribersAreSentTo(s: Server, th: ThreadId, state: Thread, ids: seq<ConnectionId>, message: Message) returns (t: Server)
    requires Can(s, Snapshot(th, state, ids)) && !IsReply(message) && message.scope == Some(th)
    ensures Leads(s, t) && OnlySent(s, t) && |t.outgoing| == |s.outgoing| + |ids| && s.outgoing <= t.outgoing
    ensures forall i | 0 <= i < |ids| :: t.outgoing[|s.outgoing| + i] == ToConnection(ids[i], message)
  {
    var sending := StartsSending(s, th, state, ids, message);
    t := Drains(s, sending, |s.sending|);
  }

  lemma StartsSending(s: Server, th: ThreadId, state: Thread, ids: seq<ConnectionId>, message: Message) returns (t: Server)
    requires Can(s, Snapshot(th, state, ids)) && !IsReply(message) && message.scope == Some(th)
    ensures Leads(s, t) && OnlySent(s, t) && t.outgoing == s.outgoing && |t.sending| == |s.sending| + 1
    ensures var last := t.sending[|s.sending|];
      |last| == |ids| && forall i | 0 <= i < |ids| :: last[i] == ToConnection(ids[i], message)
  {
    LeadsHere(s);
    LeadsOn(s, s, Snapshot(th, state, ids));
    var seen := Do(s, Snapshot(th, state, ids));
    LeadsOn(s, seen, SendScoped(Sender(th, ids), message));
    t := Do(seen, SendScoped(Sender(th, ids), message));
  }

  /** A subscriber of a thread can be written every message for the thread's subscribers that it does not opt out of. */
  lemma SubscribersAreReached(s: Server, th: ThreadId, c: ConnectionId, message: Message)
    requires s.manager.Subscribed(th, c) && c in Routed(s)
    requires !IsReply(message) && message.scope == Some(th) && !Skipped(s, c, message)
    ensures CanBeWritten(s, c, message)
  {
    var ids := Enumeration(s.manager.threads[th].subscribed);
    var t := SubscribersAreSentTo(s, th, s.manager.threads[th], ids, message);
    assert c in ids;
    var i :| 0 <= i < |ids| && ids[i] == c;
    assert t.outgoing[|s.outgoing| + i] == ToConnection(c, message);
    QueuedCanBeWritten(t, |s.outgoing| + i, c);
    WrittenLater(s, t, c, message);
  }

  /** A listener task goes on sending to the subscribers of a thread that is removed. */
  lemma RemovedThreadIsStillHeard(s: Server, th: ThreadId, ids: seq<ConnectionId>, message: Message) returns (t: Server)
    requires Can(s, Serve(DropThread(th))) && th in s.manager.threads && Enumerates(ids, s.manager.threads[th].subscribed)
    requires !IsReply(message) && message.scope == Some(th)
    ensures th !in Do(s, Serve(DropThread(th))).manager.threads
    ensures Leads(Do(s, Serve(DropThread(th))), t)
    ensures |t.outgoing| == |s.outgoing| + |ids| && forall i | 0 <= i < |ids| :: t.outgoing[|s.outgoing| + i] == ToConnection(ids[i], message)
  {
    t := SubscribersAreSentTo(Do(s, Serve(DropThread(th))), th, s.manager.threads[th], ids, message);
  }

  // --- Connections whose writer is gone -----------------------------------------------------------------------------

  /** The router finishes its route and puts those it dropped on the list of pending closes. */
  lemma {:induction false} Reports(s: Server, t: Server, c: ConnectionId) returns (u: Server)
    requires Leads(s, t) && t.router.Routing? && c in t.router.disconnected
    ensures Leads(s, u) && u.router.Waiting? && c in u.pendingClosed
    decreases |t.router.targets|
  {
    if t.router.targets == [] {
      LeadsOn(s, t, FinishRoute);
      u := Do(t, FinishRoute);
    } else {
      LeadsOn(s, t, Deliver(true));
      u := Reports(s, DoDeliver(t, true), c);
    }
  }

  /** The router finishes what it may have begun meanwhile. */
  lemma {:induction false} RouterRests(s: Server, t: Server) returns (u: Server)
    requires Leads(s, t)
    ensures Leads(s, u) && u.router.Waiting? && u.events == t.events && t.pendingClosed <= u.pendingClosed
    decreases if t.router.Routing? then 1 + |t.router.targets| else 0
  {
    u := t;
    if t.router.Routing? {
      var a := if t.router.targets == [] then FinishRoute else Deliver(true);
      LeadsOn(s, t, a);
      u := RouterRests(s, Do(t, a));
    }
  }

  /** The first pending close can be told to the processor, when it has taken all events before. */
  lemma FlushesOne(s: Server, t: Server) returns (u: Server)
    requires Reachable(s) && Leads(s, t) && t.pendingClosed != []
    ensures Leads(s, u) && u.router.Waiting? && u.events == [ConnectionClosed(t.pendingClosed[0])]
    ensures t.pendingClosed[1..] <= u.pendingClosed
  {
    var free := ComesToTurn(s, t, |t.events|);
    var routed := RouterRests(s, free);
    LeadsOn(s, routed, Flush);
    u := Do(routed, Flush);
  }

  /** Each pending close can be told to the processor. */
  lemma {:induction false} FlushesTo(s: Server, t: Server, i: nat) returns (u: Server)
    requires Reachable(s) && Leads(s, t) && i < |t.pendingClosed|
    ensures Leads(s, u) && Can(u, TakeEvent) && u.events == [ConnectionClosed(t.pendingClosed[i])]
    decreases i
  {
    var flushed := FlushesOne(s, t);
    if i == 0 {
      u := BecomesIdle(s, flushed);
    } else {
      assert flushed.pendingClosed[i - 1] == t.pendingClosed[1..][i - 1];
      u := FlushesTo(s, flushed, i - 1);
    }
  }

  /** A connection whose writer turns out to be gone is dropped from the map, and its close can be told to the processor. */
  lemma DeadWriterIsReported(s: Server, c: ConnectionId) returns (t: Server)
    requires Reachable(s) && s.router.Routing? && s.router.targets != [] && s.router.targets[0] == c && c in s.outbound
    ensures c !in Do(s, Deliver(false)).outbound
    ensures Leads(Do(s, Deliver(false)), t) && Can(t, TakeEvent) && t.events == [ConnectionClosed(c)]
  {
    var s' := Do(s, Deliver(false));
    ReachStep(s, Deliver(false));
    LeadsHere(s');
    var u := Reports(s', s', c);
    var i :| 0 <= i < |u.pendingClosed| && u.pendingClosed[i] == c;
    t := FlushesTo(s', u, i);
  }
}
