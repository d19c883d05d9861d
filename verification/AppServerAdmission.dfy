/**
  What the processor does with each event it takes off its queue, whatever the
  other tasks do between its steps: whose requests are admitted, how an
  `initialize` is answered, how connections come and go, and who is attached
  to a new thread.
*/
module AppServerAdmission {
  import opened Wrappers
  import opened Subscriptions
  import opened AppServer
  import opened AppServerTrust
  import opened AppServerSafety
  import opened AppServerOrder

  // --- Between two steps of the processor ----------------------------------------------------------------------

  predicate IsProcessors(a: Action) {
    a.TakeEvent? || a.Proceed? || a.Serve? || a.ThreadCreated? || a.AttachNext?
  }

  ghost predicate ByOthers(s: Server, actions: seq<Action>) {
    CanRunFrom(s, actions) && forall a | a in actions :: !IsProcessors(a)
  }

  /** The other tasks may have done anything since. */
  ghost predicate Meanwhile(s: Server, t: Server) {
    exists actions :: ByOthers(s, actions) && AfterFrom(s, actions) == t
  }

  /** What only the processor changes is as it was. */
  ghost predicate SameProcessor(s: Server, t: Server) {
    && t.processor == s.processor && t.connections == s.connections && t.manager == s.manager
    && t.introduced == s.introduced && t.cells == s.cells && t.detached == s.detached
    && forall r: Record | r.Accepted? || r.Opted? || r.Joined? :: r in t.history <==> r in s.history
  }

  lemma RouterStep(t: Server, a: Action)
    requires Can(t, a) && !IsProcessors(a) && !IsTransport(a) && !IsTask(a) && !a.Announce?
    ensures SameProcessor(t, Do(t, a))
  {
  }

  lemma OthersStep(t: Server, a: Action)
    requires Can(t, a) && !IsProcessors(a)
    ensures SameProcessor(t, Do(t, a))
  {
    if IsTransport(a) || IsTask(a) || a.Announce? {
      assert Do(t, a).history == t.history;
    } else {
      RouterStep(t, a);
    }
  }

  lemma {:induction false} OthersRun(s: Server, actions: seq<Action>)
    requires ByOthers(s, actions)
    ensures SameProcessor(s, AfterFrom(s, actions))
  {
    if actions != [] {
      var before, last := actions[..|actions| - 1], actions[|actions| - 1];
      OthersRun(s, before);
      OthersStep(AfterFrom(s, before), last);
    }
  }

  lemma MeanwhileIsReachable(s: Server, t: Server)
    requires Meanwhile(s, t)
    ensures SameProcessor(s, t)
    ensures Reachable(s) ==> Reachable(t)
  {
    var actions :| ByOthers(s, actions) && AfterFrom(s, actions) == t;
    OthersRun(s, actions);
    if Reachable(s) {
      ReachFrom(s, actions);
    }
  }

  // --- Requests -----------------------------------------------------------------------------------------------------

  /** The processor is about to take this message off its queue. */
  ghost predicate NextIs(s: Server, e: Event) {
    Reachable(s) && s.processor.Idle? && s.events != [] && s.events[0] == e
  }

  /** A handler may work for the connection, and for no other. */
  ghost predicate Serves(t: Server, c: ConnectionId) {
    && (forall th, raw, conversation :: Can(t, Serve(Attach(th, c, raw, conversation))))
    && (forall id, th, raw, conversation :: Can(t, Serve(AddListener(id, th, c, raw, conversation))))
    && (forall id :: Can(t, Serve(DropListener(id))))
    && (forall th :: Can(t, Serve(DropThread(th))))
    && (forall th, d, raw, conversation :: Can(t, Serve(Attach(th, d, raw, conversation))) ==> d == c)
    && (forall id, th, d, raw, conversation :: Can(t, Serve(AddListener(id, th, d, raw, conversation))) ==> d == c)
  }

  /** The processor's next step sends this, and nothing else, to the connection. */
  ghost predicate Sends(t: Server, c: ConnectionId, messages: seq<Message>) {
    && Can(t, Proceed)
    && Do(t, Proceed).outgoing == t.outgoing + seq(|messages|, i requires 0 <= i < |messages| => ToConnection(c, messages[i]))
    && (forall r | r in Do(t, Proceed).history :: r in t.history)
  }

  /**
    The event is gone, and what the processor does next is to send the
    connection this, while no handler runs; acceptances are what they were.
  */
  ghost predicate AnswersWith(s: Server, t: Server, c: ConnectionId, message: Message) {
    Sends(t, c, [message]) && (forall op :: !Can(t, Serve(op))) && SameAcceptances(s, t)
  }

  ghost predicate SameAcceptances(s: Server, t: Server) {
    forall c :: Accepted(c) in t.history <==> Accepted(c) in s.history
  }

  lemma Answering(s: Server, t: Server, c: ConnectionId)
    requires (t.processor == Rejecting(c) || t.processor == Replying(c)) && SameAcceptances(s, t)
    ensures AnswersWith(s, t, c, if t.processor == Rejecting(c) then Error else Response)
  {
  }

  lemma ServingServes(t: Server, c: ConnectionId)
    requires t.processor == Serving(c)
    ensures Serves(t, c) && Sends(t, c, [])
  {
  }

  /** The processor's next step copies the wish for the router, and the processor is free again. */
  ghost predicate Copies(t: Server, c: ConnectionId, wish: set<Method>) {
    && Can(t, Proceed) && c in Do(t, Proceed).connections && c in Do(t, Proceed).cells
    && Do(t, Proceed).history == t.history + [Opted(c, wish)] && Do(t, Proceed).outgoing == t.outgoing
    && Do(t, Proceed).cells[c].optOut == wish && Do(t, Proceed).connections[c].optOut == wish
    && Do(t, Proceed).processor.Idle?
  }

  lemma WishCopied(t: Server, c: ConnectionId, wish: set<Method>)
    requires t.processor == Copying(c) && c in t.connections && c in t.cells && t.connections[c].optOut == wish
    ensures Copies(t, c, wish)
  {
  }

  /** The processor knows who was accepted. */
  lemma SessionsTell(s: Server, c: ConnectionId)
    requires Reachable(s) && c in s.connections
    ensures s.connections[c].initialized <==> Accepted(c) in s.history
    ensures c in s.cells
  {
    ReachableIsTrusted(s);
  }

  /**
    A request reaches a handler exactly if an `initialize` of its connection
    was accepted before, and, if it is experimental, asked for the experimental
    ones; if not, the client is sent an error. Either way the wish known of the
    connection is copied afterwards.
  */
  lemma RequestIsAdmittedIff(s: Server, c: ConnectionId, experimental: bool, t: Server, u: Server)
    requires NextIs(s, IncomingMessage(c, OtherRequest(experimental))) && c in s.connections
    requires Meanwhile(Do(s, TakeEvent), t)
    ensures if Accepted(c) in s.history && (experimental ==> s.connections[c].experimentalApi)
      then Serves(t, c) && Sends(t, c, []) else AnswersWith(s, t, c, Error)
    ensures (exists op :: Can(t, Serve(op))) <==> Accepted(c) in s.history && (experimental ==> s.connections[c].experimentalApi)
    ensures Meanwhile(Do(t, Proceed), u) ==> Copies(u, c, s.connections[c].optOut)
  {
    SessionsTell(s, c);
    MeanwhileIsReachable(Do(s, TakeEvent), t);
    if t.processor.Serving? {
      ServingServes(t, c);
      assert Can(t, Serve(DropThread(0)));
    } else {
      Answering(s, t, c);
    }
    if Meanwhile(Do(t, Proceed), u) {
      MeanwhileIsReachable(Do(t, Proceed), u);
      WishCopied(u, c, s.connections[c].optOut);
    }
  }

  /** A request that cannot be read is answered with an error, whoever sends it. */
  lemma MalformedIsRejected(s: Server, c: ConnectionId, t: Server, u: Server)
    requires NextIs(s, IncomingMessage(c, Malformed)) && c in s.connections
    requires Meanwhile(Do(s, TakeEvent), t)
    ensures AnswersWith(s, t, c, Error)
    ensures Meanwhile(Do(t, Proceed), u) ==> Copies(u, c, s.connections[c].optOut)
  {
    SessionsTell(s, c);
    MeanwhileIsReachable(Do(s, TakeEvent), t);
    Answering(s, t, c);
    if Meanwhile(Do(t, Proceed), u) {
      MeanwhileIsReachable(Do(t, Proceed), u);
      WishCopied(u, c, s.connections[c].optOut);
    }
  }

  /** Notifications and responses of a client, and messages of connections no longer held, ask for nothing. */
  lemma NothingToAnswer(s: Server, c: ConnectionId, incoming: Incoming)
    requires NextIs(s, IncomingMessage(c, incoming)) && (incoming.NoRequest? || c !in s.connections)
    ensures Do(s, TakeEvent) == s.(events := s.events[1..])
  {
  }

  // --- Initialize ------------------------------------------------------------------------------------------------------

  /** The processor's next step accepts the connection, for itself and for the router. */
  ghost predicate Accepts(t: Server, c: ConnectionId) {
    && Can(t, Proceed) && c in Do(t, Proceed).connections && c in Do(t, Proceed).cells
    && Do(t, Proceed).history == t.history + [Accepted(c)] && Do(t, Proceed).outgoing == t.outgoing
    && Do(t, Proceed).connections[c].initialized && Do(t, Proceed).cells[c].initialized
  }

  lemma ReplyAccepts(t: Server, c: ConnectionId, wish: set<Method>)
    requires t.processor == ReplySent(c) && c in t.connections && c in t.cells && t.connections[c].optOut == wish
    ensures Accepts(t, c)
    ensures Do(t, Proceed).processor == Copying(c) && Do(t, Proceed).connections[c].optOut == wish
  {
  }

  lemma TakesInitialize(s: Server, c: ConnectionId, validName: bool, experimentalApi: bool, optOut: set<Method>, t: Server)
    requires NextIs(s, IncomingMessage(c, Initialize(validName, experimentalApi, optOut))) && c in s.connections
    requires Meanwhile(Do(s, TakeEvent), t)
    ensures SameAcceptances(s, t) && c in t.cells && c in t.connections
    ensures t.processor == if validName && Accepted(c) !in s.history then Replying(c) else Rejecting(c)
    ensures t.connections[c] == if Accepted(c) in s.history then s.connections[c] else Session(false, experimentalApi, optOut)
  {
    SessionsTell(s, c);
    MeanwhileIsReachable(Do(s, TakeEvent), t);
  }

  /**
    The first well-formed `initialize` of a connection is answered with a
    response, then the connection is accepted, and then its wish is copied.
  */
  lemma FirstInitialize(s: Server, c: ConnectionId, experimentalApi: bool, optOut: set<Method>, t: Server, u: Server, v: Server)
    requires NextIs(s, IncomingMessage(c, Initialize(true, experimentalApi, optOut))) && c in s.connections && Accepted(c) !in s.history
    requires Meanwhile(Do(s, TakeEvent), t)
    ensures AnswersWith(s, t, c, Response)
    ensures Meanwhile(Do(t, Proceed), u) ==> SameAcceptances(s, u) && Accepts(u, c)
    ensures Meanwhile(Do(t, Proceed), u) && Meanwhile(Do(u, Proceed), v) ==>
      Copies(v, c, optOut) && Do(v, Proceed).connections[c].experimentalApi == experimentalApi
  {
    TakesInitialize(s, c, true, experimentalApi, optOut, t);
    Answering(s, t, c);
    if Meanwhile(Do(t, Proceed), u) {
      MeanwhileIsReachable(Do(t, Proceed), u);
      ReplyAccepts(u, c, optOut);
      if Meanwhile(Do(u, Proceed), v) {
        MeanwhileIsReachable(Do(u, Proceed), v);
        WishCopied(v, c, optOut);
      }
    }
  }

  /**
    Any other `initialize` is answered with an error and accepts nobody. One
    with a bad name is still heard about its wish, as long as the connection
    was not accepted.
  */
  lemma OtherInitialize(s: Server, c: ConnectionId, validName: bool, experimentalApi: bool, optOut: set<Method>, t: Server, u: Server)
    requires NextIs(s, IncomingMessage(c, Initialize(validName, experimentalApi, optOut))) && c in s.connections
    requires !validName || Accepted(c) in s.history
    requires Meanwhile(Do(s, TakeEvent), t)
    ensures AnswersWith(s, t, c, Error)
    ensures Meanwhile(Do(t, Proceed), u) ==>
      SameAcceptances(s, u) && Copies(u, c, if Accepted(c) in s.history then s.connections[c].optOut else optOut)
  {
    TakesInitialize(s, c, validName, experimentalApi, optOut, t);
    Answering(s, t, c);
    if Meanwhile(Do(t, Proceed), u) {
      MeanwhileIsReachable(Do(t, Proceed), u);
      WishCopied(u, c, if Accepted(c) in s.history then s.connections[c].optOut else optOut);
    }
  }

  /** An announced connection was never accepted. */
  lemma AnnouncedIsNew(s: Server)
    requires Reachable(s) && s.processor.Announced?
    ensures Accepted(s.processor.connection) !in s.history
  {
    ReachableIsTrusted(s);
  }

  lemma ProceedKeepsCapability(s: Server, c: ConnectionId)
    requires CanProceed(s) && s.processor != Announced(c) && c in s.connections && c in DoProceed(s).connections
    ensures DoProceed(s).connections[c].experimentalApi == s.connections[c].experimentalApi
  {
  }

  /** What an accepted connection asked for stays so as long as it is held. */
  lemma CapabilityStays(s: Server, a: Action, c: ConnectionId)
    requires Reachable(s) && Can(s, a) && Accepted(c) in s.history
    requires c in s.connections && c in Do(s, a).connections
    ensures Do(s, a).connections[c].experimentalApi == s.connections[c].experimentalApi
  {
    if !IsProcessors(a) {
      OthersStep(s, a);
    } else if a.Proceed? {
      if s.processor.Announced? {
        AnnouncedIsNew(s);
      }
      ProceedKeepsCapability(s, c);
    } else {
      SessionsTell(s, c);
    }
  }

  // --- Connections come and go ---------------------------------------------------------------------------------------

  /** A new connection is announced to the router with a fresh cell, and then held, not yet initialized. */
  lemma OpeningIntroduces(s: Server, c: ConnectionId, t: Server, u: Server)
    requires NextIs(s, ConnectionOpened(c))
    requires Meanwhile(Do(s, TakeEvent), t)
    ensures Can(t, Proceed) && Do(t, Proceed).control == t.control + [Opened(c)]
    ensures Meanwhile(Do(t, Proceed), u) ==>
      && Can(u, Proceed) && Do(u, Proceed).processor.Idle?
      && Do(u, Proceed).connections == s.connections[c := Session(false, false, {})]
      && c in Do(u, Proceed).cells && Do(u, Proceed).cells[c] == Cell(false, {})
  {
    MeanwhileIsReachable(Do(s, TakeEvent), t);
    if Meanwhile(Do(t, Proceed), u) {
      MeanwhileIsReachable(Do(t, Proceed), u);
    }
  }

  /** Nobody subscribes for the connection any more; the others stay. */
  ghost predicate OnlyLeft(m: Manager, m': Manager, c: ConnectionId) {
    Forgotten(m', c) && forall th, d | d != c :: m'.Subscribed(th, d) <==> m.Subscribed(th, d)
  }

  lemma RemovalLeavesOthers(m: Manager, c: ConnectionId)
    requires Inv(m)
    ensures OnlyLeft(m, RemoveConnection(m, c), c)
  {
    ApplyKeepsInv(m, DropConnection(c));
    UnlistedIsForgotten(RemoveConnection(m, c), c);
    forall th, d | d != c ensures RemoveConnection(m, c).Subscribed(th, d) <==> m.Subscribed(th, d) {
      RemoveConnectionSubscribers(m, c, th, d);
    }
  }

  lemma ManagerKeepsInv(s: Server)
    requires Reachable(s)
    ensures Inv(s.manager)
  {
    ReachableIsTrusted(s);
  }

  lemma Retracting(u: Server, c: ConnectionId)
    requires u.processor == Retracted(c) && Inv(u.manager)
    ensures Can(u, Proceed) && OnlyLeft(u.manager, Do(u, Proceed).manager, c)
    ensures Do(u, Proceed).processor == Forgetting(c) && Do(u, Proceed).connections == u.connections
  {
    RemovalLeavesOthers(u.manager, c);
  }

  /** A closed connection is retracted from the router, forgotten by the thread states, and then no longer held. */
  lemma ClosingForgets(s: Server, c: ConnectionId, t: Server, u: Server, v: Server)
    requires NextIs(s, ConnectionClosed(c))
    requires Meanwhile(Do(s, TakeEvent), t)
    ensures Can(t, Proceed) && Do(t, Proceed).control == t.control + [Closed(c)]
    ensures Meanwhile(Do(t, Proceed), u) ==> Can(u, Proceed) && OnlyLeft(s.manager, Do(u, Proceed).manager, c)
    ensures Meanwhile(Do(t, Proceed), u) && Meanwhile(Do(u, Proceed), v) ==>
      Can(v, Proceed) && Do(v, Proceed).processor.Idle? && Do(v, Proceed).connections == s.connections - {c}
  {
    MeanwhileIsReachable(Do(s, TakeEvent), t);
    if Meanwhile(Do(t, Proceed), u) {
      MeanwhileIsReachable(Do(t, Proceed), u);
      ManagerKeepsInv(s);
      Retracting(u, c);
      if Meanwhile(Do(u, Proceed), v) {
        MeanwhileIsReachable(Do(u, Proceed), v);
      }
    }
  }

  // --- New threads ------------------------------------------------------------------------------------------------------

  /** So far as the processor went down the list, everybody is attached. */
  ghost predicate AttachedUpTo(u: Server, th: ThreadId, order: seq<ConnectionId>, k: nat)
    requires k <= |order|
  {
    && u.processor == Attaching(th, order[k..])
    && forall c | c in order[..k] :: u.manager.Subscribed(th, c) && AppServer.Joined(th, c) in u.history
  }

  lemma AttachStep(u: Server, th: ThreadId, order: seq<ConnectionId>, k: nat, conversation: Conversation)
    requires k < |order| && AttachedUpTo(u, th, order, k)
    ensures AttachedUpTo(DoAttachNext(u, Some(conversation)), th, order, k + 1)
  {
    assert order[..k + 1] == order[..k] + [order[k]];
    assert order[k..][1..] == order[k + 1..];
  }

  /** The other tasks act, and the processor attaches one connection after the other to a thread that is found each time. */
  ghost predicate OnlyAttaching(s: Server, actions: seq<Action>) {
    CanRunFrom(s, actions) && forall a | a in actions :: !IsProcessors(a) || (a.AttachNext? && a.found.Some?)
  }

  lemma {:induction false} AttachRun(s: Server, th: ThreadId, order: seq<ConnectionId>, actions: seq<Action>) returns (k: nat)
    requires s.processor == Attaching(th, order) && OnlyAttaching(s, actions)
    ensures k <= |order| && AttachedUpTo(AfterFrom(s, actions), th, order, k)
    ensures AfterFrom(s, actions).connections == s.connections && SameAcceptances(s, AfterFrom(s, actions))
  {
    if actions == [] {
      return 0;
    }
    var before, last := actions[..|actions| - 1], actions[|actions| - 1];
    k := AttachRun(s, th, order, before);
    var u := AfterFrom(s, before);
    if last.AttachNext? {
      AttachStep(u, th, order, k, last.found.value);
      k := k + 1;
    } else {
      OthersStep(u, last);
    }
  }

  /**
    When the processor has gone through the connections for a new thread,
    every connection it holds that was accepted is subscribed to the thread.
  */
  lemma NewThreadsAreAttached(s: Server, th: ThreadId, order: seq<ConnectionId>, actions: seq<Action>, c: ConnectionId)
    requires Reachable(s) && Can(s, ThreadCreated(th, order))
    requires OnlyAttaching(Do(s, ThreadCreated(th, order)), actions)
    requires AfterFrom(Do(s, ThreadCreated(th, order)), actions).processor == Attaching(th, [])
    requires c in s.connections && Accepted(c) in s.history
    ensures AfterFrom(Do(s, ThreadCreated(th, order)), actions).manager.Subscribed(th, c)
  {
    ReachableIsTrusted(s);
    var k := AttachRun(Do(s, ThreadCreated(th, order)), th, order, actions);
    assert c in Initialized(s);
    assert |order[k..]| == 0;
    assert order[..k] == order;
  }
}
