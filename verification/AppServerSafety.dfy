/**
  The promises of the app server that follow from its invariants, for every
  run, and two runs that show which promises it does not make.
*/
module AppServerSafety {
  import opened Wrappers
  import opened Subscriptions
  import opened AppServer
  import opened AppServerTrust

  lemma ReachableIsTrusted(s: Server)
    requires Reachable(s)
    ensures Trust(s) && Inv(s.manager)
  {
    var actions :| CanRun(actions) && After(actions) == s;
    RunKeepsTrust(actions);
  }

  /**
    Whatever is written to a connection, broadcast or not, its `initialize`
    was accepted before, unless it is a response or an error; and a
    thread-scoped message reaches only those that had joined that thread, so
    that a message for nobody is never turned into one for everybody.
  */
  lemma WritesFollowInitialize(s: Server, i: nat)
    requires Reachable(s) && i < |s.history| && s.history[i].Wrote? && !IsReply(s.history[i].message)
    ensures Accepted(s.history[i].connection) in s.history[..i]
    ensures s.history[i].message.scope.Some? ==> Joined(s.history[i].message.scope.value, s.history[i].connection) in s.history[..i]
  {
    ReachableIsTrusted(s);
    JustifiedAt(s.history, i);
  }

  /** A connection's `initialize` is accepted at most once. */
  lemma InitializedOnce(s: Server, i: nat, j: nat)
    requires Reachable(s) && i < j < |s.history| && s.history[i].Accepted?
    ensures s.history[j] != s.history[i]
  {
    ReachableIsTrusted(s);
    JustifiedAt(s.history, j);
    assert s.history[..j][i] == s.history[i];
  }

  /** Subscribers of a thread are connections the processor holds, initialized, in every state between two steps. */
  lemma SubscribersAreInitialized(s: Server, t: ThreadId, c: ConnectionId)
    requires Reachable(s) && s.manager.Subscribed(t, c)
    ensures c in s.connections && s.connections[c].initialized
    ensures Joined(t, c) in s.history && Accepted(c) in s.history
  {
    ReachableIsTrusted(s);
    JoinedWasAccepted(s.history, t, c);
  }

  /** Threads with a subscriber have a listener task, and the manager's maps agree, in every state. */
  lemma ManagerStaysConsistent(s: Server)
    requires Reachable(s)
    ensures MapsAgree(s.manager) && TokensConserved(s.manager) && TasksServeSubscribers(s.manager)
  {
    ReachableIsTrusted(s);
  }

  lemma {:induction false} LastTakenKeeps(h: seq<Record>, k: nat)
    requires k < |h| && h[k] == Taken
    ensures h[..k] <= LastTaken(h)
  {
    var before := h[..|h| - 1];
    if h[|h| - 1] != Taken {
      LastTakenKeeps(before, k);
      assert before[..k] == h[..k];
    }
  }

  lemma {:induction false} SettledByRecord(h: seq<Record>, i: nat)
    requires i < |h| && h[i].Opted? && Accepted(h[i].connection) in h[..i]
    ensures Settled(h, h[i].connection, h[i].methods)
  {
    var before := h[..|h| - 1];
    if i < |before| {
      assert before[..i] == h[..i];
      SettledByRecord(before, i);
    }
  }

  lemma {:induction false} SettledPrefix(small: seq<Record>, h: seq<Record>, c: ConnectionId, methods: set<Method>)
    requires small <= h && Settled(small, c, methods)
    ensures Settled(h, c, methods)
  {
    if |small| < |h| {
      SettledPrefix(small, h[..|h| - 1], c, methods);
    } else {
      assert small == h;
    }
  }

  /**
    Once an initialized connection's wish has been copied (at `i`), no
    notification that the router takes off its queue after that (at `k`)
    and that the wish excludes is written to the connection.
  */
  lemma OptOutIsRespected(s: Server, i: nat, k: nat, j: nat)
    requires Reachable(s) && i < k < j < |s.history|
    requires s.history[i].Opted? && Accepted(s.history[i].connection) in s.history[..i]
    requires s.history[k] == Taken
    requires s.history[j].Wrote? && s.history[j].message.Notification? && s.history[j].connection == s.history[i].connection
    ensures s.history[j].message.name !in s.history[i].methods
  {
    ReachableIsTrusted(s);
    var past, c, methods := s.history[..j], s.history[i].connection, s.history[i].methods;
    JustifiedAt(s.history, j);
    LastTakenKeeps(past, k);
    assert past[..k][i] == s.history[i] && past[..k][..i] == s.history[..i];
    SettledByRecord(past[..k], i);
    SettledPrefix(past[..k], LastTaken(past), c, methods);
  }

  /** And the wish of an initialized connection never changes. */
  lemma OptOutIsFixed(s: Server, i: nat, j: nat)
    requires Reachable(s) && i < j < |s.history| && s.history[i].Opted? && Accepted(s.history[i].connection) in s.history[..i]
    requires s.history[j].Opted? && s.history[j].connection == s.history[i].connection
    ensures s.history[j].methods == s.history[i].methods
  {
    ReachableIsTrusted(s);
    JustifiedAt(s.history, j);
    assert s.history[..j][i] == s.history[i] && s.history[..j][..i] == s.history[..i];
    SettledByRecord(s.history[..j], i);
  }

  // --- Two runs ------------------------------------------------------------------------------------------------

  /** One connection is held and known to the router, whose last message was this. */
  function Connected(c: ConnectionId, incoming: Incoming): Server {
    START.(
      phases := map[c := Live],
      events := [IncomingMessage(c, incoming)],
      introduced := {c},
      cells := map[c := Cell(false, {})],
      connections := map[c := Session(false, false, {})],
      outbound := {c}
    )
  }

  /** The connection is open, and the router is still to hear of it. */
  function BeingOpened(c: ConnectionId): Server {
    START.(
      phases := map[c := Live], introduced := {c}, cells := map[c := Cell(false, {})],
      connections := map[c := Session(false, false, {})], control := [Opened(c)]
    )
  }

  lemma BeingOpenedIsReachable(c: ConnectionId)
    ensures Reachable(BeingOpened(c))
  {
    ReachStart();
    ReachStep(START, Connect(c));
    var s1 := START.(phases := map[c := Connecting]);
    assert Do(START, Connect(c)) == s1;
    ReachStep(s1, Announce(c));
    var s2 := START.(phases := map[c := Live], events := [ConnectionOpened(c)]);
    assert Do(s1, Announce(c)) == s2;
    ReachStep(s2, TakeEvent);
    var s3 := s2.(events := [], processor := Opening(c), introduced := {c}, cells := map[c := Cell(false, {})]);
    assert Do(s2, TakeEvent) == s3;
    ReachStep(s3, Proceed);
    var s4 := s3.(control := [Opened(c)], processor := Announced(c));
    assert Do(s3, Proceed) == s4;
    ReachStep(s4, Proceed);
    assert Do(s4, Proceed) == BeingOpened(c);
  }

  lemma ConnectedIsReachable(c: ConnectionId, incoming: Incoming)
    ensures Reachable(Connected(c, incoming))
  {
    BeingOpenedIsReachable(c);
    var s5 := BeingOpened(c);
    ReachStep(s5, ApplyControl);
    var s6 := s5.(outbound := {c}, control := []);
    assert Do(s5, ApplyControl) == s6;
    ReachStep(s6, Say(c, incoming));
    assert Do(s6, Say(c, incoming)) == Connected(c, incoming);
  }

  /** The processor has accepted the connection while a broadcast was waiting, but not copied its wish yet. */
  function Accepting(c: ConnectionId, wish: set<Method>, message: Message): Server {
    Connected(c, Initialize(true, false, wish)).(
      events := [],
      connections := map[c := Session(true, false, wish)],
      cells := map[c := Cell(true, {})],
      outgoing := [Broadcast(message), ToConnection(c, Response)],
      history := [Accepted(c)],
      processor := Copying(c)
    )
  }

  /** The processor has read the request to initialize, and not answered yet. */
  function Asking(c: ConnectionId, wish: set<Method>, message: Message): Server {
    Connected(c, Initialize(true, false, wish)).(
      events := [],
      connections := map[c := Session(false, false, wish)],
      outgoing := [Broadcast(message)],
      processor := Replying(c)
    )
  }

  lemma AskingIsReachable(c: ConnectionId, wish: set<Method>, message: Message)
    requires !IsReply(message) && message.scope.None?
    ensures Reachable(Asking(c, wish, message))
  {
    var s1 := Connected(c, Initialize(true, false, wish));
    ConnectedIsReachable(c, Initialize(true, false, wish));
    ReachStep(s1, BroadcastAll(message));
    var s2 := s1.(outgoing := [Broadcast(message)]);
    assert Do(s1, BroadcastAll(message)) == s2;
    ReachStep(s2, TakeEvent);
    assert DoTakeEvent(s2) == Asking(c, wish, message);
  }

  lemma AcceptingIsReachable(c: ConnectionId, wish: set<Method>, message: Message)
    requires !IsReply(message) && message.scope.None?
    ensures Reachable(Accepting(c, wish, message))
  {
    var s1 := Asking(c, wish, message);
    AskingIsReachable(c, wish, message);
    ReachStep(s1, Proceed);
    var s2 := s1.(outgoing := [Broadcast(message), ToConnection(c, Response)], processor := ReplySent(c));
    assert DoProceed(s1) == s2;
    ReachStep(s2, Proceed);
    assert DoProceed(s2) == Accepting(c, wish, message);
  }

  /** And the router has taken that broadcast, to write it to the connection. */
  function Broadcasting(c: ConnectionId, wish: set<Method>, message: Message): Server {
    Accepting(c, wish, message).(
      outgoing := [ToConnection(c, Response)],
      router := Routing(message, [c], []),
      history := [Accepted(c), Taken]
    )
  }

  lemma BroadcastingIsReachable(c: ConnectionId, wish: set<Method>, message: Message)
    requires !IsReply(message) && message.scope.None?
    ensures Reachable(Broadcasting(c, wish, message))
  {
    var s := Accepting(c, wish, message);
    AcceptingIsReachable(c, wish, message);
    assert BroadcastTargets(s, message) == {c};
    assert s.outgoing[0] == Broadcast(message) && s.outgoing[1..] == [ToConnection(c, Response)];
    ReachStep(s, Take([c]));
    assert Do(s, Take([c])) == Broadcasting(c, wish, message);
  }

  /**
    A broadcast that was waiting when the connection initialized is written to
    it before the response to its `initialize`.
  */
  lemma BroadcastMayPrecedeResponse(c: ConnectionId, message: Message)
    requires !IsReply(message) && message.scope.None?
    ensures exists s :: Reachable(s) && Wrote(c, message) in s.history && Wrote(c, Response) !in s.history && s.outgoing == [ToConnection(c, Response)]
  {
    var s := Broadcasting(c, {}, message);
    BroadcastingIsReachable(c, {}, message);
    ReachStep(s, Deliver(true));
    var s' := DoDeliver(s, true);
    assert Do(s, Deliver(true)) == s';
    assert s'.history == [Accepted(c), Taken, Wrote(c, message)];
  }

  /**
    The wish is read when the router takes a message and not when it writes it,
    so one message that the wish excludes may still be written after the wish
    was copied.
  */
  lemma OptOutMayComeTooLate(c: ConnectionId, name: Method)
    ensures exists s :: Reachable(s) && s.history == [Accepted(c), Taken, Opted(c, {name}), Wrote(c, Notification(name, None))]
  {
    var message := Notification(name, None);
    var s := Broadcasting(c, {name}, message);
    BroadcastingIsReachable(c, {name}, message);
    ReachStep(s, Proceed);
    var copied := s.(cells := map[c := Cell(true, {name})], history := [Accepted(c), Taken, Opted(c, {name})], processor := Idle);
    assert Do(s, Proceed) == copied;
    ReachStep(copied, Deliver(true));
    var s' := DoDeliver(copied, true);
    assert Do(copied, Deliver(true)) == s';
    assert s'.history == [Accepted(c), Taken, Opted(c, {name}), Wrote(c, message)];
  }
}
