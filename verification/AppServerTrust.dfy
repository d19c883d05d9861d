/**
  What the app server writes to whom: notifications and requests reach only
  connections whose `initialize` was accepted before, thread-scoped ones only
  connections that had joined the thread, and opted-out ones nobody whose wish
  was known when the router took the message.
*/
module AppServerTrust {
  import opened Wrappers
  import opened Subscriptions
  import opened AppServer

  // --- What the history must look like -------------------------------------------------------------------

  /** The history up to the router's last taking of an envelope. */
  function LastTaken(h: seq<Record>): seq<Record> {
    if h == [] then []
    else if h[|h| - 1] == Taken then h[..|h| - 1]
    else LastTaken(h[..|h| - 1])
  }

  /** After its `initialize` was accepted, the connection's wish was copied for the router. */
  predicate Settled(past: seq<Record>, c: ConnectionId, methods: set<Method>) {
    past != [] &&
    var before := past[..|past| - 1];
    Settled(before, c, methods) || (past[|past| - 1] == Opted(c, methods) && Accepted(c) in before)
  }

  ghost predicate Unwanted(past: seq<Record>, c: ConnectionId, message: Message) {
    message.Notification? && exists methods :: Settled(past, c, methods) && message.name in methods
  }

  /** The message may be sent to the connection. */
  predicate Due(past: seq<Record>, c: ConnectionId, message: Message) {
    IsReply(message) || (Accepted(c) in past && (message.scope.Some? ==> Joined(message.scope.value, c) in past))
  }

  ghost predicate Justified(past: seq<Record>, r: Record) {
    match r
    case Accepted(c) => Accepted(c) !in past
    case Opted(c, methods) => forall other | Settled(past, c, other) :: other == methods
    case Joined(_, c) => Accepted(c) in past
    case Taken => true
    case Wrote(c, message) => Due(past, c, message) && !Unwanted(LastTaken(past), c, message)
  }

  ghost predicate AllJustified(h: seq<Record>) {
    h != [] ==>
      var before := h[..|h| - 1];
      AllJustified(before) && Justified(before, h[|h| - 1])
  }

  lemma {:induction false} JustifiedAt(h: seq<Record>, i: nat)
    requires AllJustified(h) && i < |h|
    ensures Justified(h[..i], h[i])
  {
    var before := h[..|h| - 1];
    if i < |before| {
      JustifiedAt(before, i);
      assert before[..i] == h[..i];
    }
  }

  lemma AppendJustified(h: seq<Record>, r: Record)
    requires AllJustified(h) && Justified(h, r)
    ensures AllJustified(h + [r])
  {
    assert (h + [r])[..|h|] == h;
  }

  lemma SettledAppend(h: seq<Record>, r: Record, c: ConnectionId, methods: set<Method>)
    ensures Settled(h + [r], c, methods) <==> Settled(h, c, methods) || (r == Opted(c, methods) && Accepted(c) in h)
  {
    assert (h + [r])[..|h|] == h;
  }

  lemma {:induction false} SettledWasAccepted(h: seq<Record>, c: ConnectionId, methods: set<Method>)
    requires Settled(h, c, methods)
    ensures Accepted(c) in h
  {
    var before := h[..|h| - 1];
    if Settled(before, c, methods) {
      SettledWasAccepted(before, c, methods);
    }
  }

  lemma LastTakenAppend(h: seq<Record>, r: Record)
    ensures LastTaken(h + [r]) == if r == Taken then h else LastTaken(h)
  {
    assert (h + [r])[..|h|] == h;
  }

  // --- The invariant ---------------------------------------------------------------------------------------

  /** Every connection is introduced once, and initialized exactly when that was accepted. */
  ghost predicate Sessions(s: Server) {
    && (forall c | c in s.connections :: s.connections[c].initialized <==> Accepted(c) in s.history)
    && (forall c | c in s.connections :: c in s.introduced)
    && (forall c | c in s.introduced :: c in s.cells && c in s.phases && s.phases[c] != Connecting)
    && (forall c | Accepted(c) in s.history :: c in s.introduced)
    && (forall c | c in s.cells :: s.cells[c].initialized ==> Accepted(c) in s.history)
  }

  ghost predicate Introductions(s: Server) {
    && (forall c | ConnectionOpened(c) in s.events :: c !in s.introduced && c in s.phases && s.phases[c] != Connecting)
    && (forall i, j | 0 <= i < j < |s.events| && s.events[i].ConnectionOpened? :: s.events[j] != s.events[i])
    && (s.processor.Opening? || s.processor.Announced? ==>
          var c := s.processor.connection;
          c in s.introduced && c !in s.connections && Accepted(c) !in s.history)
  }

  /** What the place of the processor says about the connection it works for. */
  ghost predicate Places(s: Server) {
    match s.processor
    case Rejecting(c) => c in s.connections
    case Copying(c) => c in s.connections
    case Replying(c) => c in s.connections && !s.connections[c].initialized
    case ReplySent(c) => c in s.connections && !s.connections[c].initialized
    case Serving(c) => c in s.connections && s.connections[c].initialized
    case Attaching(_, todo) => forall c | c in todo :: c in s.connections && s.connections[c].initialized
    case _ => true
  }

  /** An accepted connection's wish, once copied, stays what it is. */
  ghost predicate Wishes(s: Server) {
    forall c, methods | Settled(s.history, c, methods) ::
      && c in s.cells && s.cells[c].optOut == methods
      && (c in s.connections ==> s.connections[c].optOut == methods)
  }

  /** Subscribers are held and initialized, and joined. */
  ghost predicate Subscribers(s: Server) {
    forall t, c | s.manager.Subscribed(t, c) ::
      && c in s.connections && s.connections[c].initialized && s.processor != Forgetting(c)
      && Joined(t, c) in s.history
  }

  ghost predicate Listeners(s: Server) {
    && (forall d, c | d in s.detached && c in d.state.subscribed :: Joined(d.thread, c) in s.history)
    && (forall sender, c | sender in s.senders && c in sender.ids :: Joined(sender.thread, c) in s.history)
  }

  predicate Addressed(past: seq<Record>, e: Envelope) {
    match e
    case ToConnection(c, message) =>
      IsReply(message) || (message.scope.Some? && Joined(message.scope.value, c) in past)
    case Broadcast(message) => !IsReply(message) && message.scope.None?
  }

  ghost predicate Mail(s: Server) {
    && (forall i | 0 <= i < |s.outgoing| :: Addressed(s.history, s.outgoing[i]))
    && (forall k, i | 0 <= k < |s.sending| && 0 <= i < |s.sending[k]| :: Addressed(s.history, s.sending[k][i]))
  }

  ghost predicate Route(s: Server) {
    s.router.Routing? ==>
      forall c | c in s.router.targets ::
        Due(s.history, c, s.router.message) && !Unwanted(LastTaken(s.history), c, s.router.message)
  }

  ghost predicate Trust(s: Server) {
    && AllJustified(s.history) && Sessions(s) && Introductions(s) && Places(s)
    && Wishes(s) && Subscribers(s) && Listeners(s) && Mail(s) && Route(s)
  }

  // --- Growing the history -----------------------------------------------------------------------------------

  /** A joined connection was accepted. */
  lemma JoinedWasAccepted(h: seq<Record>, t: ThreadId, c: ConnectionId)
    requires AllJustified(h) && Joined(t, c) in h
    ensures Accepted(c) in h
  {
    var i :| 0 <= i < |h| && h[i] == Joined(t, c);
    JustifiedAt(h, i);
  }

  /** The mail and the route survive a longer history, as long as the router takes nothing. */
  lemma LongerHistory(s: Server, s': Server, r: Record)
    requires Mail(s) && Route(s) && Listeners(s) && s'.history == s.history + [r] && r != Taken
    requires s'.router == s.router && s'.outgoing == s.outgoing && s'.sending == s.sending
    requires s'.detached == s.detached && s'.senders == s.senders
    ensures Mail(s') && Route(s') && Listeners(s')
  {
    LastTakenAppend(s.history, r);
    forall e | Addressed(s.history, e) ensures Addressed(s'.history, e) {}
  }

  // --- Steps of the transport and of the tasks ------------------------------------------------------------------

  predicate IsTransport(a: Action) {
    a.Connect? || a.Say? || a.Hangup? || a.Flush?
  }

  /** Connections move on, and an event that opens none is queued. */
  lemma EventKeepsTrust(s: Server, s': Server)
    requires Trust(s) && s' == s.(phases := s'.phases, events := s'.events, pendingClosed := s'.pendingClosed)
    requires s'.events == s.events || exists e: Event :: !e.ConnectionOpened? && s'.events == s.events + [e]
    requires forall c | c in s.phases && s.phases[c] != Connecting :: c in s'.phases && s'.phases[c] != Connecting
    ensures Trust(s')
  {
  }

  lemma TransportKeepsTrust(s: Server, a: Action)
    requires Trust(s) && Can(s, a) && IsTransport(a)
    ensures Trust(Do(s, a))
  {
    EventKeepsTrust(s, Do(s, a));
  }

  lemma AnnounceKeepsTrust(s: Server, c: ConnectionId)
    requires Trust(s) && Can(s, Announce(c))
    ensures Trust(Do(s, Announce(c)))
  {
    var s' := s.(phases := s.phases[c := Live], events := s.events + [ConnectionOpened(c)]);
    assert c !in s.introduced && ConnectionOpened(c) !in s.events;
    assert Introductions(s');
  }

  predicate IsTask(a: Action) {
    a.Reply? || a.BroadcastAll? || a.Snapshot? || a.SendScoped? || a.Enqueue?
  }

  /** A listener task sees who subscribes, now or when its thread left the manager. */
  lemma SnapshotKeepsTrust(s: Server, t: ThreadId, state: Thread, ids: seq<ConnectionId>)
    requires Trust(s) && Can(s, Snapshot(t, state, ids))
    ensures Trust(s.(senders := s.senders + {Sender(t, ids)}))
  {
    forall c | c in ids ensures Joined(t, c) in s.history {
      if t in s.manager.threads && s.manager.threads[t] == state {
        assert s.manager.Subscribed(t, c);
      } else {
        assert Detached(t, state) in s.detached;
      }
    }
  }

  /** Mail that is addressed rightly is sent, or queued to be sent. */
  lemma SendingKeepsTrust(s: Server, s': Server)
    requires Trust(s) && s' == s.(outgoing := s'.outgoing, sending := s'.sending) && Mail(s')
    ensures Trust(s')
  {
  }

  lemma TaskKeepsTrust(s: Server, a: Action)
    requires Trust(s) && Can(s, a) && IsTask(a)
    ensures Trust(Do(s, a))
  {
    if a.Snapshot? {
      SnapshotKeepsTrust(s, a.thread, a.state, a.ids);
    } else {
      if a.SendScoped? {
        var added := SendToSubscribers(a.sender.ids, a.message);
        forall i | 0 <= i < |added| ensures Addressed(s.history, added[i]) {
          assert a.sender.ids[i] in a.sender.ids;
        }
      }
      assert Mail(Do(s, a));
      SendingKeepsTrust(s, Do(s, a));
    }
  }

  // --- Steps of the router -------------------------------------------------------------------------------------

  /** A justified write, put into the history. */
  lemma WriteKeepsTrust(s: Server, s': Server, r: Record)
    requires Trust(s) && r.Wrote? && Justified(s.history, r) && s' == s.(history := s.history + [r])
    ensures Trust(s')
  {
    AppendJustified(s.history, r);
    LongerHistory(s, s', r);
    forall d, methods ensures Settled(s'.history, d, methods) <==> Settled(s.history, d, methods) {
      SettledAppend(s.history, r, d, methods);
    }
  }

  lemma DeliverKeepsTrust(s: Server, alive: bool)
    requires Trust(s) && s.router.Routing? && s.router.targets != []
    ensures Trust(DoDeliver(s, alive))
  {
    var s', c := DoDeliver(s, alive), s.router.targets[0];
    var before := s'.(history := s.history);
    assert Route(before);
    if s'.history != s.history {
      WriteKeepsTrust(before, s', Wrote(c, s.router.message));
    }
  }

  predicate CanTake(s: Server, order: seq<ConnectionId>) {
    && s.outgoing != []
    && (s.outgoing[0].Broadcast? ==> forall c | c in order :: c in BroadcastTargets(s, s.outgoing[0].message))
  }

  lemma TakenTargets(s: Server, order: seq<ConnectionId>, c: ConnectionId)
    requires Trust(s) && CanTake(s, order) && c in DoTake(s, order).router.targets
    ensures Due(s.history, c, s.outgoing[0].message) && !Unwanted(s.history, c, s.outgoing[0].message)
  {
    var e := s.outgoing[0];
    assert Addressed(s.history, e);
    assert !Skipped(s, c, e.message);
    if e.ToConnection? && !IsReply(e.message) {
      JoinedWasAccepted(s.history, e.message.scope.value, c);
    }
  }

  lemma TakeKeepsTrust(s: Server, order: seq<ConnectionId>)
    requires Trust(s) && CanTake(s, order)
    ensures Trust(DoTake(s, order))
  {
    var s' := DoTake(s, order);
    AppendJustified(s.history, Taken);
    LastTakenAppend(s.history, Taken);
    forall c, methods ensures Settled(s'.history, c, methods) <==> Settled(s.history, c, methods) {
      SettledAppend(s.history, Taken, c, methods);
    }
    forall c | c in s'.router.targets ensures Due(s'.history, c, s'.router.message) && !Unwanted(LastTaken(s'.history), c, s'.router.message) {
      TakenTargets(s, order, c);
    }
  }

  lemma RouterKeepsTrust(s: Server, a: Action)
    requires Trust(s) && Can(s, a) && (a.ApplyControl? || a.FinishRoute? || a.Overload?)
    ensures Trust(Do(s, a))
  {
    if a.Overload? {
      WriteKeepsTrust(s, Do(s, a), Wrote(a.connection, Error));
    }
  }

  // --- Steps of the processor ------------------------------------------------------------------------------------

  lemma OpenedKeepsTrust(s: Server)
    requires Trust(s) && s.processor.Idle? && s.events != [] && s.events[0].ConnectionOpened?
    ensures Trust(DoTakeEvent(s))
  {
    var c, s' := s.events[0].connection, DoTakeEvent(s);
    assert ConnectionOpened(c) in s.events;
    assert c !in s.introduced;
    assert forall i | 0 <= i < |s'.events| :: s'.events[i] == s.events[i + 1];
    forall d, methods | Settled(s.history, d, methods) ensures d != c {
      SettledWasAccepted(s.history, d, methods);
    }
  }

  lemma PopKeepsTrust(s: Server, s': Server)
    requires Trust(s) && s.processor.Idle? && s.events != []
    requires s' == s.(events := s.events[1..])
    ensures Trust(s')
  {
    assert forall i | 0 <= i < |s'.events| :: s'.events[i] == s.events[i + 1];
  }

  lemma MessageKeepsTrust(s: Server, c: ConnectionId, incoming: Incoming)
    requires Trust(s) && s.processor.Idle?
    ensures Trust(TakeMessage(s, c, incoming))
  {
    forall methods | c in s.connections && Settled(s.history, c, methods) ensures s.connections[c].initialized {
      SettledWasAccepted(s.history, c, methods);
    }
  }

  lemma TakeEventKeepsTrust(s: Server)
    requires Trust(s) && s.processor.Idle? && s.events != []
    ensures Trust(DoTakeEvent(s))
  {
    var rest := s.(events := s.events[1..]);
    match s.events[0]
    case ConnectionOpened(_) => OpenedKeepsTrust(s);
    case ConnectionClosed(_) => PopKeepsTrust(s, rest);
    case IncomingMessage(c, incoming) =>
      PopKeepsTrust(s, rest);
      MessageKeepsTrust(rest, c, incoming);
  }

  /** Which subscriptions an operation can add. */
  predicate Adds(op: Op, t: ThreadId, c: ConnectionId) {
    match op
    case AddListener(_, u, d, _, _) => u == t && d == c
    case Attach(u, d, _, _) => u == t && d == c
    case _ => false
  }

  lemma DropSubscribers(m: Manager, op: Op, t: ThreadId, c: ConnectionId)
    requires MapsAgree(m) && Apply(m, op).Subscribed(t, c) && (op.DropListener? || op.DropThread? || op.DropConnection?)
    ensures m.Subscribed(t, c)
  {
    if op.DropListener? && op.id in m.subscriptions {
      RemoveListenerSubscribers(m, op.id, t, c);
    }
  }

  lemma TaskSubscribers(m: Manager, u: ThreadId, conversation: Conversation, t: ThreadId, c: ConnectionId)
    requires u in m.threads && EnsureTask(m, u, conversation).Subscribed(t, c)
    ensures m.Subscribed(t, c)
  {
  }

  lemma ApplySubscribers(m: Manager, op: Op, t: ThreadId, c: ConnectionId)
    requires MapsAgree(m) && Apply(m, op).Subscribed(t, c)
    ensures m.Subscribed(t, c) || Adds(op, t, c)
  {
    if op.DropListener? || op.DropThread? || op.DropConnection? {
      DropSubscribers(m, op, t, c);
    } else if op.AddListener? {
      TaskSubscribers(SetListener(m, op.id, op.thread, op.connection, op.rawEvents), op.thread, op.conversation, t, c);
    } else if op.Attach? {
      TaskSubscribers(EnsureSubscribed(m, op.thread, op.connection, op.rawEvents), op.thread, op.conversation, t, c);
    }
  }

  lemma ApplyKeepsInv(m: Manager, op: Op)
    requires Inv(m)
    ensures Inv(Apply(m, op))
  {
    if op.DropListener? || op.DropThread? || op.DropConnection? {
      DropKeepsInv(m, op);
    } else {
      AddKeepsInv(m, op);
    }
  }

  /** The connection an operation subscribes is one the processor holds and has initialized. */
  ghost predicate ForHeldConnection(s: Server, op: Op) {
    && !op.DropConnection?
    && !s.processor.Forgetting?
    && forall t, c | Adds(op, t, c) :: c in s.connections && s.connections[c].initialized
  }

  /** Joining is justified, and changes nobody's wish. */
  lemma JoinKeepsTrust(s: Server, s': Server, t: ThreadId, c: ConnectionId)
    requires Trust(s) && c in s.connections && s.connections[c].initialized
    requires s' == s.(history := s.history + [Joined(t, c)])
    ensures Trust(s')
  {
    var r := Joined(t, c);
    AppendJustified(s.history, r);
    LongerHistory(s, s', r);
    forall d, methods ensures Settled(s'.history, d, methods) <==> Settled(s.history, d, methods) {
      SettledAppend(s.history, r, d, methods);
    }
  }

  lemma ManagerKeepsTrust(s: Server, op: Op)
    requires Trust(s) && Inv(s.manager) && ForHeldConnection(s, op)
    ensures Trust(DoManager(s, op))
  {
    var s' := DoManager(s, op);
    var joined := s.(history := s'.history);
    if op.AddListener? || op.Attach? {
      assert Adds(op, op.thread, op.connection);
      JoinKeepsTrust(s, joined, op.thread, op.connection);
    }
    forall t, c | s'.manager.Subscribed(t, c) ensures s.manager.Subscribed(t, c) || Adds(op, t, c) {
      ApplySubscribers(s.manager, op, t, c);
    }
    ManagerStepTrust(joined, s');
  }

  /** The manager may change as long as its new subscribers have joined, and what it lets go was its own. */
  lemma ManagerStepTrust(s: Server, s': Server)
    requires Trust(s) && s' == s.(manager := s'.manager, detached := s'.detached)
    requires forall t, c | s'.manager.Subscribed(t, c) ::
      s.manager.Subscribed(t, c) || (c in s.connections && s.connections[c].initialized && !s.processor.Forgetting? && Joined(t, c) in s.history)
    requires forall d | d in s'.detached :: d in s.detached || (d.thread in s.manager.threads && d.state == s.manager.threads[d.thread])
    ensures Trust(s')
  {
    assert Listeners(s') by {
      forall d, c | d in s'.detached && c in d.state.subscribed ensures Joined(d.thread, c) in s'.history {
        if d !in s.detached {
          assert s.manager.Subscribed(d.thread, c);
        }
      }
    }
  }

  lemma AcceptKeepsSessions(s: Server)
    requires Sessions(s) && Introductions(s) && s.processor.ReplySent? && CanProceed(s)
    ensures Sessions(DoProceed(s)) && Introductions(DoProceed(s)) && Places(DoProceed(s))
  {
  }

  lemma AcceptKeepsWishes(s: Server)
    requires Wishes(s) && Subscribers(s) && s.processor.ReplySent? && CanProceed(s)
    ensures Wishes(DoProceed(s)) && Subscribers(DoProceed(s))
  {
    var s', c := DoProceed(s), s.processor.connection;
    forall d, methods ensures Settled(s'.history, d, methods) <==> Settled(s.history, d, methods) {
      SettledAppend(s.history, Accepted(c), d, methods);
    }
  }

  lemma AcceptKeepsTrust(s: Server)
    requires Trust(s) && s.processor.ReplySent? && CanProceed(s)
    ensures Trust(DoProceed(s))
  {
    var r := Accepted(s.processor.connection);
    AppendJustified(s.history, r);
    AcceptKeepsSessions(s);
    AcceptKeepsWishes(s);
    LongerHistory(s, DoProceed(s), r);
  }

  lemma CopyKeepsSessions(s: Server)
    requires Sessions(s) && Introductions(s) && Places(s) && Wishes(s) && Subscribers(s)
    requires s.processor.Copying? && CanProceed(s)
    ensures Sessions(DoProceed(s)) && Introductions(DoProceed(s)) && Places(DoProceed(s))
    ensures Wishes(DoProceed(s)) && Subscribers(DoProceed(s))
  {
    var s', c := DoProceed(s), s.processor.connection;
    var wish := s.connections[c].optOut;
    forall d, methods | Settled(s'.history, d, methods) ensures Settled(s.history, d, methods) || (d == c && methods == wish) {
      SettledAppend(s.history, Opted(c, wish), d, methods);
    }
  }

  lemma CopyKeepsTrust(s: Server)
    requires Trust(s) && s.processor.Copying? && CanProceed(s)
    ensures Trust(DoProceed(s))
  {
    var c := s.processor.connection;
    var r := Opted(c, s.connections[c].optOut);
    AppendJustified(s.history, r);
    CopyKeepsSessions(s);
    LongerHistory(s, DoProceed(s), r);
  }

  lemma ForgetKeepsTrust(s: Server)
    requires Trust(s) && Inv(s.manager) && (s.processor.Retracted? || s.processor.Forgetting?)
    ensures Trust(DoProceed(s))
  {
    if s.processor.Retracted? {
      var c := s.processor.connection;
      ApplyKeepsInv(s.manager, DropConnection(c));
      UnlistedIsForgotten(RemoveConnection(s.manager, c), c);
      forall t, d | RemoveConnection(s.manager, c).Subscribed(t, d) ensures d != c && s.manager.Subscribed(t, d) {
        if d != c {
          RemoveConnectionSubscribers(s.manager, c, t, d);
        }
      }
    }
  }

  lemma OtherProceedKeepsTrust(s: Server)
    requires Trust(s) && CanProceed(s)
    requires !s.processor.ReplySent? && !s.processor.Copying? && !s.processor.Retracted? && !s.processor.Forgetting?
    ensures Trust(DoProceed(s))
  {
    forall c, methods | s.processor == Announced(c) && Settled(s.history, c, methods) ensures Accepted(c) in s.history {
      SettledWasAccepted(s.history, c, methods);
    }
  }

  lemma ProceedKeepsTrust(s: Server)
    requires Trust(s) && Inv(s.manager) && CanProceed(s)
    ensures Trust(DoProceed(s))
  {
    if s.processor.ReplySent? {
      AcceptKeepsTrust(s);
    } else if s.processor.Copying? {
      CopyKeepsTrust(s);
    } else if s.processor.Retracted? || s.processor.Forgetting? {
      ForgetKeepsTrust(s);
    } else {
      OtherProceedKeepsTrust(s);
    }
  }

  lemma AttachKeepsTrust(s: Server, found: Option<Conversation>)
    requires Trust(s) && Inv(s.manager) && s.processor.Attaching? && s.processor.todo != []
    ensures Trust(DoAttachNext(s, found))
  {
    var t, c := s.processor.thread, s.processor.todo[0];
    if found.Some? {
      ManagerKeepsTrust(s, Attach(t, c, false, found.value));
    }
  }

  lemma ProcessorKeepsTrust(s: Server, a: Action)
    requires Trust(s) && Inv(s.manager) && Can(s, a)
    requires a.TakeEvent? || a.Proceed? || a.Serve? || a.ThreadCreated? || a.AttachNext?
    ensures Trust(Do(s, a))
  {
    match a
    case TakeEvent => TakeEventKeepsTrust(s);
    case Proceed => ProceedKeepsTrust(s);
    case Serve(op) => ManagerKeepsTrust(s, op);
    case ThreadCreated(_, _) =>
    case AttachNext(found) => AttachKeepsTrust(s, found);
  }

  lemma StepKeepsTrust(s: Server, a: Action)
    requires Trust(s) && Inv(s.manager) && Can(s, a)
    ensures Trust(Do(s, a))
  {
    if IsTransport(a) {
      TransportKeepsTrust(s, a);
    } else if a.Announce? {
      AnnounceKeepsTrust(s, a.connection);
    } else if IsTask(a) {
      TaskKeepsTrust(s, a);
    } else if a.Deliver? {
      DeliverKeepsTrust(s, a.alive);
    } else if a.Take? {
      TakeKeepsTrust(s, a.order);
    } else if a.ApplyControl? || a.FinishRoute? || a.Overload? {
      RouterKeepsTrust(s, a);
    } else {
      ProcessorKeepsTrust(s, a);
    }
  }

  /** Every step leaves the manager alone or is one of its operations. */
  lemma StepKeepsManager(s: Server, a: Action)
    requires Inv(s.manager) && Can(s, a)
    ensures Inv(Do(s, a).manager)
  {
    if a.Serve? {
      ApplyKeepsInv(s.manager, a.op);
    } else if a.AttachNext? && a.found.Some? {
      ApplyKeepsInv(s.manager, Attach(s.processor.thread, s.processor.todo[0], false, a.found.value));
    } else if a.Proceed? && s.processor.Retracted? {
      ApplyKeepsInv(s.manager, DropConnection(s.processor.connection));
    } else {
      assert Do(s, a).manager == s.manager;
    }
  }

  lemma {:induction false} RunKeepsTrust(actions: seq<Action>)
    requires CanRun(actions)
    ensures Trust(After(actions)) && Inv(After(actions).manager)
  {
    if actions != [] {
      var before := actions[..|actions| - 1];
      RunKeepsTrust(before);
      StepKeepsTrust(After(before), actions[|actions| - 1]);
      StepKeepsManager(After(before), actions[|actions| - 1]);
    } else {
      RunKeepsInv([]);
    }
  }
}
