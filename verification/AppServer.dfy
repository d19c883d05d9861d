/**
  The app server as steps of concurrent tasks: client connections, the
  processor loop, the listener tasks of threads, and the outbound router.
  They share bounded or ordered queues, the thread state manager, and two
  cells per connection that the processor writes and the router reads.
  A step is what a task does between two points at which it may be suspended.
*/
module AppServer {
  import opened Wrappers
  import opened Subscriptions

  type Method = string

  /** A thread-scoped message was sent for the subscribers of one thread; the others concern no thread. */
  datatype Message =
    | Response
    | Error
    | Notification(name: Method, scope: Option<ThreadId>)
    | Request(id: nat, scope: Option<ThreadId>)

  datatype Envelope =
    | ToConnection(connection: ConnectionId, message: Message)
    | Broadcast(message: Message)

  datatype Incoming =
    | Initialize(validName: bool, experimentalApi: bool, optOut: set<Method>)
    | OtherRequest(experimental: bool)
    | Malformed
    | NoRequest

  datatype Event =
    | ConnectionOpened(connection: ConnectionId)
    | ConnectionClosed(connection: ConnectionId)
    | IncomingMessage(connection: ConnectionId, message: Incoming)

  datatype Control = Opened(connection: ConnectionId) | Closed(connection: ConnectionId)

  datatype Phase = Connecting | Live | Gone

  /** What the processor remembers of a connection, and the cells it shares with the router. */
  datatype Session = Session(initialized: bool, experimentalApi: bool, optOut: set<Method>)
  datatype Cell = Cell(initialized: bool, optOut: set<Method>)

  /** Where the processor loop is. */
  datatype Processor =
    | Idle
    | Opening(connection: ConnectionId)
    | Announced(connection: ConnectionId)
    | Closing(connection: ConnectionId)
    | Retracted(connection: ConnectionId)
    | Forgetting(connection: ConnectionId)
    | Rejecting(connection: ConnectionId)
    | Replying(connection: ConnectionId)
    | ReplySent(connection: ConnectionId)
    | Serving(connection: ConnectionId)
    | Copying(connection: ConnectionId)
    | Attaching(thread: ThreadId, todo: seq<ConnectionId>)

  /** Where the router loop is. */
  datatype Router =
    | Waiting
    | Routing(message: Message, targets: seq<ConnectionId>, disconnected: seq<ConnectionId>)

  /** A listener task's handle for sending to the subscribers it saw. */
  datatype Sender = Sender(thread: ThreadId, ids: seq<ConnectionId>)

  /** A thread state that left the manager while a listener task still had it. */
  datatype Detached = Detached(thread: ThreadId, state: Thread)

  /** What happened, in order. `Taken` marks the router taking an envelope off its queue. */
  datatype Record =
    | Accepted(connection: ConnectionId)
    | Opted(connection: ConnectionId, methods: set<Method>)
    | Joined(thread: ThreadId, connection: ConnectionId)
    | Taken
    | Wrote(connection: ConnectionId, message: Message)

  const CHANNEL_CAPACITY := 128

  datatype Server = Server(
    phases: map<ConnectionId, Phase>,
    events: seq<Event>,
    processor: Processor,
    introduced: set<ConnectionId>,
    connections: map<ConnectionId, Session>,
    manager: Manager,
    detached: set<Detached>,
    senders: set<Sender>,
    sending: seq<seq<Envelope>>,
    control: seq<Control>,
    outgoing: seq<Envelope>,
    outbound: set<ConnectionId>,
    router: Router,
    pendingClosed: seq<ConnectionId>,
    cells: map<ConnectionId, Cell>,
    history: seq<Record>
  )

  const START := Server(map[], [], Idle, {}, map[], NEW_MANAGER, {}, {}, [], [], [], {}, Waiting, [], map[], [])

  datatype Action =
    // Clients and their transport tasks
    | Connect(connection: ConnectionId)
    | Announce(connection: ConnectionId)
    | Say(connection: ConnectionId, incoming: Incoming)
    | Overload(connection: ConnectionId)
    | Hangup(connection: ConnectionId)
    // The processor
    | TakeEvent
    | Proceed
    | Serve(op: Op)
    | ThreadCreated(thread: ThreadId, order: seq<ConnectionId>)
    | AttachNext(found: Option<Conversation>)
    // Any task that holds a message sender
    | Reply(connection: ConnectionId, message: Message)
    | BroadcastAll(message: Message)
    | Snapshot(thread: ThreadId, state: Thread, ids: seq<ConnectionId>)
    | SendScoped(sender: Sender, message: Message)
    | Enqueue(index: nat)
    // The router
    | ApplyControl
    | Take(order: seq<ConnectionId>)
    | Deliver(alive: bool)
    | FinishRoute
    | Flush

  /** The sequence lists the set, each element once. */
  ghost predicate Enumerates(ids: seq<ConnectionId>, all: set<ConnectionId>) {
    |ids| == |all| && forall c :: c in ids <==> c in all
  }

  // --- Sending ---------------------------------------------------------------------------------------

  function ToEach(ids: seq<ConnectionId>, message: Message): seq<Envelope> {
    seq(|ids|, i requires 0 <= i < |ids| => ToConnection(ids[i], message))
  }

  /** The message sender: a list of no connections means every connection. */
  function SendToConnections(ids: seq<ConnectionId>, message: Message): seq<Envelope> {
    if ids == [] then [Broadcast(message)] else ToEach(ids, message)
  }

  /** The thread-scoped sender says nothing when nobody subscribes. */
  function SendToSubscribers(ids: seq<ConnectionId>, message: Message): seq<Envelope> {
    if ids == [] then [] else SendToConnections(ids, message)
  }

  predicate IsReply(message: Message) {
    message.Response? || message.Error?
  }

  // --- The processor -----------------------------------------------------------------------------------

  function TakeMessage(s: Server, c: ConnectionId, incoming: Incoming): Server {
    if incoming.NoRequest? || c !in s.connections then s
    else
      var session := s.connections[c];
      match incoming
      case Initialize(validName, experimentalApi, optOut) =>
        if session.initialized then s.(processor := Rejecting(c))
        else
          s.(
            connections := s.connections[c := session.(experimentalApi := experimentalApi, optOut := optOut)],
            processor := if validName then Replying(c) else Rejecting(c)
          )
      case OtherRequest(experimental) =>
        s.(processor := if session.initialized && (experimental ==> session.experimentalApi) then Serving(c) else Rejecting(c))
      case _ => s.(processor := Rejecting(c))
  }

  function DoTakeEvent(s: Server): Server
    requires s.events != []
  {
    var rest := s.(events := s.events[1..]);
    match s.events[0]
    case ConnectionOpened(c) =>
      rest.(processor := Opening(c), introduced := s.introduced + {c}, cells := s.cells[c := Cell(false, {})])
    case ConnectionClosed(c) => rest.(processor := Closing(c))
    case IncomingMessage(c, incoming) => TakeMessage(rest, c, incoming)
  }

  predicate CanProceed(s: Server) {
    match s.processor
    case Idle => false
    case ReplySent(c) => c in s.connections && c in s.cells
    case Copying(c) => c in s.connections && c in s.cells
    case Attaching(_, todo) => todo == []
    case _ => true
  }

  function DoProceed(s: Server): Server
    requires CanProceed(s)
  {
    match s.processor
    case Opening(c) => s.(control := s.control + [Opened(c)], processor := Announced(c))
    case Announced(c) => s.(connections := s.connections[c := Session(false, false, {})], processor := Idle)
    case Closing(c) => s.(control := s.control + [Closed(c)], processor := Retracted(c))
    case Retracted(c) => s.(manager := RemoveConnection(s.manager, c), processor := Forgetting(c))
    case Forgetting(c) => s.(connections := s.connections - {c}, processor := Idle)
    case Rejecting(c) => s.(outgoing := s.outgoing + [ToConnection(c, Error)], processor := Copying(c))
    case Replying(c) => s.(outgoing := s.outgoing + [ToConnection(c, Response)], processor := ReplySent(c))
    case ReplySent(c) =>
      s.(
        connections := s.connections[c := s.connections[c].(initialized := true)],
        cells := s.cells[c := s.cells[c].(initialized := true)],
        history := s.history + [Accepted(c)],
        processor := Copying(c)
      )
    case Serving(c) => s.(processor := Copying(c))
    case Copying(c) =>
      s.(
        cells := s.cells[c := s.cells[c].(optOut := s.connections[c].optOut)],
        history := s.history + [Opted(c, s.connections[c].optOut)],
        processor := Idle
      )
    case Attaching(_, _) => s.(processor := Idle)
    case Idle => s
  }

  /** A request handler works on the manager for the connection it serves, and never for another. */
  predicate CanServe(s: Server, op: Op) {
    && s.processor.Serving?
    && match op
      case AddListener(_, _, c, _, _) => c == s.processor.connection
      case Attach(_, c, _, _) => c == s.processor.connection
      case DropConnection(_) => false
      case _ => true
  }

  function DoManager(s: Server, op: Op): Server {
    var done := s.(manager := Apply(s.manager, op));
    match op
    case AddListener(_, t, c, _, _) => done.(history := s.history + [Joined(t, c)])
    case Attach(t, c, _, _) => done.(history := s.history + [Joined(t, c)])
    case DropThread(t) =>
      if t in s.manager.threads then done.(detached := s.detached + {Detached(t, s.manager.threads[t])}) else done
    case _ => done
  }

  function Initialized(s: Server): set<ConnectionId> {
    set c | c in s.connections && s.connections[c].initialized
  }

  function DoAttachNext(s: Server, found: Option<Conversation>): Server
    requires s.processor.Attaching? && s.processor.todo != []
  {
    var t, c := s.processor.thread, s.processor.todo[0];
    var attached := if found.None? then s else DoManager(s, Attach(t, c, false, found.value));
    attached.(processor := Attaching(t, s.processor.todo[1..]))
  }

  // --- The router ----------------------------------------------------------------------------------------

  function Controlled(outbound: set<ConnectionId>, control: Control): set<ConnectionId> {
    match control
    case Opened(c) => outbound + {c}
    case Closed(c) => outbound - {c}
  }

  /** `should_skip_notification_for_connection` */
  predicate Skipped(s: Server, c: ConnectionId, message: Message) {
    c in s.cells && message.Notification? && message.name in s.cells[c].optOut
  }

  function BroadcastTargets(s: Server, message: Message): set<ConnectionId> {
    set c | c in s.outbound && c in s.cells && s.cells[c].initialized && !Skipped(s, c, message)
  }

  function DoTake(s: Server, order: seq<ConnectionId>): Server
    requires s.outgoing != []
  {
    var envelope := s.outgoing[0];
    var targets := match envelope
      case ToConnection(c, message) => if c in s.outbound && !Skipped(s, c, message) then [c] else []
      case Broadcast(_) => order;
    s.(outgoing := s.outgoing[1..], router := Routing(envelope.message, targets, []), history := s.history + [Taken])
  }

  /** One write; a connection whose writer is gone is taken off the map and reported. */
  function DoDeliver(s: Server, alive: bool): Server
    requires s.router.Routing? && s.router.targets != []
  {
    var c := s.router.targets[0];
    var rest := s.(router := s.router.(targets := s.router.targets[1..]));
    if c !in s.outbound then rest
    else if alive then rest.(history := s.history + [Wrote(c, s.router.message)])
    else
      rest.(
        outbound := s.outbound - {c},
        router := rest.router.(disconnected := s.router.disconnected + [c])
      )
  }

  // --- Steps and runs ------------------------------------------------------------------------------------

  predicate HasRoom(s: Server) {
    |s.events| < CHANNEL_CAPACITY
  }

  ghost predicate Can(s: Server, a: Action) {
    match a
    case Connect(c) => c !in s.phases
    case Announce(c) => c in s.phases && s.phases[c] == Connecting && HasRoom(s)
    case Say(c, _) => c in s.phases && s.phases[c] == Live && HasRoom(s)
    case Overload(c) => c in s.phases && s.phases[c] == Live && !HasRoom(s)
    case Hangup(c) => c in s.phases && s.phases[c] == Live && HasRoom(s)
    case TakeEvent => s.processor.Idle? && s.events != []
    case Proceed => CanProceed(s)
    case Serve(op) => CanServe(s, op)
    case ThreadCreated(_, order) => s.processor.Idle? && Enumerates(order, Initialized(s))
    case AttachNext(_) => s.processor.Attaching? && s.processor.todo != []
    case Reply(_, message) => IsReply(message)
    case BroadcastAll(message) => !IsReply(message) && message.scope.None?
    case Snapshot(t, state, ids) =>
      Enumerates(ids, state.subscribed) && ((t in s.manager.threads && s.manager.threads[t] == state) || Detached(t, state) in s.detached)
    case SendScoped(sender, message) => sender in s.senders && !IsReply(message) && message.scope == Some(sender.thread)
    case Enqueue(k) => k < |s.sending| && s.sending[k] != []
    case ApplyControl => s.router.Waiting? && s.control != []
    case Take(order) =>
      && s.router.Waiting? && s.outgoing != []
      && (s.outgoing[0].Broadcast? ==> Enumerates(order, BroadcastTargets(s, s.outgoing[0].message)))
    case Deliver(_) => s.router.Routing? && s.router.targets != []
    case FinishRoute => s.router.Routing? && s.router.targets == []
    case Flush => s.router.Waiting? && s.pendingClosed != [] && HasRoom(s)
  }

  ghost function Do(s: Server, a: Action): Server
    requires Can(s, a)
  {
    match a
    case Connect(c) => s.(phases := s.phases[c := Connecting])
    case Announce(c) => s.(phases := s.phases[c := Live], events := s.events + [ConnectionOpened(c)])
    case Say(c, incoming) => s.(events := s.events + [IncomingMessage(c, incoming)])
    case Overload(c) => s.(history := s.history + [Wrote(c, Error)])
    case Hangup(c) => s.(phases := s.phases[c := Gone], events := s.events + [ConnectionClosed(c)])
    case TakeEvent => DoTakeEvent(s)
    case Proceed => DoProceed(s)
    case Serve(op) => DoManager(s, op)
    case ThreadCreated(t, order) => s.(processor := Attaching(t, order))
    case AttachNext(found) => DoAttachNext(s, found)
    case Reply(c, message) => s.(outgoing := s.outgoing + [ToConnection(c, message)])
    case BroadcastAll(message) => s.(outgoing := s.outgoing + [Broadcast(message)])
    case Snapshot(t, _, ids) => s.(senders := s.senders + {Sender(t, ids)})
    case SendScoped(sender, message) => s.(sending := s.sending + [SendToSubscribers(sender.ids, message)])
    case Enqueue(k) =>
      s.(outgoing := s.outgoing + [s.sending[k][0]], sending := s.sending[k := s.sending[k][1..]])
    case ApplyControl => s.(outbound := Controlled(s.outbound, s.control[0]), control := s.control[1..])
    case Take(order) => DoTake(s, order)
    case Deliver(alive) => DoDeliver(s, alive)
    case FinishRoute => s.(pendingClosed := s.pendingClosed + s.router.disconnected, router := Waiting)
    case Flush => s.(events := s.events + [ConnectionClosed(s.pendingClosed[0])], pendingClosed := s.pendingClosed[1..])
  }

  ghost predicate CanRun(actions: seq<Action>)
    decreases |actions|, 0
  {
    actions == [] || (CanRun(actions[..|actions| - 1]) && Can(After(actions[..|actions| - 1]), actions[|actions| - 1]))
  }

  /** The state after a run from the start. */
  ghost function After(actions: seq<Action>): Server
    requires CanRun(actions)
    decreases |actions|, 1
  {
    if actions == [] then START else Do(After(actions[..|actions| - 1]), actions[|actions| - 1])
  }

  ghost predicate Reachable(s: Server) {
    exists actions :: CanRun(actions) && After(actions) == s
  }

  lemma ReachStart()
    ensures Reachable(START)
  {
    assert CanRun([]) && After([]) == START;
  }

  lemma ReachStep(s: Server, a: Action)
    requires Reachable(s) && Can(s, a)
    ensures Reachable(Do(s, a))
  {
    var actions :| CanRun(actions) && After(actions) == s;
    assert (actions + [a])[..|actions|] == actions;
    assert CanRun(actions + [a]) && After(actions + [a]) == Do(s, a);
  }
}
