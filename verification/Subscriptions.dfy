/**
  Which connections listen to which threads, which listener task serves each
  thread, and what every operation of the thread state manager does to both.
*/
module Subscriptions {
  import opened Wrappers

  type ThreadId = nat
  type ConnectionId = nat
  type SubscriptionId = nat
  /** A running conversation object, and the cancel signal of one listener task. */
  type Conversation = nat
  type Token = nat

  datatype Thread = Thread(
    subscribed: set<ConnectionId>,
    cancel: Option<Token>,
    listener: Option<Conversation>,
    rawEvents: bool
  ) {
    function Cleared(): Thread {
      this.(cancel := None, listener := None)
    }

    /** Without the connection; the listener goes with the last one. */
    function Without(c: ConnectionId): Thread {
      var rest := this.(subscribed := subscribed - {c});
      if rest.subscribed == {} then rest.Cleared() else rest
    }
  }

  const NEW_THREAD := Thread({}, None, None, false)

  datatype Subscription = Subscription(thread: ThreadId, connection: ConnectionId)

  /** The manager's three maps, the listener tasks spawned, and the cancel signals sent so far. */
  datatype Manager = Manager(
    threads: map<ThreadId, Thread>,
    subscriptions: map<SubscriptionId, Subscription>,
    byConnection: map<ConnectionId, set<ThreadId>>,
    spawned: nat,
    signals: multiset<Token>
  ) {
    predicate Lists(c: ConnectionId, t: ThreadId) {
      c in byConnection && t in byConnection[c]
    }

    predicate Subscribed(t: ThreadId, c: ConnectionId) {
      t in threads && c in threads[t].subscribed
    }

    predicate Holds(t: ThreadId, k: Token) {
      t in threads && threads[t].cancel == Some(k)
    }
  }

  const NEW_MANAGER := Manager(map[], map[], map[], 0, multiset{})

  function Signal(token: Option<Token>): multiset<Token> {
    match token
    case None => multiset{}
    case Some(k) => multiset{k}
  }

  // --- The operations --------------------------------------------------------------------------------

  function WithThread(threads: map<ThreadId, Thread>, t: ThreadId): map<ThreadId, Thread> {
    if t in threads then threads else threads[t := NEW_THREAD]
  }

  /** `thread_state`: every thread asked for is known from then on. */
  function TouchThread(m: Manager, t: ThreadId): Manager {
    m.(threads := WithThread(m.threads, t))
  }

  /** The thread's entry is put on the connection's list. */
  function Listed(byConnection: map<ConnectionId, set<ThreadId>>, c: ConnectionId, t: ThreadId): map<ConnectionId, set<ThreadId>> {
    byConnection[c := (if c in byConnection then byConnection[c] else {}) + {t}]
  }

  function Joined(thread: Thread, c: ConnectionId, rawEvents: bool): Thread {
    thread.(subscribed := thread.subscribed + {c}, rawEvents := rawEvents)
  }

  /** Connection and thread know each other from now on. */
  function Link(m: Manager, t: ThreadId, c: ConnectionId, rawEvents: bool): Manager {
    var threads := WithThread(m.threads, t);
    m.(byConnection := Listed(m.byConnection, c, t), threads := threads[t := Joined(threads[t], c, rawEvents)])
  }

  /** `set_listener` of the manager: the last caller decides about raw events. */
  function SetListener(m: Manager, id: SubscriptionId, t: ThreadId, c: ConnectionId, rawEvents: bool): Manager {
    Link(m.(subscriptions := m.subscriptions[id := Subscription(t, c)]), t, c, rawEvents)
  }

  /** `ensure_connection_subscribed`: raw events are switched on, never off. */
  function EnsureSubscribed(m: Manager, t: ThreadId, c: ConnectionId, rawEvents: bool): Manager {
    Link(m, t, c, rawEvents || (t in m.threads && m.threads[t].rawEvents))
  }

  /** `ensure_listener_task_running`: unless the conversation is being listened to, a new task replaces the old one. */
  function EnsureTask(m: Manager, t: ThreadId, conversation: Conversation): Manager
    requires t in m.threads
  {
    var thread := m.threads[t];
    if thread.listener == Some(conversation) then m
    else
      m.(
        threads := m.threads[t := thread.(cancel := Some(m.spawned), listener := Some(conversation))],
        spawned := m.spawned + 1,
        signals := m.signals + Signal(thread.cancel)
      )
  }

  /** The thread's entry is taken off the connection's list, and an empty list is dropped. */
  function Unlisted(byConnection: map<ConnectionId, set<ThreadId>>, c: ConnectionId, t: ThreadId): map<ConnectionId, set<ThreadId>> {
    if c !in byConnection then byConnection
    else if byConnection[c] - {t} == {} then byConnection - {c}
    else byConnection[c := byConnection[c] - {t}]
  }

  predicate StillSubscribed(subscriptions: map<SubscriptionId, Subscription>, s: Subscription) {
    exists id | id in subscriptions :: subscriptions[id] == s
  }

  /** The thread's own part of `remove_listener`: without its last subscriber it stops listening. */
  function AfterLeaving(m: Manager, t: ThreadId, c: ConnectionId, stays: bool): Manager {
    if t !in m.threads then m
    else
      var before := m.threads[t];
      var kept := if stays then before else before.(subscribed := before.subscribed - {c});
      if kept.subscribed == {} then
        m.(threads := m.threads[t := kept.Cleared()], signals := m.signals + Signal(kept.cancel))
      else
        m.(threads := m.threads[t := kept])
  }

  /** `remove_listener`, when there is such a subscription. */
  function RemoveListener(m: Manager, id: SubscriptionId): Manager
    requires id in m.subscriptions
  {
    var s := m.subscriptions[id];
    var rest := m.subscriptions - {id};
    var stays := StillSubscribed(rest, s);
    var byConnection := if stays then m.byConnection else Unlisted(m.byConnection, s.connection, s.thread);
    AfterLeaving(m.(subscriptions := rest, byConnection := byConnection), s.thread, s.connection, stays)
  }

  /** The subscriptions of all other threads. */
  function OfOtherThreads(subscriptions: map<SubscriptionId, Subscription>, t: ThreadId): map<SubscriptionId, Subscription> {
    map id | id in subscriptions && subscriptions[id].thread != t :: subscriptions[id]
  }

  /** The subscriptions of all other connections. */
  function OfOtherConnections(subscriptions: map<SubscriptionId, Subscription>, c: ConnectionId): map<SubscriptionId, Subscription> {
    map id | id in subscriptions && subscriptions[id].connection != c :: subscriptions[id]
  }

  /** The thread's entry is taken off every list, and empty lists are dropped. */
  function UnlistedEverywhere(byConnection: map<ConnectionId, set<ThreadId>>, t: ThreadId): map<ConnectionId, set<ThreadId>> {
    map c | c in byConnection && byConnection[c] - {t} != {} :: byConnection[c] - {t}
  }

  /** `remove_thread_state` */
  function RemoveThread(m: Manager, t: ThreadId): Manager {
    m.(
      threads := m.threads - {t},
      subscriptions := OfOtherThreads(m.subscriptions, t),
      byConnection := UnlistedEverywhere(m.byConnection, t),
      signals := m.signals + if t in m.threads then Signal(m.threads[t].cancel) else multiset{}
    )
  }

  /** The cancel signals sent when a connection leaves these threads. */
  function LastTokens(m: Manager, c: ConnectionId, left: set<ThreadId>): set<Token> {
    set t | t in left && t in m.threads && m.threads[t].cancel.Some? && m.threads[t].subscribed - {c} == {} :: m.threads[t].cancel.value
  }

  function WithoutConnection(threads: map<ThreadId, Thread>, c: ConnectionId, left: set<ThreadId>): map<ThreadId, Thread> {
    map t | t in threads :: if t in left then threads[t].Without(c) else threads[t]
  }

  /** The connection leaves all these threads. */
  function LeaveThreads(m: Manager, c: ConnectionId, left: set<ThreadId>): Manager {
    m.(
      threads := WithoutConnection(m.threads, c, left),
      signals := m.signals + multiset(LastTokens(m, c, left))
    )
  }

  /** `remove_connection`, with its early return for a connection on no thread's list. */
  function RemoveConnection(m: Manager, c: ConnectionId): Manager {
    if c !in m.byConnection then m
    else
      LeaveThreads(m, c, m.byConnection[c]).(
        byConnection := m.byConnection - {c},
        subscriptions := OfOtherConnections(m.subscriptions, c)
      )
  }

  // --- The invariant ---------------------------------------------------------------------------------

  /** The three maps agree with each other. */
  ghost predicate MapsAgree(m: Manager) {
    && (forall c, t :: m.Lists(c, t) <==> m.Subscribed(t, c))
    && (forall id | id in m.subscriptions :: m.Lists(m.subscriptions[id].connection, m.subscriptions[id].thread))
    && (forall c | c in m.byConnection :: m.byConnection[c] != {})
  }

  /**
    Listener tasks are conserved: the cancel signal of each task spawned was
    sent once, or it is still held by exactly one thread in the map.
  */
  ghost predicate TokensConserved(m: Manager) {
    && (forall t, k: Token :: m.Holds(t, k) ==> k < m.spawned)
    && (forall t, u, k: Token :: m.Holds(t, k) && m.Holds(u, k) ==> t == u)
    && (forall k: Token :: m.signals[k] <= 1)
    && (forall k: Token | k in m.signals :: k < m.spawned)
    && (forall k: nat | k < m.spawned :: k !in m.signals <==> exists t :: m.Holds(t, k))
  }

  /** A thread remembers a conversation exactly when it holds the cancel signal of a task for it. */
  ghost predicate ListenersHaveTokens(m: Manager) {
    forall t | t in m.threads :: m.threads[t].cancel.Some? <==> m.threads[t].listener.Some?
  }

  /** A thread is being listened to exactly when somebody subscribes to it. */
  ghost predicate TasksServeSubscribers(m: Manager) {
    forall t | t in m.threads :: m.threads[t].cancel.Some? <==> m.threads[t].subscribed != {}
  }

  ghost predicate Inv(m: Manager) {
    MapsAgree(m) && TokensConserved(m) && ListenersHaveTokens(m) && TasksServeSubscribers(m)
  }

  // --- Steps of the processor --------------------------------------------------------------------------

  datatype Op =
    | Touch(thread: ThreadId)
    | AddListener(id: SubscriptionId, thread: ThreadId, connection: ConnectionId, rawEvents: bool, conversation: Conversation)
    | Attach(thread: ThreadId, connection: ConnectionId, rawEvents: bool, conversation: Conversation)
    | DropListener(id: SubscriptionId)
    | DropThread(thread: ThreadId)
    | DropConnection(connection: ConnectionId)

  function Apply(m: Manager, op: Op): Manager {
    match op
    case Touch(t) => TouchThread(m, t)
    case AddListener(id, t, c, raw, conversation) => EnsureTask(SetListener(m, id, t, c, raw), t, conversation)
    case Attach(t, c, raw, conversation) => EnsureTask(EnsureSubscribed(m, t, c, raw), t, conversation)
    case DropListener(id) => if id in m.subscriptions then RemoveListener(m, id) else m
    case DropThread(t) => RemoveThread(m, t)
    case DropConnection(c) => RemoveConnection(m, c)
  }

  function Run(ops: seq<Op>): Manager {
    if ops == [] then NEW_MANAGER else Apply(Run(ops[..|ops| - 1]), ops[|ops| - 1])
  }

  lemma LinkAgrees(m: Manager, t: ThreadId, c: ConnectionId, rawEvents: bool)
    requires MapsAgree(m)
    ensures MapsAgree(Link(m, t, c, rawEvents))
    ensures Link(m, t, c, rawEvents).Subscribed(t, c)
  {
    var m' := Link(m, t, c, rawEvents);
    forall d, u ensures m'.Lists(d, u) <==> m'.Subscribed(u, d) {
      assert m.Lists(d, u) <==> m.Subscribed(u, d);
    }
    forall id | id in m'.subscriptions ensures m'.Lists(m'.subscriptions[id].connection, m'.subscriptions[id].thread) {
      assert m.Lists(m.subscriptions[id].connection, m.subscriptions[id].thread);
    }
  }

  lemma SetListenerAgrees(m: Manager, id: SubscriptionId, t: ThreadId, c: ConnectionId, rawEvents: bool)
    requires MapsAgree(m)
    ensures MapsAgree(SetListener(m, id, t, c, rawEvents))
  {
    LinkAgrees(m, t, c, rawEvents);
    var linked, m' := Link(m, t, c, rawEvents), SetListener(m, id, t, c, rawEvents);
    assert linked.threads == m'.threads && linked.byConnection == m'.byConnection;
    forall d, u ensures m'.Lists(d, u) <==> m'.Subscribed(u, d) {
      assert linked.Lists(d, u) <==> linked.Subscribed(u, d);
    }
    forall i | i in m'.subscriptions ensures m'.Lists(m'.subscriptions[i].connection, m'.subscriptions[i].thread) {
      if i != id {
        assert linked.Lists(linked.subscriptions[i].connection, linked.subscriptions[i].thread);
      }
    }
  }

  /** Exactly the pair of the removed subscription is affected, and it survives only by another explicit subscription. */
  lemma RemoveListenerSubscribers(m: Manager, id: SubscriptionId, u: ThreadId, d: ConnectionId)
    requires MapsAgree(m) && id in m.subscriptions
    ensures Subscription(u, d) != m.subscriptions[id] ==> (RemoveListener(m, id).Subscribed(u, d) <==> m.Subscribed(u, d))
    ensures Subscription(u, d) == m.subscriptions[id] ==>
      (RemoveListener(m, id).Subscribed(u, d) <==> StillSubscribed(m.subscriptions - {id}, m.subscriptions[id]))
    ensures RemoveListener(m, id).Lists(d, u) <==> RemoveListener(m, id).Subscribed(u, d)
  {
    assert m.Lists(d, u) <==> m.Subscribed(u, d);
    var s := m.subscriptions[id];
    assert m.Lists(s.connection, s.thread);
    assert m.Lists(s.connection, s.thread) <==> m.Subscribed(s.thread, s.connection);
    assert d == s.connection && u != s.thread && m.Lists(d, u) ==> u in m.byConnection[d] - {s.thread};
  }

  lemma RemoveListenerAgrees(m: Manager, id: SubscriptionId)
    requires MapsAgree(m) && id in m.subscriptions
    ensures MapsAgree(RemoveListener(m, id))
  {
    var m' := RemoveListener(m, id);
    var s, rest := m.subscriptions[id], m.subscriptions - {id};
    forall d, u ensures m'.Lists(d, u) <==> m'.Subscribed(u, d) {
      RemoveListenerSubscribers(m, id, u, d);
    }
    forall i | i in m'.subscriptions ensures m'.Lists(m'.subscriptions[i].connection, m'.subscriptions[i].thread) {
      var other := m.subscriptions[i];
      assert m.Lists(other.connection, other.thread);
      assert rest[i] == other;
      assert other == s ==> StillSubscribed(rest, s);
      assert m.Lists(other.connection, other.thread) <==> m.Subscribed(other.thread, other.connection);
      RemoveListenerSubscribers(m, id, other.thread, other.connection);
    }
  }

  lemma RemoveThreadAgrees(m: Manager, t: ThreadId)
    requires MapsAgree(m)
    ensures MapsAgree(RemoveThread(m, t))
  {
    var m' := RemoveThread(m, t);
    forall d, u ensures m'.Lists(d, u) <==> m'.Subscribed(u, d) {
      assert m.Lists(d, u) <==> m.Subscribed(u, d);
    }
    forall i | i in m'.subscriptions ensures m'.Lists(m'.subscriptions[i].connection, m'.subscriptions[i].thread) {
      assert m.Lists(m.subscriptions[i].connection, m.subscriptions[i].thread);
    }
  }

  lemma RemoveConnectionAgrees(m: Manager, c: ConnectionId)
    requires MapsAgree(m)
    ensures MapsAgree(RemoveConnection(m, c))
  {
    var m' := RemoveConnection(m, c);
    forall d, u ensures m'.Lists(d, u) <==> m'.Subscribed(u, d) {
      assert m.Lists(d, u) <==> m.Subscribed(u, d);
    }
    forall i | i in m'.subscriptions ensures m'.Lists(m'.subscriptions[i].connection, m'.subscriptions[i].thread) {
      assert m.Lists(m.subscriptions[i].connection, m.subscriptions[i].thread);
    }
  }

  // --- Listener tasks --------------------------------------------------------------------------------

  /** Signalling exactly the cancel signals that stop being held keeps the tokens conserved. */
  lemma ReleaseConserves(m: Manager, m': Manager, released: set<Token>)
    requires TokensConserved(m) && m'.spawned == m.spawned && m'.signals == m.signals + multiset(released)
    requires forall t, k :: m'.Holds(t, k) <==> m.Holds(t, k) && k !in released
    requires forall k | k in released :: exists t :: m.Holds(t, k)
    ensures TokensConserved(m')
  {
    forall k ensures m'.signals[k] <= 1 && (k in m'.signals ==> k < m'.spawned) {
      if k in released {
        var t :| m.Holds(t, k);
        assert k < m.spawned && k !in m.signals;
      }
    }
    forall k: nat | k < m'.spawned ensures k !in m'.signals <==> exists t :: m'.Holds(t, k) {
      if k !in m'.signals {
        var t :| m.Holds(t, k);
        assert m'.Holds(t, k);
      }
      if t :| m'.Holds(t, k) {
        assert m.Holds(t, k);
      }
    }
  }

  /** Nothing that is held or signalled has changed. */
  lemma SameTokens(m: Manager, m': Manager)
    requires TokensConserved(m) && m'.spawned == m.spawned && m'.signals == m.signals
    requires forall t, k :: m'.Holds(t, k) <==> m.Holds(t, k)
    ensures TokensConserved(m')
  {
    assert m'.signals == m.signals + multiset({});
    ReleaseConserves(m, m', {});
  }

  lemma EnsureTaskConserves(m: Manager, t: ThreadId, conversation: Conversation)
    requires t in m.threads && TokensConserved(m)
    ensures TokensConserved(EnsureTask(m, t, conversation))
  {
    var thread := m.threads[t];
    if thread.listener != Some(conversation) {
      var stopped := m.(threads := m.threads[t := thread.Cleared()], signals := m.signals + Signal(thread.cancel));
      assert thread.cancel.Some? ==> m.Holds(t, thread.cancel.value);
      var released: set<Token> := if thread.cancel.Some? then {thread.cancel.value} else {};
      assert Signal(thread.cancel) == multiset(released);
      forall u, k: Token ensures stopped.Holds(u, k) <==> m.Holds(u, k) && k !in released {
        if k in released && m.Holds(u, k) {
          assert m.Holds(t, k);
        }
      }
      ReleaseConserves(m, stopped, released);
      var m' := EnsureTask(m, t, conversation);
      assert m'.Holds(t, m.spawned);
      forall u, k: Token ensures m'.Holds(u, k) <==> if k == m.spawned then u == t else stopped.Holds(u, k) {
        assert stopped.Holds(u, k) ==> k < m.spawned;
      }
      assert m.spawned !in stopped.signals;
      forall k: nat | k < m'.spawned ensures k !in m'.signals <==> exists u :: m'.Holds(u, k) {
        if k < m.spawned {
          if u :| stopped.Holds(u, k) { assert m'.Holds(u, k); }
          if u :| m'.Holds(u, k) { assert stopped.Holds(u, k); }
        }
      }
    }
  }

  /** One thread may let go of its task, signalling it. */
  lemma OneReleaseConserves(m: Manager, m': Manager, t: ThreadId)
    requires TokensConserved(m) && m'.spawned == m.spawned
    requires forall u, k :: u != t ==> (m'.Holds(u, k) <==> m.Holds(u, k))
    requires t in m'.threads && t in m.threads && m'.threads[t].cancel == m.threads[t].cancel ==> m'.signals == m.signals
    requires t in m.threads && (t !in m'.threads || m'.threads[t].cancel != m.threads[t].cancel) ==>
      (t in m'.threads ==> m'.threads[t].cancel.None?) && m'.signals == m.signals + Signal(m.threads[t].cancel)
    requires t !in m.threads ==> t !in m'.threads && m'.signals == m.signals
    ensures TokensConserved(m')
  {
    if t in m.threads && m.threads[t].cancel.Some? && (t !in m'.threads || m'.threads[t].cancel != m.threads[t].cancel) {
      var k := m.threads[t].cancel.value;
      assert m.Holds(t, k);
      assert Signal(m.threads[t].cancel) == multiset({k});
      ReleaseConserves(m, m', {k});
    } else {
      SameTokens(m, m');
    }
  }

  lemma RemoveListenerConserves(m: Manager, id: SubscriptionId)
    requires id in m.subscriptions && TokensConserved(m)
    ensures TokensConserved(RemoveListener(m, id))
  {
    OneReleaseConserves(m, RemoveListener(m, id), m.subscriptions[id].thread);
  }

  lemma RemoveThreadConserves(m: Manager, t: ThreadId)
    requires TokensConserved(m)
    ensures TokensConserved(RemoveThread(m, t))
  {
    OneReleaseConserves(m, RemoveThread(m, t), t);
  }

  lemma RemoveConnectionConserves(m: Manager, c: ConnectionId)
    requires TokensConserved(m)
    ensures TokensConserved(RemoveConnection(m, c))
  {
    var m' := RemoveConnection(m, c);
    if c in m.byConnection {
      var left := m.byConnection[c];
      var released := LastTokens(m, c, left);
      forall k | k in released ensures exists t :: m.Holds(t, k) {
        var t :| t in left && t in m.threads && m.threads[t].cancel.Some? && m.threads[t].cancel.value == k;
        assert m.Holds(t, k);
      }
      forall t, k ensures m'.Holds(t, k) <==> m.Holds(t, k) && k !in released {
        if m.Holds(t, k) && k in released {
          var u :| u in left && u in m.threads && m.threads[u].cancel.Some? && m.threads[u].subscribed - {c} == {} && m.threads[u].cancel.value == k;
          assert m.Holds(u, k) && u == t;
        }
      }
      ReleaseConserves(m, m', released);
    }
  }

  /** Starting a task signals the token of the one it replaces, if it replaces one, and no other. */
  lemma ReplacementSignals(m: Manager, t: ThreadId, conversation: Conversation, k: Token)
    requires t in m.threads && TokensConserved(m)
    ensures k in EnsureTask(m, t, conversation).signals && k !in m.signals <==>
      m.Holds(t, k) && m.threads[t].listener != Some(conversation)
  {
    assert m.Holds(t, k) ==> k < m.spawned && k !in m.signals;
  }

  /** Removing a connection signals exactly the tokens of the threads that it alone subscribed to. */
  lemma RemovalSignals(m: Manager, c: ConnectionId, k: Token)
    requires MapsAgree(m) && TokensConserved(m)
    ensures k in RemoveConnection(m, c).signals && k !in m.signals <==>
      exists t :: m.Holds(t, k) && m.threads[t].subscribed == {c}
  {
    if t :| m.Holds(t, k) && m.threads[t].subscribed == {c} {
      assert m.Subscribed(t, c) && (m.Lists(c, t) <==> m.Subscribed(t, c));
      assert k < m.spawned && k !in m.signals;
      assert k in LastTokens(m, c, m.byConnection[c]);
    }
    if k in RemoveConnection(m, c).signals && k !in m.signals {
      var left := m.byConnection[c];
      assert k in LastTokens(m, c, left);
      var t :| t in left && t in m.threads && m.threads[t].cancel == Some(k) && m.threads[t].subscribed - {c} == {};
      assert m.Lists(c, t) && (m.Lists(c, t) <==> m.Subscribed(t, c));
      assert m.Holds(t, k) && m.threads[t].subscribed == {c};
    }
  }

  /** One more thread left adds its token, if it was the last subscriber, and no token twice. */
  lemma LastTokensOneMore(m: Manager, c: ConnectionId, left: set<ThreadId>, t: ThreadId)
    requires TokensConserved(m) && t !in left
    ensures multiset(LastTokens(m, c, left + {t})) == multiset(LastTokens(m, c, left)) + (
      if t in m.threads && m.threads[t].subscribed - {c} == {} then Signal(m.threads[t].cancel) else multiset{})
  {
    var before, after := LastTokens(m, c, left), LastTokens(m, c, left + {t});
    if t in m.threads && m.threads[t].subscribed - {c} == {} && m.threads[t].cancel.Some? {
      var k := m.threads[t].cancel.value;
      assert m.Holds(t, k);
      forall u | u in left && u in m.threads && m.threads[u].cancel.Some? ensures m.threads[u].cancel.value != k {
        assert m.Holds(u, m.threads[u].cancel.value);
      }
      assert k !in before;
      assert after == before + {k};
    } else {
      assert after == before;
    }
  }

  lemma WithoutOneMore(threads: map<ThreadId, Thread>, c: ConnectionId, left: set<ThreadId>, t: ThreadId)
    requires t !in left && t in threads
    ensures WithoutConnection(threads, c, left + {t}) == WithoutConnection(threads, c, left)[t := threads[t].Without(c)]
  {
  }

  /** Leaving the threads one by one. */
  lemma LeaveOneMore(m: Manager, c: ConnectionId, left: set<ThreadId>, t: ThreadId)
    requires TokensConserved(m) && t !in left
    ensures AfterLeaving(LeaveThreads(m, c, left), t, c, false) == LeaveThreads(m, c, left + {t})
  {
    LastTokensOneMore(m, c, left, t);
    if t in m.threads {
      WithoutOneMore(m.threads, c, left, t);
      SignalsOneMore(m, c, left, t);
    } else {
      assert WithoutConnection(m.threads, c, left + {t}) == WithoutConnection(m.threads, c, left);
    }
  }

  lemma SignalsOneMore(m: Manager, c: ConnectionId, left: set<ThreadId>, t: ThreadId)
    requires t in m.threads
    requires multiset(LastTokens(m, c, left + {t})) == multiset(LastTokens(m, c, left)) + (
      if m.threads[t].subscribed - {c} == {} then Signal(m.threads[t].cancel) else multiset{})
    ensures LeaveThreads(m, c, left + {t}).signals == LeaveThreads(m, c, left).signals + (
      if m.threads[t].subscribed - {c} == {} then Signal(m.threads[t].cancel) else multiset{})
  {
  }

  // --- Every run ---------------------------------------------------------------------------------------

  /** Linking leaves everything in order but the task of that thread, which `EnsureTask` then sees to. */
  lemma LinkThenTask(m: Manager, linked: Manager, t: ThreadId, conversation: Conversation)
    requires t in linked.threads && linked.threads[t].subscribed != {}
    requires MapsAgree(linked) && TokensConserved(linked) && ListenersHaveTokens(linked)
    requires forall u | u in linked.threads && u != t :: linked.threads[u].cancel.Some? <==> linked.threads[u].subscribed != {}
    ensures Inv(EnsureTask(linked, t, conversation))
  {
    var m' := EnsureTask(linked, t, conversation);
    EnsureTaskConserves(linked, t, conversation);
    forall d, u ensures m'.Lists(d, u) <==> m'.Subscribed(u, d) {
      assert linked.Lists(d, u) <==> linked.Subscribed(u, d);
    }
    forall id | id in m'.subscriptions ensures m'.Lists(m'.subscriptions[id].connection, m'.subscriptions[id].thread) {
      assert linked.Lists(linked.subscriptions[id].connection, linked.subscriptions[id].thread);
    }
  }

  lemma DropListenerKeepsInv(m: Manager, id: SubscriptionId)
    requires Inv(m) && id in m.subscriptions
    ensures Inv(RemoveListener(m, id))
  {
    RemoveListenerAgrees(m, id);
    RemoveListenerConserves(m, id);
  }

  lemma DropThreadKeepsInv(m: Manager, t: ThreadId)
    requires Inv(m)
    ensures Inv(RemoveThread(m, t))
  {
    RemoveThreadAgrees(m, t);
    RemoveThreadConserves(m, t);
  }

  lemma DropConnectionKeepsInv(m: Manager, c: ConnectionId)
    requires Inv(m)
    ensures Inv(RemoveConnection(m, c))
  {
    RemoveConnectionAgrees(m, c);
    RemoveConnectionConserves(m, c);
  }

  lemma DropKeepsInv(m: Manager, op: Op)
    requires Inv(m) && (op.DropListener? || op.DropThread? || op.DropConnection?)
    ensures Inv(Apply(m, op))
  {
    match op
    case DropListener(id) =>
      if id in m.subscriptions {
        DropListenerKeepsInv(m, id);
      }
    case DropThread(t) => DropThreadKeepsInv(m, t);
    case DropConnection(c) => DropConnectionKeepsInv(m, c);
  }

  lemma AddKeepsInv(m: Manager, op: Op)
    requires Inv(m) && !(op.DropListener? || op.DropThread? || op.DropConnection?)
    ensures Inv(Apply(m, op))
  {
    match op
    case Touch(t) =>
      var m' := TouchThread(m, t);
      SameTokens(m, m');
      forall d, u ensures m'.Lists(d, u) <==> m'.Subscribed(u, d) {
        assert m.Lists(d, u) <==> m.Subscribed(u, d);
      }
      forall id | id in m'.subscriptions ensures m'.Lists(m'.subscriptions[id].connection, m'.subscriptions[id].thread) {
        assert m.Lists(m.subscriptions[id].connection, m.subscriptions[id].thread);
      }
    case AddListener(id, t, c, raw, conversation) =>
      SetListenerAgrees(m, id, t, c, raw);
      SameTokens(m, SetListener(m, id, t, c, raw));
      LinkThenTask(m, SetListener(m, id, t, c, raw), t, conversation);
    case Attach(t, c, raw, conversation) =>
      var linked := EnsureSubscribed(m, t, c, raw);
      LinkAgrees(m, t, c, raw || (t in m.threads && m.threads[t].rawEvents));
      SameTokens(m, linked);
      LinkThenTask(m, linked, t, conversation);
  }

  /** The invariant holds after every run of the manager. */
  lemma {:induction false} RunKeepsInv(ops: seq<Op>)
    ensures Inv(Run(ops))
  {
    if ops != [] {
      var m, op := Run(ops[..|ops| - 1]), ops[|ops| - 1];
      RunKeepsInv(ops[..|ops| - 1]);
      if op.DropListener? || op.DropThread? || op.DropConnection? {
        DropKeepsInv(m, op);
      } else {
        AddKeepsInv(m, op);
      }
    }
  }

  /** Nothing in the manager mentions the connection. */
  ghost predicate Forgotten(m: Manager, c: ConnectionId) {
    && c !in m.byConnection
    && (forall t | t in m.threads :: c !in m.threads[t].subscribed)
    && (forall id | id in m.subscriptions :: m.subscriptions[id].connection != c)
  }

  lemma UnlistedIsForgotten(m: Manager, c: ConnectionId)
    requires MapsAgree(m) && c !in m.byConnection
    ensures Forgotten(m, c)
  {
    forall t | t in m.threads ensures c !in m.threads[t].subscribed {
      assert m.Lists(c, t) <==> m.Subscribed(t, c);
    }
    forall id | id in m.subscriptions ensures m.subscriptions[id].connection != c {
      assert m.Lists(m.subscriptions[id].connection, m.subscriptions[id].thread);
    }
  }

  lemma RemoveConnectionSubscribers(m: Manager, c: ConnectionId, t: ThreadId, d: ConnectionId)
    requires MapsAgree(m) && d != c
    ensures RemoveConnection(m, c).Subscribed(t, d) <==> m.Subscribed(t, d)
  {
  }

  /**
    After any run, a connection without a list is not mentioned anywhere, so
    the early return of `remove_connection` forgets nothing, and removing any
    connection leaves no trace of it and every other connection as it was.
  */
  lemma RemovedConnectionIsForgotten(ops: seq<Op>, c: ConnectionId)
    ensures c !in Run(ops).byConnection <==> Forgotten(Run(ops), c)
    ensures Forgotten(RemoveConnection(Run(ops), c), c)
    ensures forall t, d | d != c :: RemoveConnection(Run(ops), c).Subscribed(t, d) <==> Run(ops).Subscribed(t, d)
  {
    RunKeepsInv(ops);
    var m := Run(ops);
    if c !in m.byConnection {
      UnlistedIsForgotten(m, c);
    }
    RemoveConnectionAgrees(m, c);
    UnlistedIsForgotten(RemoveConnection(m, c), c);
    forall t, d | d != c ensures RemoveConnection(m, c).Subscribed(t, d) <==> m.Subscribed(t, d) {
      RemoveConnectionSubscribers(m, c, t, d);
    }
  }

  /**
    Removing an explicit subscription takes the connection off the thread
    unless it has another explicit one there; that it had also been attached
    by the program itself makes no difference.
  */
  lemma ExplicitRemovalDecides(ops: seq<Op>, id: SubscriptionId, t: ThreadId, c: ConnectionId)
    requires id in Run(ops).subscriptions && Run(ops).subscriptions[id] == Subscription(t, c)
    ensures Run(ops).Subscribed(t, c)
    ensures Run(ops + [DropListener(id)]).Subscribed(t, c) <==> exists other | other in Run(ops).subscriptions && other != id :: Run(ops).subscriptions[other] == Subscription(t, c)
  {
    RunKeepsInv(ops);
    var m := Run(ops);
    assert m.Lists(c, t) <==> m.Subscribed(t, c);
    RemoveListenerSubscribers(m, id, t, c);
    assert (ops + [DropListener(id)])[..|ops|] == ops;
    if StillSubscribed(m.subscriptions - {id}, Subscription(t, c)) {
      var other :| other in m.subscriptions - {id} && (m.subscriptions - {id})[other] == Subscription(t, c);
      assert m.subscriptions[other] == Subscription(t, c);
    }
    if other :| other in m.subscriptions && other != id && m.subscriptions[other] == Subscription(t, c) {
      assert (m.subscriptions - {id})[other] == Subscription(t, c);
    }
  }

  /** So a connection attached by the program is lost once an explicit subscription of it is removed. */
  lemma ExplicitRemovalDropsAttachment(t: ThreadId, c: ConnectionId, id: SubscriptionId, conversation: Conversation)
    ensures Run([Attach(t, c, false, conversation)]).Subscribed(t, c)
    ensures !Run([Attach(t, c, false, conversation), AddListener(id, t, c, false, conversation)] + [DropListener(id)]).Subscribed(t, c)
  {
    var attach, add := Attach(t, c, false, conversation), AddListener(id, t, c, false, conversation);
    assert [attach][..0] == [] && [attach, add][..1] == [attach];
    assert Run([]) == NEW_MANAGER;
    assert Run([attach]) == Apply(NEW_MANAGER, attach);
    var m := Run([attach, add]);
    assert m == Apply(Run([attach]), add);
    assert m.subscriptions == map[id := Subscription(t, c)];
    ExplicitRemovalDecides([attach, add], id, t, c);
  }

  // --- What the operations are for -----------------------------------------------------------------------

  /** Only this pair is new among the subscriptions. */
  ghost predicate OnlyAdded(m: Manager, m': Manager, t: ThreadId, c: ConnectionId) {
    && (forall u, d :: m'.Subscribed(u, d) <==> m.Subscribed(u, d) || (u == t && d == c))
    && forall u | u != t :: (u in m'.threads <==> u in m.threads) && (u in m.threads ==> m'.threads[u] == m.threads[u])
  }

  /** An explicit subscription is recorded, the connection subscribed, the conversation listened to, and raw events as asked. */
  lemma ListenerIsAdded(m: Manager, id: SubscriptionId, t: ThreadId, c: ConnectionId, raw: bool, conversation: Conversation)
    ensures var m' := Apply(m, AddListener(id, t, c, raw, conversation));
      && m'.subscriptions == m.subscriptions[id := Subscription(t, c)] && OnlyAdded(m, m', t, c)
      && t in m'.threads && m'.threads[t].listener == Some(conversation) && m'.threads[t].rawEvents == raw
  {
  }

  /** An attachment records no subscription, and only ever switches raw events on. */
  lemma ConnectionIsAttached(m: Manager, t: ThreadId, c: ConnectionId, raw: bool, conversation: Conversation)
    ensures var m' := Apply(m, Attach(t, c, raw, conversation));
      && m'.subscriptions == m.subscriptions && OnlyAdded(m, m', t, c)
      && t in m'.threads && m'.threads[t].listener == Some(conversation)
      && m'.threads[t].rawEvents == (raw || (t in m.threads && m.threads[t].rawEvents))
  {
  }

  /** A removed thread is mentioned nowhere; the others, and the subscriptions to them, stay as they are. */
  lemma ThreadIsRemoved(m: Manager, t: ThreadId)
    ensures var m' := Apply(m, DropThread(t));
      && m'.threads == m.threads - {t}
      && (forall id :: id in m'.subscriptions <==> id in m.subscriptions && m.subscriptions[id].thread != t)
      && (forall id | id in m'.subscriptions :: m'.subscriptions[id] == m.subscriptions[id])
      && forall c, u :: m'.Lists(c, u) <==> m.Lists(c, u) && u != t
  {
    var m' := RemoveThread(m, t);
    forall c, u ensures m'.Lists(c, u) <==> m.Lists(c, u) && u != t {
      if m.Lists(c, u) && u != t {
        assert u in m.byConnection[c] - {t};
      }
    }
  }
}
