/**
  The thread state manager as the program runs it: shared thread objects that
  its methods update in place, each method proved to take the manager's
  contents to the contents that `Subscriptions` defines.
*/
module ThreadStates {
  import opened Wrappers
  import opened Subscriptions

  /** The one-shot channels that stop listener tasks: how many were made, and which were fired. */
  class Channels {
    var made: nat
    var sent: multiset<Token>

    constructor ()
      ensures made == 0 && sent == multiset{}
    {
      made, sent := 0, multiset{};
    }

    method Fire(token: Option<Token>)
      modifies this`sent
      ensures sent == old(sent) + Signal(token)
    {
      if token.Some? {
        sent := sent + multiset{token.value};
      }
    }
  }

  class ThreadState {
    /** The thread this is the state of. */
    ghost const owner: ThreadId
    var cancel: Option<Token>
    var listener: Option<Conversation>
    var subscribed: set<ConnectionId>
    var rawEvents: bool

    constructor (ghost owner: ThreadId)
      ensures View() == NEW_THREAD && this.owner == owner
    {
      this.owner := owner;
      cancel, listener, subscribed, rawEvents := None, None, {}, false;
    }

    ghost function View(): Thread
      reads this
    {
      Thread(subscribed, cancel, listener, rawEvents)
    }

    predicate ListenerMatches(conversation: Conversation)
      reads this
    {
      listener.Some? && listener.value == conversation
    }

    method SetListener(token: Token, conversation: Conversation, channels: Channels)
      modifies this`cancel, this`listener, channels`sent
      ensures View() == old(View()).(cancel := Some(token), listener := Some(conversation))
      ensures channels.sent == old(channels.sent) + Signal(old(cancel))
    {
      var previous := cancel;
      cancel := Some(token);
      channels.Fire(previous);
      listener := Some(conversation);
    }

    method ClearListener(channels: Channels)
      modifies this`cancel, this`listener, channels`sent
      ensures View() == old(View()).Cleared()
      ensures channels.sent == old(channels.sent) + Signal(old(cancel))
    {
      var previous := cancel;
      cancel := None;
      channels.Fire(previous);
      listener := None;
    }

    method AddConnection(c: ConnectionId)
      modifies this`subscribed
      ensures subscribed == old(subscribed) + {c}
    {
      subscribed := subscribed + {c};
    }

    method RemoveConnection(c: ConnectionId)
      modifies this`subscribed
      ensures subscribed == old(subscribed) - {c}
    {
      subscribed := subscribed - {c};
    }

    method SetExperimentalRawEvents(enabled: bool)
      modifies this`rawEvents
      ensures rawEvents == enabled
    {
      rawEvents := enabled;
    }
  }

  class ThreadStateManager {
    var threadStates: map<ThreadId, ThreadState>
    var subscriptionById: map<SubscriptionId, Subscription>
    var threadIdsByConnection: map<ConnectionId, set<ThreadId>>
    const channels: Channels

    constructor ()
      ensures Valid() && View() == NEW_MANAGER && fresh(channels)
    {
      threadStates, subscriptionById, threadIdsByConnection := map[], map[], map[];
      channels := new Channels();
    }

    /** Every thread has a state object of its own. */
    ghost predicate Valid()
      reads this
    {
      forall t | t in threadStates :: threadStates[t].owner == t
    }

    ghost function Threads(): map<ThreadId, Thread>
      reads this, threadStates.Values
    {
      map t | t in threadStates :: threadStates[t].View()
    }

    ghost function View(): Manager
      reads this, threadStates.Values, channels
    {
      Manager(Threads(), subscriptionById, threadIdsByConnection, channels.made, channels.sent)
    }

    /** Only the state of one thread has been written. */
    twostate lemma OneThreadChanged(t: ThreadId)
      requires Valid() && t in threadStates && threadStates == old(threadStates)
      requires forall u | u in threadStates && u != t :: threadStates[u].View() == old(threadStates[u].View())
      ensures Threads() == old(Threads())[t := threadStates[t].View()]
    {
    }

    /** `thread_state`: the state of the thread, made if there is none. */
    method StateOf(t: ThreadId) returns (state: ThreadState)
      requires Valid()
      modifies this`threadStates
      ensures Valid() && t in threadStates && state == threadStates[t]
      ensures fresh(threadStates.Values - old(threadStates.Values))
      ensures Threads() == WithThread(old(Threads()), t)
    {
      if t !in threadStates {
        var made := new ThreadState(t);
        threadStates := threadStates[t := made];
        assert Threads() == old(Threads())[t := NEW_THREAD];
      }
      state := threadStates[t];
    }

    method Enlist(c: ConnectionId, t: ThreadId)
      modifies this`threadIdsByConnection
      ensures threadIdsByConnection == Listed(old(threadIdsByConnection), c, t)
    {
      if c !in threadIdsByConnection {
        threadIdsByConnection := threadIdsByConnection[c := {}];
      }
      threadIdsByConnection := threadIdsByConnection[c := threadIdsByConnection[c] + {t}];
    }

    method SetListener(id: SubscriptionId, t: ThreadId, c: ConnectionId, rawEvents: bool) returns (state: ThreadState)
      requires Valid()
      modifies this, threadStates.Values
      ensures Valid() && t in threadStates && state == threadStates[t]
      ensures fresh(threadStates.Values - old(threadStates.Values))
      ensures View() == Subscriptions.SetListener(old(View()), id, t, c, rawEvents)
    {
      subscriptionById := subscriptionById[id := Subscription(t, c)];
      Enlist(c, t);
      assert Threads() == old(Threads());
      state := StateOf(t);
      ghost var touched := Threads();
      JoinState(t, state, c, Some(rawEvents));
      assert Threads() == touched[t := Joined(touched[t], c, rawEvents)];
    }

    /** What `set_listener` and `ensure_connection_subscribed` do to the state they found. */
    method JoinState(t: ThreadId, state: ThreadState, c: ConnectionId, rawEvents: Option<bool>)
      requires Valid() && t in threadStates && state == threadStates[t]
      modifies state
      ensures Threads() == old(Threads())[t := Joined(old(state.View()), c, if rawEvents.Some? then rawEvents.value else old(state.rawEvents))]
    {
      state.AddConnection(c);
      if rawEvents.Some? {
        state.SetExperimentalRawEvents(rawEvents.value);
      }
      OneThreadChanged(t);
    }

    method EnsureConnectionSubscribed(t: ThreadId, c: ConnectionId, rawEvents: bool) returns (state: ThreadState)
      requires Valid()
      modifies this, threadStates.Values
      ensures Valid() && t in threadStates && state == threadStates[t]
      ensures fresh(threadStates.Values - old(threadStates.Values))
      ensures View() == EnsureSubscribed(old(View()), t, c, rawEvents)
    {
      Enlist(c, t);
      assert Threads() == old(Threads());
      state := StateOf(t);
      ghost var touched := Threads();
      JoinState(t, state, c, if rawEvents then Some(true) else None);
      assert Threads() == touched[t := Joined(touched[t], c, rawEvents || touched[t].rawEvents)];
    }

    /** `ensure_listener_task_running`, up to the task itself. */
    method EnsureListenerTaskRunning(t: ThreadId, conversation: Conversation, state: ThreadState)
      requires Valid() && t in threadStates && state == threadStates[t]
      modifies state, channels
      ensures Valid()
      ensures View() == EnsureTask(old(View()), t, conversation)
    {
      if state.ListenerMatches(conversation) {
        return;
      }
      var token := channels.made;
      channels.made := channels.made + 1;
      state.SetListener(token, conversation, channels);
      OneThreadChanged(t);
    }

    /** The part of `remove_listener` that works on the thread's state. */
    method LeaveThread(t: ThreadId, c: ConnectionId, stays: bool)
      requires Valid()
      modifies threadStates.Values, channels`sent
      ensures Valid()
      ensures View() == AfterLeaving(old(View()), t, c, stays)
    {
      if t in threadStates {
        var state := threadStates[t];
        if !stays {
          state.RemoveConnection(c);
        }
        if state.subscribed == {} {
          state.ClearListener(channels);
        }
        OneThreadChanged(t);
      }
    }

    method RemoveListener(id: SubscriptionId) returns (removed: Option<ThreadId>)
      requires Valid()
      modifies this, threadStates.Values, channels
      ensures Valid()
      ensures removed == if id in old(subscriptionById) then Some(old(subscriptionById[id]).thread) else None
      ensures View() == if removed.None? then old(View()) else Subscriptions.RemoveListener(old(View()), id)
    {
      if id !in subscriptionById {
        return None;
      }
      var s := subscriptionById[id];
      subscriptionById := subscriptionById - {id};
      var stays := StillSubscribed(subscriptionById, s);
      if !stays && s.connection in threadIdsByConnection {
        threadIdsByConnection := threadIdsByConnection[s.connection := threadIdsByConnection[s.connection] - {s.thread}];
        if threadIdsByConnection[s.connection] == {} {
          threadIdsByConnection := threadIdsByConnection - {s.connection};
        }
      }
      assert threadIdsByConnection == if stays then old(threadIdsByConnection) else Unlisted(old(threadIdsByConnection), s.connection, s.thread);
      assert Threads() == old(Threads());
      ghost var cut := View();
      LeaveThread(s.thread, s.connection, stays);
      assert View() == AfterLeaving(cut, s.thread, s.connection, stays);
      return Some(s.thread);
    }

    /** The part of `remove_thread_state` that works on the thread's state. */
    method DropState(t: ThreadId)
      requires Valid()
      modifies this`threadStates, threadStates.Values, channels`sent
      ensures Valid()
      ensures Threads() == old(Threads()) - {t}
      ensures channels.sent == old(channels.sent) + if t in old(threadStates) then Signal(old(threadStates[t].cancel)) else multiset{}
    {
      if t in threadStates {
        var state := threadStates[t];
        threadStates := threadStates - {t};
        state.ClearListener(channels);
      }
    }

    method RemoveThreadState(t: ThreadId)
      requires Valid()
      modifies this, threadStates.Values, channels
      ensures Valid()
      ensures View() == RemoveThread(old(View()), t)
    {
      DropState(t);
      subscriptionById := OfOtherThreads(subscriptionById, t);
      threadIdsByConnection := UnlistedEverywhere(threadIdsByConnection, t);
    }

    /** The loop of `remove_connection`. */
    method LeaveAll(c: ConnectionId, left: set<ThreadId>)
      requires Valid() && TokensConserved(View())
      modifies threadStates.Values, channels`sent
      ensures Valid()
      ensures View() == LeaveThreads(old(View()), c, left)
    {
      ghost var before := View();
      var todo := left;
      assert LastTokens(before, c, left - todo) == {};
      assert View() == LeaveThreads(before, c, left - todo);
      while todo != {}
        invariant Valid() && todo <= left
        invariant View() == LeaveThreads(before, c, left - todo)
      {
        var t :| t in todo;
        LeaveOneMore(before, c, left - todo, t);
        assert left - todo + {t} == left - (todo - {t});
        todo := todo - {t};
        LeaveThread(t, c, false);
      }
      assert left - todo == left;
    }

    /** `remove_connection`, for managers whose tokens are conserved, as they are after every run. */
    method RemoveConnection(c: ConnectionId)
      requires Valid() && TokensConserved(View())
      modifies this, threadStates.Values, channels
      ensures Valid()
      ensures View() == Subscriptions.RemoveConnection(old(View()), c)
    {
      if c !in threadIdsByConnection {
        return;
      }
      var left := threadIdsByConnection[c];
      threadIdsByConnection := threadIdsByConnection - {c};
      subscriptionById := OfOtherConnections(subscriptionById, c);
      assert Threads() == old(Threads());
      ghost var cut := View();
      SameTokens(old(View()), cut);
      LeaveAll(c, left);
      assert View() == LeaveThreads(cut, c, left);
      assert LastTokens(cut, c, left) == LastTokens(old(View()), c, left);
    }
  }
}
