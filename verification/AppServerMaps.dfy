/**
  The processor's connections and the router's: they are kept by different
  tasks and agree up to the messages in flight between them.
*/
module AppServerMaps {
  import opened Wrappers
  import opened Subscriptions
  import opened AppServer

  /** The router's map once it has applied the control events waiting for it. */
  function Effective(outbound: set<ConnectionId>, control: seq<Control>): set<ConnectionId>
    decreases |control|
  {
    if control == [] then outbound else Effective(Controlled(outbound, control[0]), control[1..])
  }

  function Routed(s: Server): set<ConnectionId> {
    Effective(s.outbound, s.control)
  }

  lemma {:induction false} EffectiveAppend(outbound: set<ConnectionId>, control: seq<Control>, e: Control)
    ensures Effective(outbound, control + [e]) == Controlled(Effective(outbound, control), e)
    decreases |control|
  {
    if control == [] {
      assert Effective(Controlled(outbound, e), []) == Controlled(outbound, e);
      assert [e][1..] == [];
    } else {
      assert (control + [e])[1..] == control[1..] + [e];
      EffectiveAppend(Controlled(outbound, control[0]), control[1..], e);
    }
  }

  /** A connection dropped by the router is missing afterwards at most itself. */
  lemma {:induction false} EffectiveRemove(outbound: set<ConnectionId>, control: seq<Control>, c: ConnectionId)
    ensures Effective(outbound - {c}, control) <= Effective(outbound, control) <= Effective(outbound - {c}, control) + {c}
    decreases |control|
  {
    EffectiveMonotone(outbound - {c}, outbound, control);
    if control != [] {
      match control[0]
      case Opened(d) =>
        if d == c {
          assert outbound - {c} + {c} == outbound + {c};
        } else {
          EffectiveRemove(outbound + {d}, control[1..], c);
          assert outbound - {c} + {d} == outbound + {d} - {c};
        }
      case Closed(d) =>
        EffectiveRemove(outbound - {d}, control[1..], c);
        assert outbound - {c} - {d} == outbound - {d} - {c};
    }
  }

  lemma {:induction false} EffectiveMonotone(small: set<ConnectionId>, large: set<ConnectionId>, control: seq<Control>)
    requires small <= large
    ensures Effective(small, control) <= Effective(large, control)
    decreases |control|
  {
    if control != [] {
      EffectiveMonotone(Controlled(small, control[0]), Controlled(large, control[0]), control[1..]);
    }
  }

  // --- The invariant ---------------------------------------------------------------------------------

  /** The processor has announced the connection to the router and has not begun to forget it. */
  predicate Held(s: Server, c: ConnectionId) {
    c in s.connections || s.processor == Announced(c)
  }

  /** The closing of the connection is on its way to the processor, or being handled by it. */
  predicate Leaving(s: Server, c: ConnectionId) {
    || ConnectionClosed(c) in s.events
    || c in s.pendingClosed
    || (s.router.Routing? && c in s.router.disconnected)
    || s.processor in {Closing(c), Retracted(c), Forgetting(c)}
  }

  ghost predicate Agreement(s: Server) {
    && (forall c | c in Routed(s) :: Held(s, c))
    && (forall c | c in Routed(s) :: s.processor != Retracted(c) && s.processor != Forgetting(c))
    && (forall c | Held(s, c) :: c in Routed(s) || Leaving(s, c))
  }

  /** Steps that touch none of what the agreement is about but to add to the queue of events. */
  lemma UnrelatedStep(s: Server, s': Server)
    requires Agreement(s)
    requires s'.outbound == s.outbound && s'.control == s.control && s'.router == s.router
    requires s'.connections.Keys == s.connections.Keys && s'.pendingClosed == s.pendingClosed
    requires s'.processor == s.processor || (!HandlesConnection(s.processor) && !HandlesConnection(s'.processor))
    requires forall c | ConnectionClosed(c) in s.events :: ConnectionClosed(c) in s'.events
    ensures Agreement(s')
  {
    forall c ensures Held(s', c) <==> Held(s, c) {
      assert c in s'.connections <==> c in s'.connections.Keys;
      assert c in s.connections <==> c in s.connections.Keys;
    }
    forall c | Leaving(s, c) ensures Leaving(s', c) {}
  }

  /** The processor is between an opening or closing event and the end of its handling. */
  predicate HandlesConnection(p: Processor) {
    p.Opening? || p.Announced? || p.Closing? || p.Retracted? || p.Forgetting?
  }

  lemma TakeEventAgrees(s: Server)
    requires Agreement(s) && s.processor.Idle? && s.events != []
    ensures Agreement(DoTakeEvent(s))
  {
    var s' := DoTakeEvent(s);
    assert s.events == [s.events[0]] + s.events[1..];
    match s.events[0]
    case ConnectionOpened(c) =>
      forall d ensures Held(s', d) <==> Held(s, d) {}
    case ConnectionClosed(c) =>
      forall d ensures Held(s', d) <==> Held(s, d) {}
    case IncomingMessage(c, incoming) =>
      assert s'.connections.Keys == s.connections.Keys;
      UnrelatedStep(s, s');
  }

  lemma ProceedAgrees(s: Server)
    requires Agreement(s) && CanProceed(s)
    ensures Agreement(DoProceed(s))
  {
    var s' := DoProceed(s);
    if s.processor.Opening? {
      var c := s.processor.connection;
      EffectiveAppend(s.outbound, s.control, Opened(c));
      assert Routed(s') == Routed(s) + {c};
      forall d ensures Held(s', d) <==> Held(s, d) || d == c {}
    } else if s.processor.Closing? {
      var c := s.processor.connection;
      EffectiveAppend(s.outbound, s.control, Closed(c));
      assert Routed(s') == Routed(s) - {c};
      forall d ensures Held(s', d) <==> Held(s, d) {}
    } else {
      assert Routed(s') == Routed(s);
      if HandlesConnection(s.processor) {
        forall d ensures Held(s', d) <==> Held(s, d) && s.processor != Forgetting(d) {}
      } else {
        assert s'.connections.Keys == s.connections.Keys;
        UnrelatedStep(s, s');
      }
    }
  }

  /** Steps of the router: what it drops is on its way to the processor, and so is what was before. */
  lemma RouterStep(s: Server, s': Server)
    requires Agreement(s) && s'.processor == s.processor && s'.connections == s.connections
    requires Routed(s') <= Routed(s)
    requires forall c | c in Routed(s) && c !in Routed(s') :: Leaving(s', c)
    requires forall c | Leaving(s, c) :: Leaving(s', c)
    ensures Agreement(s')
  {
    forall c ensures Held(s', c) <==> Held(s, c) {}
  }

  lemma DeliverAgrees(s: Server, alive: bool)
    requires Agreement(s) && s.router.Routing? && s.router.targets != []
    ensures Agreement(DoDeliver(s, alive))
  {
    var s', c := DoDeliver(s, alive), s.router.targets[0];
    EffectiveRemove(s.outbound, s.control, c);
    if c in s.outbound && !alive {
      assert s'.router.disconnected == s.router.disconnected + [c];
    }
    RouterStep(s, s');
  }

  lemma FlushAgrees(s: Server)
    requires Agreement(s) && Can(s, Flush)
    ensures Agreement(Do(s, Flush))
  {
    var s', c := Do(s, Flush), s.pendingClosed[0];
    assert s.pendingClosed == [c] + s.pendingClosed[1..];
    assert s'.events[|s.events|] == ConnectionClosed(c);
    RouterStep(s, s');
  }

  lemma RouterAgrees(s: Server, a: Action)
    requires Agreement(s) && Can(s, a) && (a.ApplyControl? || a.Take? || a.Deliver? || a.FinishRoute? || a.Flush?)
    ensures Agreement(Do(s, a))
  {
    if a.Deliver? {
      DeliverAgrees(s, a.alive);
    } else if a.Flush? {
      FlushAgrees(s);
    } else {
      RouterStep(s, Do(s, a));
    }
  }

  lemma StepAgrees(s: Server, a: Action)
    requires Agreement(s) && Can(s, a)
    ensures Agreement(Do(s, a))
  {
    if a.TakeEvent? {
      TakeEventAgrees(s);
    } else if a.Proceed? {
      ProceedAgrees(s);
    } else if a.ApplyControl? || a.Take? || a.Deliver? || a.FinishRoute? || a.Flush? {
      RouterAgrees(s, a);
    } else {
      UnrelatedStep(s, Do(s, a));
    }
  }

  lemma {:induction false} RunAgrees(actions: seq<Action>)
    requires CanRun(actions)
    ensures Agreement(After(actions))
  {
    if actions != [] {
      var before := actions[..|actions| - 1];
      RunAgrees(before);
      StepAgrees(After(before), actions[|actions| - 1]);
    }
  }

  // --- The main results --------------------------------------------------------------------------------

  /**
    In every reachable state: nothing is in the router's map, with the queued
    control events applied, that the processor does not hold; and a connection
    that the processor holds is in that map or is about to be closed.
  */
  lemma MapsAgreeModuloQueues(s: Server)
    requires Reachable(s)
    ensures forall c | c in Routed(s) :: Held(s, c)
    ensures forall c | Held(s, c) && c !in Routed(s) :: Leaving(s, c)
  {
    var actions :| CanRun(actions) && After(actions) == s;
    RunAgrees(actions);
  }

  /** With nothing in flight the two maps have the same connections. */
  lemma QuietMapsAreEqual(s: Server)
    requires Reachable(s)
    requires s.processor.Idle? && s.router.Waiting? && s.control == [] && s.events == [] && s.pendingClosed == []
    ensures s.outbound == s.connections.Keys
  {
    MapsAgreeModuloQueues(s);
    forall c | c in s.connections ensures c in s.outbound {
      assert Held(s, c) && !Leaving(s, c);
    }
    forall c | c in s.outbound ensures c in s.connections {
      assert Held(s, c);
    }
  }

  /** The envelope is for this connection, or for all initialized ones and this is one of them. */
  predicate IsFor(s: Server, e: Envelope, c: ConnectionId) {
    match e
    case ToConnection(d, _) => d == c
    case Broadcast(_) => c in s.cells && s.cells[c].initialized
  }

  /**
    A message for a held connection finds it: when the router, having no
    control event to apply, takes it off the queue, the connection is a target,
    unless the client wishes not to have it or the connection is about to be
    closed.
  */
  lemma HeldConnectionsAreTargets(s: Server, c: ConnectionId, order: seq<ConnectionId>)
    requires Reachable(s) && Can(s, Take(order)) && s.control == []
    requires Held(s, c) && !Leaving(s, c) && IsFor(s, s.outgoing[0], c) && !Skipped(s, c, s.outgoing[0].message)
    ensures c in s.outbound && c in DoTake(s, order).router.targets
  {
    MapsAgreeModuloQueues(s);
    assert c in Routed(s);
    if s.outgoing[0].Broadcast? {
      assert c in BroadcastTargets(s, s.outgoing[0].message);
    }
  }
}
