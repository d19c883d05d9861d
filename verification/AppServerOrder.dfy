/**
  In which order a client sees what is sent to it around its `initialize`: when
  the response comes before everything else, and which notification may still
  come after the client's wish not to get it was copied.
*/
module AppServerOrder {
  import opened Wrappers
  import opened Subscriptions
  import opened AppServer
  import opened AppServerMaps
  import opened AppServerTrust
  import opened AppServerSafety

  // --- Continuations -----------------------------------------------------------------------------------------

  ghost predicate CanRunFrom(s: Server, actions: seq<Action>)
    decreases |actions|, 0
  {
    actions == [] ||
    (CanRunFrom(s, actions[..|actions| - 1]) && Can(AfterFrom(s, actions[..|actions| - 1]), actions[|actions| - 1]))
  }

  /** The state after these actions, from this one on. */
  ghost function AfterFrom(s: Server, actions: seq<Action>): Server
    requires CanRunFrom(s, actions)
    decreases |actions|, 1
  {
    if actions == [] then s else Do(AfterFrom(s, actions[..|actions| - 1]), actions[|actions| - 1])
  }

  ghost predicate Leads(s: Server, t: Server) {
    exists actions :: CanRunFrom(s, actions) && AfterFrom(s, actions) == t
  }

  lemma LeadsHere(s: Server)
    ensures Leads(s, s)
  {
    assert CanRunFrom(s, []) && AfterFrom(s, []) == s;
  }

  lemma LeadsOn(s: Server, t: Server, a: Action)
    requires Leads(s, t) && Can(t, a)
    ensures Leads(s, Do(t, a))
  {
    var actions :| CanRunFrom(s, actions) && AfterFrom(s, actions) == t;
    assert (actions + [a])[..|actions|] == actions;
    assert CanRunFrom(s, actions + [a]) && AfterFrom(s, actions + [a]) == Do(t, a);
  }

  lemma {:induction false} ReachFrom(s: Server, actions: seq<Action>)
    requires Reachable(s) && CanRunFrom(s, actions)
    ensures Reachable(AfterFrom(s, actions))
  {
    if actions != [] {
      ReachFrom(s, actions[..|actions| - 1]);
      ReachStep(AfterFrom(s, actions[..|actions| - 1]), actions[|actions| - 1]);
    }
  }

  lemma ReachLeads(s: Server, t: Server)
    requires Reachable(s) && Leads(s, t)
    ensures Reachable(t)
  {
    var actions :| CanRunFrom(s, actions) && AfterFrom(s, actions) == t;
    ReachFrom(s, actions);
  }

  /** How many envelopes the router has taken. */
  function Takes(h: seq<Record>): nat {
    if h == [] then 0 else Takes(h[..|h| - 1]) + if h[|h| - 1] == Taken then 1 else 0
  }

  lemma TakesAppend(h: seq<Record>, r: Record)
    ensures Takes(h + [r]) == Takes(h) + if r == Taken then 1 else 0
  {
    assert (h + [r])[..|h|] == h;
  }

  // --- Keeping the response first ----------------------------------------------------------------------------

  /** Neither what the router reads now nor what it will read after the wish is copied lets the message through. */
  predicate ExcludedTwice(earlier: set<Method>, wish: set<Method>, message: Message) {
    message.Notification? && message.name in earlier && message.name in wish
  }

  predicate Harmless(e: Envelope, c: ConnectionId, earlier: set<Method>, wish: set<Method>) {
    match e
    case ToConnection(d, message) => d != c || IsReply(message)
    case Broadcast(message) => ExcludedTwice(earlier, wish, message)
  }

  ghost predicate Untouched(h: seq<Record>, c: ConnectionId) {
    forall message | !IsReply(message) :: Wrote(c, message) !in h
  }

  /** What is remembered of the connection while its response is on the way. */
  ghost predicate Remembered(t: Server, c: ConnectionId, earlier: set<Method>, wish: set<Method>) {
    && c in t.introduced && t.processor != Opening(c) && t.processor != Announced(c)
    && c in t.cells && (t.cells[c].optOut == earlier || t.cells[c].optOut == wish)
    && (c in t.connections ==> t.connections[c].optOut == wish && (t.connections[c].initialized || t.processor == ReplySent(c)))
  }

  /** The response is the envelope behind `k` harmless ones. */
  ghost predicate Behind(t: Server, c: ConnectionId, k: nat, earlier: set<Method>, wish: set<Method>) {
    && k < |t.outgoing| && t.outgoing[k] == ToConnection(c, Response)
    && forall i | 0 <= i < k :: Harmless(t.outgoing[i], c, earlier, wish)
  }

  ghost predicate RoutesNothingTo(t: Server, c: ConnectionId) {
    t.router.Routing? ==> IsReply(t.router.message) || c !in t.router.targets
  }

  /** With `k` envelopes to be taken before the response, or the response taken and nothing after it. */
  ghost predicate Quiet(t: Server, c: ConnectionId, k: int, earlier: set<Method>, wish: set<Method>) {
    && k >= -1 && Untouched(t.history, c) && Remembered(t, c, earlier, wish) && RoutesNothingTo(t, c)
    && (k >= 0 ==> Behind(t, c, k, earlier, wish))
  }

  lemma RememberedStep(t: Server, c: ConnectionId, a: Action, earlier: set<Method>, wish: set<Method>)
    requires Introductions(t) && Remembered(t, c, earlier, wish) && Can(t, a)
    ensures Remembered(Do(t, a), c, earlier, wish)
  {
    if a.TakeEvent? {
      RememberedEvent(t, c, earlier, wish);
    } else if a.Proceed? {
      RememberedProceed(t, c, earlier, wish);
    }
  }

  lemma RememberedProceed(t: Server, c: ConnectionId, earlier: set<Method>, wish: set<Method>)
    requires Introductions(t) && Remembered(t, c, earlier, wish) && CanProceed(t)
    ensures Remembered(DoProceed(t), c, earlier, wish)
  {
  }

  lemma RememberedEvent(t: Server, c: ConnectionId, earlier: set<Method>, wish: set<Method>)
    requires Introductions(t) && Remembered(t, c, earlier, wish) && t.processor.Idle? && t.events != []
    ensures Remembered(DoTakeEvent(t), c, earlier, wish)
  {
    assert t.events[0] in t.events;
    assert t.events[0] != ConnectionOpened(c);
  }

  lemma TakeStaysQuiet(t: Server, c: ConnectionId, k: nat, order: seq<ConnectionId>, earlier: set<Method>, wish: set<Method>)
    requires Quiet(t, c, k, earlier, wish) && CanTake(t, order)
    ensures RoutesNothingTo(DoTake(t, order), c) && Untouched(DoTake(t, order).history, c)
    ensures k >= 1 ==> Behind(DoTake(t, order), c, k - 1, earlier, wish)
  {
    var e, t' := t.outgoing[0], DoTake(t, order);
    assert forall i | 0 <= i < |t'.outgoing| :: t'.outgoing[i] == t.outgoing[i + 1];
    if k >= 1 {
      assert Harmless(e, c, earlier, wish);
      assert e.Broadcast? ==> Skipped(t, c, e.message);
    }
  }

  lemma DeliverStaysQuiet(t: Server, c: ConnectionId, k: int, alive: bool, earlier: set<Method>, wish: set<Method>)
    requires Quiet(t, c, k, earlier, wish) && t.router.Routing? && t.router.targets != []
    ensures Quiet(DoDeliver(t, alive), c, k, earlier, wish)
  {
    assert t.router.targets[0] in t.router.targets;
  }

  /** The queue may grow at its end, and the history by a record that is no writing but of a reply. */
  ghost predicate AddsBehind(t: Server, t': Server) {
    && t.outgoing <= t'.outgoing
    && (t'.router == t.router || t'.router.Waiting?)
    && (t'.history == t.history ||
        exists r :: t'.history == t.history + [r] && r != Taken && (r.Wrote? ==> IsReply(r.message)))
  }

  lemma ManagerAddsBehind(t: Server, op: Op)
    ensures AddsBehind(t, DoManager(t, op))
  {
  }

  lemma ProceedAddsBehind(t: Server)
    requires CanProceed(t)
    ensures AddsBehind(t, DoProceed(t))
  {
  }

  lemma TakeEventAddsBehind(t: Server)
    requires t.events != []
    ensures AddsBehind(t, DoTakeEvent(t))
  {
  }

  /** Steps outside the router add to the queue behind the response, and write nothing but errors. */
  lemma OthersAddBehind(t: Server, a: Action)
    requires Can(t, a) && !a.Take? && !a.Deliver?
    ensures AddsBehind(t, Do(t, a))
  {
    if a.Proceed? {
      ProceedAddsBehind(t);
    } else if a.TakeEvent? {
      TakeEventAddsBehind(t);
    } else if a.Serve? {
      ManagerAddsBehind(t, a.op);
    } else if a.AttachNext? {
      if a.found.Some? {
        ManagerAddsBehind(t, Attach(t.processor.thread, t.processor.todo[0], false, a.found.value));
      }
    }
  }

  lemma OthersStayQuiet(t: Server, c: ConnectionId, k: int, a: Action, earlier: set<Method>, wish: set<Method>)
    requires Introductions(t) && Quiet(t, c, k, earlier, wish) && Can(t, a) && !a.Take? && !a.Deliver?
    ensures Quiet(Do(t, a), c, k, earlier, wish) && Takes(Do(t, a).history) == Takes(t.history)
  {
    var t' := Do(t, a);
    RememberedStep(t, c, a, earlier, wish);
    OthersAddBehind(t, a);
    if t'.history != t.history {
      var r :| t'.history == t.history + [r] && r != Taken && (r.Wrote? ==> IsReply(r.message));
      TakesAppend(t.history, r);
    }
    assert forall i | 0 <= i < |t.outgoing| :: t'.outgoing[i] == t.outgoing[i];
  }

  lemma QuietStep(t: Server, c: ConnectionId, k: int, a: Action, earlier: set<Method>, wish: set<Method>)
    requires Introductions(t) && Quiet(t, c, k, earlier, wish) && Can(t, a) && (a.Take? ==> k >= 0)
    ensures Quiet(Do(t, a), c, if a.Take? then k - 1 else k, earlier, wish)
    ensures Takes(Do(t, a).history) == Takes(t.history) + if a.Take? then 1 else 0
  {
    if a.Take? {
      RememberedStep(t, c, a, earlier, wish);
      TakeStaysQuiet(t, c, k, a.order, earlier, wish);
      TakesAppend(t.history, Taken);
    } else if a.Deliver? {
      DeliverStaysQuiet(t, c, k, a.alive, earlier, wish);
      var message := t.router.message;
      TakesAppend(t.history, Wrote(t.router.targets[0], message));
    } else {
      OthersStayQuiet(t, c, k, a, earlier, wish);
    }
  }

  lemma TakesGrow(t: Server, a: Action)
    requires Can(t, a)
    ensures Takes(Do(t, a).history) == Takes(t.history) + if a.Take? then 1 else 0
  {
    if a.Take? {
      TakesAppend(t.history, Taken);
    } else if a.Deliver? {
      TakesAppend(t.history, Wrote(t.router.targets[0], t.router.message));
    } else {
      OthersAddBehind(t, a);
      if Do(t, a).history != t.history {
        var r :| Do(t, a).history == t.history + [r] && r != Taken && (r.Wrote? ==> IsReply(r.message));
        TakesAppend(t.history, r);
      }
    }
  }
  lemma ReachableIntroductions(t: Server)
    requires Reachable(t)
    ensures Introductions(t)
  {
    ReachableIsTrusted(t);
  }

  /** Quiet when the router is to have taken so many envelopes up to the response. */
  ghost predicate QuietUntil(t: Server, c: ConnectionId, last: int, earlier: set<Method>, wish: set<Method>) {
    Quiet(t, c, last - Takes(t.history), earlier, wish)
  }

  lemma QuietUntilStep(t: Server, c: ConnectionId, last: int, a: Action, earlier: set<Method>, wish: set<Method>)
    requires Reachable(t) && QuietUntil(t, c, last, earlier, wish) && Can(t, a)
    requires Takes(Do(t, a).history) <= last + 1
    ensures QuietUntil(Do(t, a), c, last, earlier, wish)
  {
    ReachableIntroductions(t);
    TakesGrow(t, a);
    QuietStep(t, c, last - Takes(t.history), a, earlier, wish);
  }

  lemma {:induction false} StaysQuiet(s: Server, c: ConnectionId, last: int, actions: seq<Action>, earlier: set<Method>, wish: set<Method>)
    requires Reachable(s) && QuietUntil(s, c, last, earlier, wish) && CanRunFrom(s, actions)
    requires Takes(AfterFrom(s, actions).history) <= last + 1
    ensures QuietUntil(AfterFrom(s, actions), c, last, earlier, wish)
  {
    if actions != [] {
      var before, a := actions[..|actions| - 1], actions[|actions| - 1];
      var t := AfterFrom(s, before);
      TakesGrow(t, a);
      StaysQuiet(s, c, last, before, earlier, wish);
      ReachFrom(s, before);
      QuietUntilStep(t, c, last, a, earlier, wish);
    }
  }

  // --- When the response comes first -----------------------------------------------------------------------------

  /** No envelope in front of the response is a broadcast that could reach the connection. */
  ghost predicate NothingAhead(s: Server, c: ConnectionId)
    requires c in s.cells && c in s.connections
  {
    forall message | Broadcast(message) in s.outgoing :: ExcludedTwice(s.cells[c].optOut, s.connections[c].optOut, message)
  }

  lemma ReplyingIsHeld(s: Server, c: ConnectionId)
    requires Reachable(s) && s.processor == Replying(c)
    ensures c in s.cells && c in s.connections && c in s.introduced && Accepted(c) !in s.history
  {
    ReachableIsTrusted(s);
  }

  lemma NotAcceptedIsUntouched(s: Server, c: ConnectionId)
    requires Trust(s) && Accepted(c) !in s.history
    ensures Untouched(s.history, c) && RoutesNothingTo(s, c)
    ensures forall i, message | 0 <= i < |s.outgoing| && s.outgoing[i] == ToConnection(c, message) :: IsReply(message)
  {
    forall message | !IsReply(message) ensures Wrote(c, message) !in s.history {
      if i :| 0 <= i < |s.history| && s.history[i] == Wrote(c, message) {
        JustifiedAt(s.history, i);
      }
    }
    forall i, message | 0 <= i < |s.outgoing| && s.outgoing[i] == ToConnection(c, message) ensures IsReply(message) {
      assert Addressed(s.history, s.outgoing[i]);
      if !IsReply(message) {
        JoinedWasAccepted(s.history, message.scope.value, c);
      }
    }
  }

  lemma QuietWhenReplying(s: Server, c: ConnectionId)
    requires Reachable(s) && s.processor == Replying(c) && c in s.cells && c in s.connections && NothingAhead(s, c)
    ensures QuietUntil(DoProceed(s), c, Takes(s.history) + |s.outgoing|, s.cells[c].optOut, s.connections[c].optOut)
  {
    ReplyingIsHeld(s, c);
    ReachableIsTrusted(s);
    NotAcceptedIsUntouched(s, c);
    var s' := DoProceed(s);
    forall i | 0 <= i < |s.outgoing| ensures Harmless(s'.outgoing[i], c, s.cells[c].optOut, s.connections[c].optOut) {
      assert s'.outgoing[i] == s.outgoing[i] && s.outgoing[i] in s.outgoing;
    }
  }

  /**
    When the response to `initialize` is sent and no broadcast that could reach
    the connection waits in front of it, then whatever happens afterwards,
    nothing but replies is written to the connection until the router has
    taken the response and gone on to the next envelope.
  */
  lemma ResponseComesFirst(s: Server, c: ConnectionId, actions: seq<Action>, message: Message)
    requires Reachable(s) && s.processor == Replying(c) && c in s.cells && c in s.connections && NothingAhead(s, c)
    requires CanRunFrom(DoProceed(s), actions) && !IsReply(message)
    requires Takes(AfterFrom(DoProceed(s), actions).history) <= Takes(s.history) + |s.outgoing| + 1
    ensures Wrote(c, message) !in AfterFrom(DoProceed(s), actions).history
  {
    QuietWhenReplying(s, c);
    ReachStep(s, Proceed);
    assert Do(s, Proceed) == DoProceed(s);
    StaysQuiet(DoProceed(s), c, Takes(s.history) + |s.outgoing|, actions, s.cells[c].optOut, s.connections[c].optOut);
  }

  // --- Runs of the router ----------------------------------------------------------------------------------------

  /** Only the router has worked, and every writer was alive. */
  ghost predicate OnlyRouted(t: Server, t': Server) {
    && t'.processor == t.processor && t'.connections == t.connections && t'.cells == t.cells
    && t.history <= t'.history
  }

  lemma {:induction false} Enumeration(all: set<ConnectionId>) returns (ids: seq<ConnectionId>)
    ensures Enumerates(ids, all)
  {
    ids := [];
    if all != {} {
      var c :| c in all;
      var rest := Enumeration(all - {c});
      ids := [c] + rest;
    }
  }

  /** The router writes to all its targets and is done. */
  lemma {:induction false} FinishesRoute(s: Server, t: Server) returns (t': Server)
    requires Leads(s, t)
    ensures Leads(s, t') && t'.router.Waiting? && OnlyRouted(t, t')
    ensures t'.outgoing == t.outgoing && t'.control == t.control && t'.outbound == t.outbound && Takes(t'.history) == Takes(t.history)
    decreases if t.router.Routing? then 1 + |t.router.targets| else 0
  {
    t' := t;
    if t.router.Routing? {
      if t.router.targets == [] {
        LeadsOn(s, t, FinishRoute);
        t' := Do(t, FinishRoute);
      } else {
        LeadsOn(s, t, Deliver(true));
        TakesGrow(t, Deliver(true));
        t' := FinishesRoute(s, DoDeliver(t, true));
      }
    }
  }

  /** The router applies all control events. */
  lemma {:induction false} AppliesControl(s: Server, t: Server) returns (t': Server)
    requires Leads(s, t) && t.router.Waiting?
    ensures Leads(s, t') && t'.router.Waiting? && OnlyRouted(t, t')
    ensures t'.outgoing == t.outgoing && t'.control == [] && t'.outbound == Routed(t) && t'.history == t.history
    decreases |t.control|
  {
    t' := t;
    if t.control != [] {
      LeadsOn(s, t, ApplyControl);
      t' := AppliesControl(s, Do(t, ApplyControl));
    }
  }

  lemma OrderToTake(t: Server) returns (order: seq<ConnectionId>)
    requires t.router.Waiting? && t.outgoing != []
    ensures Can(t, Take(order))
    ensures t.outgoing[0].Broadcast? ==> forall c :: c in order <==> c in BroadcastTargets(t, t.outgoing[0].message)
  {
    order := [];
    if t.outgoing[0].Broadcast? {
      order := Enumeration(BroadcastTargets(t, t.outgoing[0].message));
    }
  }

  /** The router takes and routes some envelopes. */
  lemma {:induction false} RoutesAhead(s: Server, t: Server, k: nat) returns (t': Server)
    requires Leads(s, t) && t.router.Waiting? && k <= |t.outgoing|
    ensures Leads(s, t') && t'.router.Waiting? && OnlyRouted(t, t')
    ensures t'.outgoing == t.outgoing[k..] && t'.control == t.control && t'.outbound == t.outbound
    ensures Takes(t'.history) == Takes(t.history) + k
    decreases k
  {
    t' := t;
    if k > 0 {
      var order := OrderToTake(t);
      LeadsOn(s, t, Take(order));
      TakesGrow(t, Take(order));
      var routed := FinishesRoute(s, DoTake(t, order));
      t' := RoutesAhead(s, routed, k - 1);
      assert t.outgoing[1..][k - 1..] == t.outgoing[k..];
    } else {
      assert t.outgoing[0..] == t.outgoing;
    }
  }

  lemma Regrouped(h: seq<Record>, a: seq<Record>, b: seq<Record>)
    ensures (h + a) + b == h + (a + b)
    ensures forall r | r in b :: r in a + b
  {
    assert (a + b)[|a|..] == b;
  }

  /** The router writes to its next target. */
  lemma LeadsDeliver(s: Server, t: Server) returns (next: Server, written: seq<Record>)
    requires Leads(s, t) && t.router.Routing? && t.router.targets != []
    ensures Leads(s, next) && Takes(next.history) == Takes(t.history) && next.history == t.history + written
    ensures t.router.targets[0] in t.outbound ==> written == [Wrote(t.router.targets[0], t.router.message)]
    ensures next.router.Routing? && next.router.message == t.router.message && next.router.targets == t.router.targets[1..]
    ensures next.outbound == t.outbound
  {
    LeadsOn(s, t, Deliver(true));
    TakesGrow(t, Deliver(true));
    next := DoDeliver(t, true);
    written := if t.router.targets[0] in t.outbound then [Wrote(t.router.targets[0], t.router.message)] else [];
  }

  /** The router writes until it has written to this target. */
  lemma {:induction false} DeliversTo(s: Server, t: Server, c: ConnectionId) returns (t': Server, written: seq<Record>)
    requires Leads(s, t) && t.router.Routing? && c in t.router.targets && c in t.outbound
    ensures Leads(s, t') && Takes(t'.history) == Takes(t.history)
    ensures t'.history == t.history + written && Wrote(c, t.router.message) in written
    decreases |t.router.targets|
  {
    var next, first := LeadsDeliver(s, t);
    t', written := next, first;
    if t.router.targets[0] != c {
      var rest;
      t', rest := DeliversTo(s, next, c);
      written := first + rest;
      Regrouped(t.history, first, rest);
    }
  }

  // --- When it need not come first -------------------------------------------------------------------------------

  /** The processor goes on after the response, copying the wish or not, so that the router lets the message through. */
  lemma AcceptsFirst(s: Server, c: ConnectionId, message: Message) returns (t: Server)
    requires Reachable(s) && s.processor == Replying(c) && c in s.cells && c in s.connections
    requires !ExcludedTwice(s.cells[c].optOut, s.connections[c].optOut, message)
    ensures Leads(DoProceed(s), t) && Takes(t.history) == Takes(s.history)
    ensures t.outgoing == s.outgoing + [ToConnection(c, Response)]
    ensures t.outbound == s.outbound && t.control == s.control && t.router == s.router
    ensures c in t.cells && t.cells[c].initialized && !Skipped(t, c, message)
  {
    var replied := DoProceed(s);
    LeadsHere(replied);
    LeadsOn(replied, replied, Proceed);
    var accepted := DoProceed(replied);
    TakesAppend(s.history, Accepted(c));
    t := accepted;
    if Skipped(accepted, c, message) {
      LeadsOn(replied, accepted, Proceed);
      t := DoProceed(accepted);
      TakesAppend(accepted.history, Opted(c, s.connections[c].optOut));
    }
  }

  /** A broadcast in front of the response, not excluded both before and after the copy, can be written before it. */
  lemma BroadcastComesFirst(s: Server, c: ConnectionId, k: nat, message: Message) returns (t: Server)
    requires Reachable(s) && s.processor == Replying(c) && c in s.cells && c in s.connections && c in Routed(s)
    requires k < |s.outgoing| && s.outgoing[k] == Broadcast(message)
    requires !ExcludedTwice(s.cells[c].optOut, s.connections[c].optOut, message)
    ensures Leads(DoProceed(s), t) && Wrote(c, message) in t.history
    ensures Takes(t.history) == Takes(s.history) + k + 1
  {
    var s' := DoProceed(s);
    var accepted := AcceptsFirst(s, c, message);
    var idle := FinishesRoute(s', accepted);
    assert Routed(idle) == Routed(s);
    var ready := AppliesControl(s', idle);
    var ahead := RoutesAhead(s', ready, k);
    assert ahead.outgoing[0] == s.outgoing[k];
    assert c in BroadcastTargets(ahead, message);
    var order := OrderToTake(ahead);
    LeadsOn(s', ahead, Take(order));
    TakesGrow(ahead, Take(order));
    var written;
    t, written := DeliversTo(s', DoTake(ahead, order), c);
  }

  /** What `ResponseComesFirst` promises of every run that follows. */
  ghost predicate ResponseFirst(s: Server, c: ConnectionId)
    requires s.processor == Replying(c)
  {
    forall t, message | Leads(DoProceed(s), t) && Takes(t.history) <= Takes(s.history) + |s.outgoing| + 1 && !IsReply(message) ::
      Wrote(c, message) !in t.history
  }

  /**
    The response comes before every notification and request, in every run,
    exactly when no broadcast waits in front of it that could reach the
    connection; a broadcast could unless the connection's wish excludes it,
    both as the router knows it and as it is about to be copied.
  */
  lemma ResponseFirstIff(s: Server, c: ConnectionId)
    requires Reachable(s) && s.processor == Replying(c) && c in Routed(s)
    ensures c in s.cells && c in s.connections
    ensures ResponseFirst(s, c) <==> NothingAhead(s, c)
  {
    ReplyingIsHeld(s, c);
    if NothingAhead(s, c) {
      forall t, message | Leads(DoProceed(s), t) && Takes(t.history) <= Takes(s.history) + |s.outgoing| + 1 && !IsReply(message)
        ensures Wrote(c, message) !in t.history
      {
        var actions :| CanRunFrom(DoProceed(s), actions) && AfterFrom(DoProceed(s), actions) == t;
        ResponseComesFirst(s, c, actions, message);
      }
    } else {
      var message :| Broadcast(message) in s.outgoing && !ExcludedTwice(s.cells[c].optOut, s.connections[c].optOut, message);
      var k :| 0 <= k < |s.outgoing| && s.outgoing[k] == Broadcast(message);
      var t := BroadcastComesFirst(s, c, k, message);
      BroadcastIsNoReply(s, k);
    }
  }

  lemma BroadcastIsNoReply(s: Server, k: nat)
    requires Reachable(s) && k < |s.outgoing| && s.outgoing[k].Broadcast?
    ensures !IsReply(s.outgoing[k].message)
  {
    ReachableIsTrusted(s);
    assert Addressed(s.history, s.outgoing[k]);
  }

  // --- Writes after the wish was copied --------------------------------------------------------------------------

  /** The router is about to write this message to the connection. */
  predicate BeingWritten(s: Server, c: ConnectionId, message: Message) {
    s.router.Routing? && message == s.router.message && c in s.router.targets && c in s.outbound
  }

  /** If the router has taken nothing since, it still routes what it routed then, or is done with it. */
  ghost predicate SameRoute(s: Server, t: Server) {
    t.router.Routing? ==>
      && s.router.Routing? && t.router.message == s.router.message && t.outbound <= s.outbound
      && forall d | d in t.router.targets :: d in s.router.targets
  }

  /** What was written since, up to the next taking, was being written already. */
  ghost predicate OnlyThat(s: Server, t: Server, c: ConnectionId) {
    && s.history <= t.history
    && (Takes(t.history) == Takes(s.history) ==> SameRoute(s, t))
    && forall j, message | |s.history| <= j < |t.history| && t.history[j] == Wrote(c, message) && !IsReply(message)
         && Takes(t.history[..j]) <= Takes(s.history) :: BeingWritten(s, c, message)
  }

  lemma OnlyThatOneMore(s: Server, t: Server, t': Server, c: ConnectionId, r: Record)
    requires OnlyThat(s, t, c) && t'.history == t.history + [r]
    requires Takes(t'.history) == Takes(s.history) ==> SameRoute(s, t')
    requires Takes(t.history) <= Takes(s.history) && r.Wrote? && r.connection == c && !IsReply(r.message) ==> BeingWritten(s, c, r.message)
    ensures OnlyThat(s, t', c)
  {
    forall j, message | |s.history| <= j < |t'.history| && t'.history[j] == Wrote(c, message) && !IsReply(message)
      && Takes(t'.history[..j]) <= Takes(s.history)
      ensures BeingWritten(s, c, message)
    {
      assert t'.history[..j] == t.history[..j];
      assert j == |t.history| ==> t.history[..j] == t.history;
    }
  }

  lemma OnlyThatTake(s: Server, t: Server, t': Server, c: ConnectionId)
    requires OnlyThat(s, t, c) && Takes(s.history) <= Takes(t.history)
    requires t'.history == t.history + [Taken]
    ensures OnlyThat(s, t', c) && Takes(s.history) <= Takes(t'.history)
  {
    TakesAppend(t.history, Taken);
    OnlyThatOneMore(s, t, t', c, Taken);
  }

  lemma OnlyThatDeliver(s: Server, t: Server, c: ConnectionId, alive: bool)
    requires OnlyThat(s, t, c) && Takes(s.history) <= Takes(t.history) && t.router.Routing? && t.router.targets != []
    ensures OnlyThat(s, DoDeliver(t, alive), c) && Takes(s.history) <= Takes(DoDeliver(t, alive).history)
  {
    var t', r := DoDeliver(t, alive), Wrote(t.router.targets[0], t.router.message);
    TakesAppend(t.history, r);
    if t'.history != t.history {
      OnlyThatOneMore(s, t, t', c, r);
    }
  }

  lemma OnlyThatOther(s: Server, t: Server, t': Server, c: ConnectionId)
    requires OnlyThat(s, t, c) && Takes(s.history) <= Takes(t.history) && AddsBehind(t, t')
    requires t'.router.Routing? ==> t'.router == t.router && t'.outbound == t.outbound
    ensures OnlyThat(s, t', c) && Takes(s.history) <= Takes(t'.history)
  {
    if t'.history != t.history {
      var r :| t'.history == t.history + [r] && r != Taken && (r.Wrote? ==> IsReply(r.message));
      TakesAppend(t.history, r);
      OnlyThatOneMore(s, t, t', c, r);
    }
  }

  lemma OnlyThatStep(s: Server, t: Server, c: ConnectionId, a: Action)
    requires OnlyThat(s, t, c) && Takes(s.history) <= Takes(t.history) && Can(t, a)
    ensures OnlyThat(s, Do(t, a), c) && Takes(s.history) <= Takes(Do(t, a).history)
  {
    if a.Take? {
      OnlyThatTake(s, t, Do(t, a), c);
    } else if a.Deliver? {
      OnlyThatDeliver(s, t, c, a.alive);
    } else {
      OthersAddBehind(t, a);
      OthersKeepRoute(t, a);
      OnlyThatOther(s, t, Do(t, a), c);
    }
  }

  lemma OthersKeepRoute(t: Server, a: Action)
    requires Can(t, a) && !a.Take? && !a.Deliver?
    ensures Do(t, a).router.Routing? ==> Do(t, a).router == t.router && Do(t, a).outbound == t.outbound
  {
    if a.Serve? || a.AttachNext? || a.TakeEvent? || a.Proceed? {
      assert Do(t, a).outbound == t.outbound;
    }
  }

  lemma {:induction false} OnlyThatRun(s: Server, c: ConnectionId, actions: seq<Action>)
    requires CanRunFrom(s, actions)
    ensures OnlyThat(s, AfterFrom(s, actions), c) && Takes(s.history) <= Takes(AfterFrom(s, actions).history)
  {
    if actions != [] {
      var before := actions[..|actions| - 1];
      OnlyThatRun(s, c, before);
      OnlyThatStep(s, AfterFrom(s, before), c, actions[|actions| - 1]);
    }
  }

  lemma OnlyThatLeads(s: Server, t: Server, c: ConnectionId)
    requires Leads(s, t)
    ensures OnlyThat(s, t, c)
  {
    var actions :| CanRunFrom(s, actions) && AfterFrom(s, actions) == t;
    OnlyThatRun(s, c, actions);
  }

  lemma {:induction false} TakenBetween(h: seq<Record>, i: nat, j: nat) returns (k: nat)
    requires i <= j <= |h| && Takes(h[..i]) < Takes(h[..j])
    ensures i <= k < j && h[k] == Taken
    decreases j
  {
    assert h[..j][..j - 1] == h[..j - 1];
    if h[j - 1] == Taken {
      k := j - 1;
    } else {
      k := TakenBetween(h, i, j - 1);
    }
  }

  ghost predicate WritesLater(s: Server, c: ConnectionId, message: Message) {
    exists t :: Leads(s, t) && s.history <= t.history && Wrote(c, message) in t.history[|s.history|..]
  }

  /**
    When the wish of an initialized connection is copied, a notification that
    it excludes can still be written to the connection, in some run that
    follows, exactly if the router is writing it at that moment.
  */
  lemma LateWriteIff(s: Server, c: ConnectionId, message: Message)
    requires Reachable(s) && s.processor == Copying(c) && CanProceed(s) && s.connections[c].initialized
    requires message.Notification? && message.name in s.connections[c].optOut
    ensures WritesLater(DoProceed(s), c, message) <==> BeingWritten(s, c, message)
  {
    var s' := DoProceed(s);
    if BeingWritten(s, c, message) {
      LeadsHere(s');
      var t, written := DeliversTo(s', s', c);
      assert t.history[|s'.history|..] == written;
    }
    if t :| Leads(s', t) && s'.history <= t.history && Wrote(c, message) in t.history[|s'.history|..] {
      ReachStep(s, Proceed);
      assert Do(s, Proceed) == s';
      AcceptedAtCopy(s, c);
      LateWriteWasUnderWay(s.history, s', c, message, s.connections[c].optOut, t);
    }
  }

  lemma LateWriteWasUnderWay(past: seq<Record>, s: Server, c: ConnectionId, message: Message, wish: set<Method>, t: Server)
    requires Reachable(s) && s.history == past + [Opted(c, wish)] && Accepted(c) in past
    requires message.Notification? && message.name in wish
    requires Leads(s, t) && s.history <= t.history && Wrote(c, message) in t.history[|s.history|..]
    ensures BeingWritten(s, c, message)
  {
    var n := |past|;
    var j := PlaceAfter(past, s.history, t.history, Opted(c, wish), Wrote(c, message));
    OnlyThatLeads(s, t, c);
    ReachLeads(s, t);
    WrittenBeforeTaking(t, n, j, wish);
    OnlyThatAt(s, t, c, j, message);
  }

  /** A record found behind a prefix, and what the prefix looks like from there. */
  lemma PlaceAfter(past: seq<Record>, now: seq<Record>, later: seq<Record>, last: Record, r: Record) returns (j: nat)
    requires now == past + [last] && now <= later && r in later[|now|..]
    ensures |past| < j < |later| && later[j] == r
    ensures later[|past|] == last && later[..|past|] == past && later[..|past| + 1] == now
  {
    var i :| 0 <= i < |later[|now|..]| && later[|now|..][i] == r;
    j := |now| + i;
    assert later[|past|] == now[|past|];
  }

  lemma OnlyThatAt(s: Server, t: Server, c: ConnectionId, j: nat, message: Message)
    requires OnlyThat(s, t, c) && |s.history| <= j < |t.history| && t.history[j] == Wrote(c, message) && !IsReply(message)
    requires Takes(t.history[..j]) <= Takes(s.history)
    ensures BeingWritten(s, c, message)
  {
  }

  /** No excluded notification is written once the router has taken something after the copy. */
  lemma WrittenBeforeTaking(t: Server, n: nat, j: nat, wish: set<Method>)
    requires Reachable(t) && n < j < |t.history| && t.history[j].Wrote?
    requires t.history[n] == Opted(t.history[j].connection, wish) && Accepted(t.history[j].connection) in t.history[..n]
    requires t.history[j].message.Notification? && t.history[j].message.name in wish
    ensures Takes(t.history[..j]) <= Takes(t.history[..n + 1])
  {
    if Takes(t.history[..j]) > Takes(t.history[..n + 1]) {
      var k := TakenBetween(t.history, n + 1, j);
      OptOutIsRespected(t, n, k, j);
    }
  }

  lemma AcceptedAtCopy(s: Server, c: ConnectionId)
    requires Reachable(s) && c in s.connections && s.connections[c].initialized
    ensures Accepted(c) in s.history
  {
    ReachableIsTrusted(s);
  }
}
