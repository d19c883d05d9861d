/**
  Routing one outgoing envelope, as the router task does it: over a map of
  connections, writing to each target and dropping those whose writer is gone.
*/
module OutboundRouter {
  import opened Subscriptions
  import opened AppServer
  import opened AppServerMaps

  /** The sending half of a connection's queue; sending fails once the receiver is gone. */
  class Writer {
    /** The connection it writes to. */
    ghost const owner: ConnectionId
    const alive: bool
    var sent: seq<Message>

    constructor (ghost owner: ConnectionId, alive: bool)
      ensures this.owner == owner && this.alive == alive && sent == []
    {
      this.owner, this.alive, sent := owner, alive, [];
    }

    method Send(message: Message) returns (ok: bool)
      modifies this
      ensures ok == alive
      ensures sent == if alive then old(sent) + [message] else old(sent)
    {
      if alive {
        sent := sent + [message];
      }
      return alive;
    }
  }

  datatype Outbound = Outbound(writer: Writer, cell: Cell)

  /** `should_skip_notification_for_connection` */
  predicate ShouldSkip(cell: Cell, message: Message) {
    message.Notification? && message.name in cell.optOut
  }

  /** Of these connections, the ones whose writer is gone. */
  function Unreachable(connections: map<ConnectionId, Outbound>, these: set<ConnectionId>): set<ConnectionId> {
    set c | c in these && c in connections && !connections[c].writer.alive
  }

  lemma UnreachableMore(connections: map<ConnectionId, Outbound>, these: set<ConnectionId>, c: ConnectionId)
    requires c in connections && c !in these
    ensures var found, more := Unreachable(connections, these), Unreachable(connections, these + {c});
      if connections[c].writer.alive then more == found
      else more == found + {c} && connections - more == (connections - found) - {c}
  {
    var found := Unreachable(connections, these);
    assert Unreachable(connections, these + {c}) == if connections[c].writer.alive then found else found + {c};
  }

  function TargetsOf(connections: map<ConnectionId, Outbound>, envelope: Envelope): set<ConnectionId> {
    match envelope
    case ToConnection(c, message) => if c in connections && !ShouldSkip(connections[c].cell, message) then {c} else {}
    case Broadcast(message) =>
      set c | c in connections && connections[c].cell.initialized && !ShouldSkip(connections[c].cell, message)
  }

  class Connections {
    var byId: map<ConnectionId, Outbound>

    constructor ()
      ensures byId == map[]
    {
      byId := map[];
    }

    /** Every connection has a writer of its own. */
    ghost predicate Valid()
      reads this
    {
      forall c | c in byId :: byId[c].writer.owner == c
    }

    function Writers(): set<Writer>
      reads this
    {
      set c | c in byId :: byId[c].writer
    }

    function Targets(envelope: Envelope): set<ConnectionId>
      reads this
    {
      TargetsOf(byId, envelope)
    }

    /** One write; a connection whose writer is gone leaves the map. */
    method SendTo(c: ConnectionId, message: Message) returns (ok: bool)
      requires Valid() && c in byId
      modifies this, byId[c].writer
      ensures ok == old(byId[c]).writer.alive
      ensures byId == if ok then old(byId) else old(byId) - {c}
      ensures old(byId[c]).writer.sent == old(byId[c].writer.sent) + if ok then [message] else []
    {
      ok := byId[c].writer.Send(message);
      if !ok {
        byId := byId - {c};
      }
    }

    /** `route_outgoing_envelope`; a broadcast visits its targets in some order. */
    method Route(envelope: Envelope) returns (disconnected: seq<ConnectionId>)
      requires Valid()
      modifies this, Writers()
      ensures Valid()
      ensures byId == old(byId) - Unreachable(old(byId), old(Targets(envelope)))
      ensures forall c :: c in disconnected <==> c in Unreachable(old(byId), old(Targets(envelope)))
      ensures forall i, j | 0 <= i < j < |disconnected| :: disconnected[i] != disconnected[j]
      ensures forall c | c in old(byId) ::
        var w := old(byId[c]).writer;
        w.sent == old(w.sent) + (if c in old(Targets(envelope)) && w.alive then [envelope.message] else [])
    {
      disconnected := [];
      ghost var before := byId;
      var todo := Targets(envelope);
      ghost var done: set<ConnectionId> := {};
      while todo != {}
        invariant Valid()
        invariant done !! todo && done + todo == old(Targets(envelope))
        invariant byId == before - Unreachable(before, done)
        invariant forall c :: c in disconnected <==> c in Unreachable(before, done)
        invariant forall i, j | 0 <= i < j < |disconnected| :: disconnected[i] != disconnected[j]
        invariant forall c | c in before ::
          before[c].writer.sent == old(before[c].writer.sent) + (if c in done && before[c].writer.alive then [envelope.message] else [])
      {
        var c :| c in todo;
        assert c in byId && byId[c] == before[c];
        var ok := SendTo(c, envelope.message);
        UnreachableMore(before, done, c);
        todo, done := todo - {c}, done + {c};
        if !ok {
          disconnected := disconnected + [c];
        }
      }
      assert done == old(Targets(envelope));
    }
  }

  // --- The same in steps ---------------------------------------------------------------------------------------

  /** The router's writes to the targets that are left, of which these connections have a live writer. */
  function DeliverAll(s: Server, live: set<ConnectionId>): (r: Server)
    requires s.router.Routing?
    ensures r.router.Routing? && r.router.targets == []
    decreases |s.router.targets|
  {
    if s.router.targets == [] then s else DeliverAll(DoDeliver(s, s.router.targets[0] in live), live)
  }

  function Writes(targets: seq<ConnectionId>, live: set<ConnectionId>, message: Message): seq<Record> {
    if targets == [] then []
    else (if targets[0] in live then [Wrote(targets[0], message)] else []) + Writes(targets[1..], live, message)
  }

  function Lost(targets: seq<ConnectionId>, live: set<ConnectionId>): (lost: seq<ConnectionId>)
    ensures forall c :: c in lost <==> c in targets && c !in live
  {
    if targets == [] then []
    else (if targets[0] in live then [] else [targets[0]]) + Lost(targets[1..], live)
  }

  predicate NoRepeats(ids: seq<ConnectionId>) {
    forall i, j | 0 <= i < j < |ids| :: ids[i] != ids[j]
  }

  lemma LostAndWritten(targets: seq<ConnectionId>, live: set<ConnectionId>, message: Message)
    requires targets != []
    ensures Lost(targets, live) == (if targets[0] in live then [] else [targets[0]]) + Lost(targets[1..], live)
    ensures Writes(targets, live, message) ==
      (if targets[0] in live then [Wrote(targets[0], message)] else []) + Writes(targets[1..], live, message)
  {
  }

  lemma DeliverStep(s: Server, live: set<ConnectionId>)
    requires s.router.Routing? && s.router.targets != [] && s.router.targets[0] in s.outbound
    ensures var c := s.router.targets[0];
      var next := DoDeliver(s, c in live);
      && next.router == Routing(s.router.message, s.router.targets[1..], s.router.disconnected + if c in live then [] else [c])
      && next.outbound == (if c in live then s.outbound else s.outbound - {c}) && next.cells == s.cells
      && next.history == s.history + (if c in live then [Wrote(c, s.router.message)] else [])
      && DeliverAll(s, live) == DeliverAll(next, live)
  {
  }

  /** From what one delivery does and what the others do, what all do. */
  lemma Together(history: seq<Record>, disconnected: seq<ConnectionId>, targets: seq<ConnectionId>, live: set<ConnectionId>, message: Message)
    requires targets != []
    ensures var c, rest := targets[0], targets[1..];
      && history + (if c in live then [Wrote(c, message)] else []) + Writes(rest, live, message)
        == history + Writes(targets, live, message)
      && disconnected + (if c in live then [] else [c]) + Lost(rest, live) == disconnected + Lost(targets, live)
  {
    LostAndWritten(targets, live, message);
    var c, rest := targets[0], targets[1..];
    Associates(history, if c in live then [Wrote(c, message)] else [], Writes(rest, live, message));
    Associates(disconnected, if c in live then [] else [c], Lost(rest, live));
  }

  lemma Associates<T>(a: seq<T>, b: seq<T>, c: seq<T>)
    ensures a + b + c == a + (b + c)
  {
  }

  lemma {:induction false} DeliverAllMeaning(s: Server, live: set<ConnectionId>)
    requires s.router.Routing? && NoRepeats(s.router.targets) && forall c | c in s.router.targets :: c in s.outbound
    ensures var r, lost := DeliverAll(s, live), Lost(s.router.targets, live);
      && (forall c :: c in r.outbound <==> c in s.outbound && c !in lost)
      && r.history == s.history + Writes(s.router.targets, live, s.router.message)
      && r.router.disconnected == s.router.disconnected + lost
      && r.cells == s.cells
    decreases |s.router.targets|
  {
    var targets := s.router.targets;
    if targets != [] {
      var c, rest := targets[0], targets[1..];
      assert forall i | 0 <= i < |rest| :: rest[i] == targets[i + 1];
      assert targets == [c] + rest && c !in rest;
      var next := DoDeliver(s, c in live);
      DeliverStep(s, live);
      Together(s.history, s.router.disconnected, targets, live, s.router.message);
      RestOutbound(s.outbound, next.outbound, rest, c, live);
      DeliverAllMeaning(next, live);
    }
  }

  lemma RestOutbound(before: set<ConnectionId>, after: set<ConnectionId>, rest: seq<ConnectionId>, c: ConnectionId, live: set<ConnectionId>)
    requires (forall d | d in rest :: d in before) && c !in rest && after == if c in live then before else before - {c}
    ensures forall d | d in rest :: d in after
  {
  }

  /** The map is the router's share of the state. */
  ghost predicate Represents(connections: map<ConnectionId, Outbound>, s: Server) {
    connections.Keys == s.outbound && forall c | c in connections :: c in s.cells && connections[c].cell == s.cells[c]
  }

  ghost predicate CanTake(s: Server, order: seq<ConnectionId>) {
    && s.router.Waiting? && s.outgoing != []
    && (s.outgoing[0].Broadcast? ==> Enumerates(order, BroadcastTargets(s, s.outgoing[0].message)))
  }

  function Listed(ids: seq<ConnectionId>): set<ConnectionId> {
    set c | c in ids
  }

  lemma {:induction false} ListedOnce(ids: seq<ConnectionId>, all: set<ConnectionId>)
    requires Enumerates(ids, all)
    ensures NoRepeats(ids)
    decreases |ids|
  {
    if ids != [] {
      var rest := ids[1..];
      assert ids == [ids[0]] + rest;
      FewerThanListed(rest);
      assert ids[0] in rest ==> all == Listed(rest);
      assert forall c :: c in rest <==> c in all - {ids[0]};
      ListedOnce(rest, all - {ids[0]});
    }
  }

  lemma {:induction false} FewerThanListed(ids: seq<ConnectionId>)
    ensures |Listed(ids)| <= |ids|
  {
    if ids != [] {
      FewerThanListed(ids[1..]);
      assert ids == [ids[0]] + ids[1..];
      if ids[0] in ids[1..] {
        assert Listed(ids) == Listed(ids[1..]);
      } else {
        assert Listed(ids) == Listed(ids[1..]) + {ids[0]};
      }
    }
  }

  lemma TakenTargets(connections: map<ConnectionId, Outbound>, s: Server, order: seq<ConnectionId>)
    requires Represents(connections, s) && CanTake(s, order)
    ensures var targets := DoTake(s, order).router.targets;
      NoRepeats(targets) && forall c :: c in targets <==> c in TargetsOf(connections, s.outgoing[0])
  {
    match s.outgoing[0]
    case ToConnection(c, message) =>
    case Broadcast(message) =>
      ListedOnce(order, BroadcastTargets(s, message));
      forall c ensures c in BroadcastTargets(s, message) <==> c in TargetsOf(connections, s.outgoing[0]) {
      }
  }

  /** How often the connection was written to. */
  function WritesTo(records: seq<Record>, c: ConnectionId, message: Message): nat {
    if records == [] then 0 else (if records[0] == Wrote(c, message) then 1 else 0) + WritesTo(records[1..], c, message)
  }

  lemma {:induction false} WritesOnce(targets: seq<ConnectionId>, live: set<ConnectionId>, message: Message, c: ConnectionId)
    requires NoRepeats(targets)
    ensures WritesTo(Writes(targets, live, message), c, message) == if c in targets && c in live then 1 else 0
  {
    if targets != [] {
      var rest := targets[1..];
      assert forall i | 0 <= i < |rest| :: rest[i] == targets[i + 1];
      assert targets == [targets[0]] + rest;
      WritesOnce(rest, live, message, c);
      var writes := Writes(targets, live, message);
      if targets[0] in live {
        assert writes[1..] == Writes(rest, live, message);
      } else {
        assert writes == Writes(rest, live, message);
      }
    }
  }

  lemma {:induction false} LostOnce(targets: seq<ConnectionId>, live: set<ConnectionId>)
    requires NoRepeats(targets)
    ensures NoRepeats(Lost(targets, live))
  {
    if targets != [] {
      var rest := targets[1..];
      assert forall i | 0 <= i < |rest| :: rest[i] == targets[i + 1];
      LostOnce(rest, live);
      if targets[0] !in live {
        assert targets[0] !in rest;
        assert Lost(targets, live) == [targets[0]] + Lost(rest, live);
      } else {
        assert Lost(targets, live) == Lost(rest, live);
      }
    }
  }

  /**
    Taking an envelope and delivering it step by step does to the router's
    share of the state what routing it does to the map: the connections that
    are left, those reported, and one write to each target with a live writer.
  */
  lemma StepsRouteEnvelope(connections: map<ConnectionId, Outbound>, s: Server, order: seq<ConnectionId>, live: set<ConnectionId>)
    requires Represents(connections, s) && CanTake(s, order)
    requires forall c | c in connections :: c in live <==> connections[c].writer.alive
    ensures var routed, targets := DeliverAll(DoTake(s, order), live), TargetsOf(connections, s.outgoing[0]);
      && Represents(connections - Unreachable(connections, targets), routed)
      && NoRepeats(routed.router.disconnected)
      && (forall c :: c in routed.router.disconnected <==> c in Unreachable(connections, targets))
    ensures var routed, targets := DeliverAll(DoTake(s, order), live), TargetsOf(connections, s.outgoing[0]);
      exists writes :: routed.history == s.history + [Taken] + writes
        && forall c :: WritesTo(writes, c, s.outgoing[0].message) == if c in targets && c in live then 1 else 0
  {
    var message, taken := s.outgoing[0].message, DoTake(s, order);
    var targets := taken.router.targets;
    TakenTargets(connections, s, order);
    DeliverAllMeaning(taken, live);
    LostOnce(targets, live);
    var writes := Writes(targets, live, message);
    forall c ensures WritesTo(writes, c, message) == if c in TargetsOf(connections, s.outgoing[0]) && c in live then 1 else 0 {
      WritesOnce(targets, live, message, c);
    }
    assert taken.history == s.history + [Taken];
  }

  lemma TargetsInMap(s: Server, order: seq<ConnectionId>)
    requires CanTake(s, order)
    ensures NoRepeats(DoTake(s, order).router.targets)
    ensures forall c | c in DoTake(s, order).router.targets :: c in s.outbound
  {
    match s.outgoing[0]
    case ToConnection(c, message) =>
    case Broadcast(message) => ListedOnce(order, BroadcastTargets(s, message));
  }

  /**
    A message for a held connection is not lost: it is written to it, once, if
    there is still a receiver, and otherwise the connection is dropped and
    reported.
  */
  lemma HeldConnectionsAreReached(s: Server, c: ConnectionId, order: seq<ConnectionId>, live: set<ConnectionId>)
    requires Reachable(s) && Can(s, Take(order)) && s.control == []
    requires Held(s, c) && !Leaving(s, c) && IsFor(s, s.outgoing[0], c) && !Skipped(s, c, s.outgoing[0].message)
    ensures var routed := DeliverAll(DoTake(s, order), live);
      if c in live then exists writes :: routed.history == s.history + [Taken] + writes && WritesTo(writes, c, s.outgoing[0].message) == 1
      else c !in routed.outbound && c in routed.router.disconnected
  {
    var taken := DoTake(s, order);
    var targets := taken.router.targets;
    HeldConnectionsAreTargets(s, c, order);
    TargetsInMap(s, order);
    DeliverAllMeaning(taken, live);
    WritesOnce(targets, live, s.outgoing[0].message, c);
    assert taken.history == s.history + [Taken];
    assert c !in live ==> c in Lost(targets, live);
  }
}
