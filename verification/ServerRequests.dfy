/**
  Requests of the server to its clients: identifiers, the table of those that
  wait for an answer, and what becomes of each of them.
*/
module ServerRequests {
  import opened Wrappers
  import opened Subscriptions
  import opened AppServer

  /** Clients may answer with any identifier, also with one that is no number. */
  datatype RequestId = Integer(value: int) | Text(text: string)

  datatype Answer = Result(json: string) | Failure(code: int)

  /** What happens to the table, task by task; every clause of `send_request_with_id_to_connections` by itself. */
  datatype Act =
    | Issue
    | Register(id: nat)
    | SendFailed(id: nat)
    | Answered(client: ConnectionId, request: RequestId, answer: Answer)
    | Cancel(id: nat)

  datatype Delivery = Delivery(id: nat, answer: Answer)

  datatype Table = Table(next: nat, unregistered: set<nat>, callbacks: set<nat>, delivered: seq<Delivery>)

  const EMPTY_TABLE := Table(0, {}, {}, [])

  predicate Waits(t: Table, id: RequestId) {
    id.Integer? && 0 <= id.value && id.value in t.callbacks
  }

  function Apply(t: Table, act: Act): Table {
    match act
    case Issue => t.(next := t.next + 1, unregistered := t.unregistered + {t.next})
    case Register(id) =>
      if id in t.unregistered then t.(unregistered := t.unregistered - {id}, callbacks := t.callbacks + {id}) else t
    case SendFailed(id) => t.(callbacks := t.callbacks - {id})
    case Answered(_, id, answer) =>
      if Waits(t, id) then
        t.(callbacks := t.callbacks - {id.value}, delivered := t.delivered + [Delivery(id.value, answer)])
      else t
    case Cancel(id) => t.(callbacks := t.callbacks - {id})
  }

  function TableAfter(acts: seq<Act>): Table {
    if acts == [] then EMPTY_TABLE else Apply(TableAfter(acts[..|acts| - 1]), acts[|acts| - 1])
  }

  // --- The fate of one request ---------------------------------------------------------------------------

  datatype Fate = NotIssued | Unregistered | Pending | GotAnswer(answer: Answer) | Cancelled | Dropped

  predicate Final(fate: Fate) {
    fate.GotAnswer? || fate.Cancelled? || fate.Dropped?
  }

  function Issued(acts: seq<Act>): nat {
    if acts == [] then 0 else Issued(acts[..|acts| - 1]) + if acts[|acts| - 1].Issue? then 1 else 0
  }

  /** What becomes of a request by one act, when so many were issued before. */
  function NextFate(fate: Fate, issued: nat, act: Act, id: nat): Fate {
    match act
    case Issue => if issued == id then Unregistered else fate
    case Register(i) => if i == id && fate.Unregistered? then Pending else fate
    case SendFailed(i) => if i == id && fate.Pending? then Dropped else fate
    case Answered(_, i, answer) => if i == Integer(id) && fate.Pending? then GotAnswer(answer) else fate
    case Cancel(i) => if i == id && fate.Pending? then Cancelled else fate
  }

  /** What a request has come to, told from what happened to it alone. */
  function FateOf(acts: seq<Act>, id: nat): Fate {
    if acts == [] then NotIssued
    else
      var earlier := acts[..|acts| - 1];
      NextFate(FateOf(earlier, id), Issued(earlier), acts[|acts| - 1], id)
  }

  /** The answers that the waiter of a request was given. */
  function AnswersTo(delivered: seq<Delivery>, id: nat): seq<Answer> {
    if delivered == [] then []
    else
      var last := delivered[|delivered| - 1];
      AnswersTo(delivered[..|delivered| - 1], id) + if last.id == id then [last.answer] else []
  }

  lemma AnswersAppend(delivered: seq<Delivery>, d: Delivery, id: nat)
    ensures AnswersTo(delivered + [d], id) == AnswersTo(delivered, id) + if d.id == id then [d.answer] else []
  {
    assert (delivered + [d])[..|delivered|] == delivered;
  }

  /** The table is in the state that goes with the fate. */
  ghost predicate Knows(t: Table, issued: nat, id: nat, fate: Fate) {
    && t.next == issued
    && (fate == NotIssued <==> issued <= id)
    && (id in t.unregistered <==> fate == Unregistered)
    && (id in t.callbacks <==> fate == Pending)
    && AnswersTo(t.delivered, id) == if fate.GotAnswer? then [fate.answer] else []
  }

  lemma KnowsNext(t: Table, issued: nat, id: nat, fate: Fate, act: Act)
    requires Knows(t, issued, id, fate)
    ensures Knows(Apply(t, act), issued + if act.Issue? then 1 else 0, id, NextFate(fate, issued, act, id))
  {
    if act.Answered? && Waits(t, act.request) {
      AnswersAppend(t.delivered, Delivery(act.request.value, act.answer), id);
    }
  }

  /**
    After every sequence of acts the table knows each request by its fate: an
    identifier is issued once, is in the table exactly while it waits, and its
    waiter was given the one answer of its fate, or none.
  */
  lemma {:induction false} TableTellsFates(acts: seq<Act>, id: nat)
    ensures Knows(TableAfter(acts), Issued(acts), id, FateOf(acts, id))
  {
    if acts != [] {
      var earlier := acts[..|acts| - 1];
      TableTellsFates(earlier, id);
      KnowsNext(TableAfter(earlier), Issued(earlier), id, FateOf(earlier, id), acts[|acts| - 1]);
    }
  }

  /** A request that is settled stays so, whatever else happens. */
  lemma {:induction false} FinalFatesStay(acts: seq<Act>, more: seq<Act>, id: nat)
    requires Final(FateOf(acts, id))
    ensures FateOf(acts + more, id) == FateOf(acts, id)
  {
    if more == [] {
      assert acts + more == acts;
    } else {
      var earlier, act := more[..|more| - 1], more[|more| - 1];
      FinalFatesStay(acts, earlier, id);
      assert (acts + more)[..|acts + more| - 1] == acts + earlier;
      TableTellsFates(acts + earlier, id);
    }
  }

  /**
    The first answer to a waiting request is the only one its waiter ever
    gets, though several connections were asked and answer.
  */
  lemma FirstAnswerIsTheOnlyOne(acts: seq<Act>, client: ConnectionId, id: nat, answer: Answer, more: seq<Act>)
    requires FateOf(acts, id) == Pending
    ensures AnswersTo(TableAfter(acts + [Answered(client, Integer(id), answer)] + more).delivered, id) == [answer]
  {
    var answered := acts + [Answered(client, Integer(id), answer)];
    assert answered[..|answered| - 1] == acts;
    assert FateOf(answered, id) == GotAnswer(answer);
    FinalFatesStay(answered, more, id);
    TableTellsFates(answered + more, id);
  }

  /** Two issues never give the same identifier: each gives the number of issues before it. */
  lemma {:induction false} IdentifiersAreFresh(acts: seq<Act>, i: nat, j: nat)
    requires i < j < |acts| && acts[i].Issue? && acts[j].Issue?
    ensures TableAfter(acts[..i]).next < TableAfter(acts[..j]).next
  {
    TableTellsFates(acts[..i], 0);
    TableTellsFates(acts[..j], 0);
    IssuedGrows(acts, i, j);
  }

  lemma {:induction false} IssuedGrows(acts: seq<Act>, i: nat, j: nat)
    requires i < j <= |acts| && acts[i].Issue?
    ensures Issued(acts[..i]) < Issued(acts[..j])
  {
    assert acts[..j][..j - 1] == acts[..j - 1];
    if i < j - 1 {
      IssuedGrows(acts, i, j - 1);
    }
  }

  // --- The sender itself -----------------------------------------------------------------------------------

  /** The waiting end of one request; its sender is used up by sending. */
  class Waiter {
    ghost const id: nat
    var answer: Option<Answer>

    constructor (ghost id: nat)
      ensures this.id == id && answer == None
    {
      this.id, answer := id, None;
    }

    method Send(given: Answer)
      requires answer.None?
      modifies this
      ensures answer == Some(given)
    {
      answer := Some(given);
    }
  }

  /** The queue to the router, which may close at any time: it takes so many more envelopes, or any number. */
  class Queue {
    var items: seq<Envelope>
    var left: Option<nat>

    constructor (left: Option<nat>)
      ensures items == [] && this.left == left
    {
      items, this.left := [], left;
    }

    function Takes(n: nat): (m: nat)
      reads this
      ensures m <= n
    {
      if left.Some? && left.value < n then left.value else n
    }

    method Send(e: Envelope) returns (ok: bool)
      modifies this
      ensures ok == (old(Takes(1)) == 1)
      ensures items == if ok then old(items) + [e] else old(items)
      ensures left == if ok && old(left).Some? then Some(old(left).value - 1) else old(left)
    {
      if left == Some(0) {
        return false;
      }
      items := items + [e];
      if left.Some? {
        left := Some(left.value - 1);
      }
      return true;
    }
  }

  lemma AfterMore(acts: seq<Act>, act: Act)
    ensures TableAfter(acts + [act]) == Apply(TableAfter(acts), act)
  {
    assert (acts + [act])[..|acts|] == acts;
  }

  /** What sending does to a table in which every issued request is registered. */
  function SendActs(id: nat, ok: bool): seq<Act> {
    [Issue, Register(id)] + if ok then [] else [SendFailed(id)]
  }

  lemma AfterSend(acts: seq<Act>, ok: bool)
    requires TableAfter(acts).unregistered == {}
    ensures var t := TableAfter(acts);
      TableAfter(acts + SendActs(t.next, ok)) ==
        t.(next := t.next + 1, callbacks := if ok then t.callbacks + {t.next} else t.callbacks - {t.next})
  {
    var t := TableAfter(acts);
    AfterMore(acts, Issue);
    AfterMore(acts + [Issue], Register(t.next));
    assert acts + [Issue] + [Register(t.next)] == acts + SendActs(t.next, true);
    var registered := Apply(Apply(t, Issue), Register(t.next));
    assert registered == t.(next := t.next + 1, callbacks := t.callbacks + {t.next});
    if !ok {
      AfterMore(acts + SendActs(t.next, true), SendFailed(t.next));
      assert acts + SendActs(t.next, true) + [SendFailed(t.next)] == acts + SendActs(t.next, false);
      assert registered.callbacks - {t.next} == t.callbacks - {t.next};
    }
  }

  class OutgoingMessageSender {
    var next: nat
    var callbacks: map<nat, Waiter>
    const queue: Queue
    /** What the sender has done so far. */
    ghost var acts: seq<Act>

    constructor (queue: Queue)
      ensures Valid() && next == 0 && callbacks == map[] && acts == [] && this.queue == queue
    {
      next, callbacks, this.queue := 0, map[], queue;
      acts := [];
    }

    /** The sender holds the table that its acts lead to; waiters in it are unanswered and their own. */
    ghost predicate Valid()
      reads this, callbacks.Values
    {
      && TableAfter(acts).next == next && TableAfter(acts).unregistered == {} && TableAfter(acts).callbacks == callbacks.Keys
      && forall id | id in callbacks :: id < next && callbacks[id].id == id && callbacks[id].answer.None?
    }

    /** Between two calls of the sender every request is known by its fate. */
    lemma SenderTellsFates(id: nat)
      requires Valid()
      ensures id in callbacks <==> FateOf(acts, id) == Pending
      ensures id < next <==> FateOf(acts, id) != NotIssued
      ensures FateOf(acts, id) != Unregistered
    {
      TableTellsFates(acts, id);
    }

    /** `send_request_with_id_to_connections` */
    method SendRequest(ids: seq<ConnectionId>, scope: Option<ThreadId>) returns (id: nat, waiter: Waiter)
      requires Valid()
      modifies this, queue
      ensures Valid()
      ensures id == old(next) && next == id + 1 && id !in old(callbacks)
      ensures fresh(waiter) && waiter.answer.None?
      ensures var envelopes := SendToConnections(ids, Request(id, scope));
        var taken := old(queue.Takes(|envelopes|));
        && queue.items == old(queue.items) + envelopes[..taken]
        && callbacks == (if taken == |envelopes| then old(callbacks)[id := waiter] else old(callbacks))
        && acts == old(acts) + SendActs(id, taken == |envelopes|)
    {
      id := next;
      next := next + 1;
      waiter := new Waiter(id);
      callbacks := callbacks[id := waiter];
      var ok := Offer(ids, Request(id, scope));
      if !ok {
        callbacks := callbacks - {id};
        assert callbacks == old(callbacks);
      }
      AfterSend(acts, ok);
      acts := acts + SendActs(id, ok);
    }

    /** The sends of one request, up to the first that fails. */
    method Offer(ids: seq<ConnectionId>, message: Message) returns (ok: bool)
      modifies queue
      ensures var envelopes := SendToConnections(ids, message);
        var taken := old(queue.Takes(|envelopes|));
        && queue.items == old(queue.items) + envelopes[..taken]
        && ok == (taken == |envelopes|)
    {
      ok := true;
      ghost var envelopes := SendToConnections(ids, message);
      if ids == [] {
        ok := queue.Send(Broadcast(message));
        assert envelopes[..1] == [Broadcast(message)];
      } else {
        var i := 0;
        while i < |ids|
          modifies queue
          invariant 0 <= i <= |ids|
          invariant queue.items == old(queue.items) + envelopes[..i]
          invariant i <= old(queue.Takes(|ids|))
          invariant old(queue.left).None? ==> queue.left.None?
          invariant old(queue.left).Some? ==> queue.left == Some(old(queue.left).value - i)
          invariant ok
        {
          assert envelopes[..i + 1] == envelopes[..i] + [envelopes[i]];
          ok := queue.Send(ToConnection(ids[i], message));
          if !ok {
            break;
          }
          i := i + 1;
        }
      }
    }

    /** The thread-scoped sender: nobody is asked when nobody subscribes, and no identifier is spent. */
    method SendRequestToSubscribers(ids: seq<ConnectionId>, t: ThreadId) returns (waiter: Waiter)
      requires Valid()
      modifies this, queue
      ensures Valid() && fresh(waiter) && waiter.answer.None?
      ensures ids == [] ==>
        next == old(next) && callbacks == old(callbacks) && acts == old(acts) && queue.items == old(queue.items)
      ensures ids != [] ==>
        var id, taken := old(next), old(queue.Takes(|ids|));
        && queue.items == old(queue.items) + SendToSubscribers(ids, Request(id, Some(t)))[..taken]
        && next == id + 1
        && callbacks == (if taken == |ids| then old(callbacks)[id := waiter] else old(callbacks))
        && acts == old(acts) + SendActs(id, taken == |ids|)
    {
      if ids == [] {
        waiter := new Waiter(next);
      } else {
        var _, asked := SendRequest(ids, Some(t));
        waiter := asked;
      }
    }

    /** `notify_client_response` and `notify_client_error`: the waiter is taken out of the table and told. */
    method Notify(ghost client: ConnectionId, id: RequestId, answer: Answer)
      requires Valid()
      modifies this, callbacks.Values
      ensures Valid() && next == old(next) && acts == old(acts) + [Answered(client, id, answer)]
      ensures callbacks == if id.Integer? && 0 <= id.value then old(callbacks) - {id.value} else old(callbacks)
      ensures forall i | i in old(callbacks) ::
        old(callbacks[i]).answer == if id == Integer(i) then Some(answer) else None
    {
      AfterMore(acts, Answered(client, id, answer));
      acts := acts + [Answered(client, id, answer)];
      if id.Integer? && 0 <= id.value && id.value in callbacks {
        var waiter := callbacks[id.value];
        callbacks := callbacks - {id.value};
        waiter.Send(answer);
      }
    }

    method CancelRequest(id: nat) returns (found: bool)
      requires Valid()
      modifies this
      ensures Valid() && next == old(next) && callbacks == old(callbacks) - {id} && acts == old(acts) + [Cancel(id)]
      ensures found == (id in old(callbacks))
    {
      AfterMore(acts, Cancel(id));
      acts := acts + [Cancel(id)];
      found := id in callbacks;
      callbacks := callbacks - {id};
    }
  }
}
