/**
  Rollbacks as the request handler makes them: it asks, submits, and if the
  submission fails clears the request again. Requests are handled one after
  the other, so only events come in between.
*/
module TurnRollbacks {
  import opened Wrappers
  import opened TurnEvents

  /** The accepted request whose handler may still have its submission to wait for. */
  function InHandler(h: seq<Input>): Option<RequestRef> {
    if h == [] then None
    else
      var init, last := h[..|h| - 1], h[|h| - 1];
      if last.RollbackAsked? then
        if last.turns >= 1 && Run(init).state.rollback.None? then Some(last.request) else None
      else if IsRequest(last) then None
      else InHandler(init)
  }

  /** Failed submissions are noticed by the handlers that made them. */
  predicate Sequential(h: seq<Input>) {
    h == [] || (
      var init, last := h[..|h| - 1], h[|h| - 1];
      Sequential(init) && (last.RollbackNotSubmitted? ==> InHandler(init) == Some(last.request)))
  }

  /** Since the last request of any kind, something has settled the pending rollback. */
  predicate SettledSince(h: seq<Input>) {
    h != [] && !IsRequest(h[|h| - 1]) && (Settles(h[|h| - 1]) || SettledSince(h[..|h| - 1]))
  }

  /** The rollback was asked for, settled, and then could not be submitted. */
  ghost predicate SettledInBetween(h: seq<Input>, request: RequestRef) {
    exists k, m, n | 0 <= k < m < n < |h| :: Asks(h[k], request) && Settles(h[m]) && h[n] == RollbackNotSubmitted(request)
  }

  predicate Asks(input: Input, request: RequestRef) {
    input.RollbackAsked? && input.request == request
  }

  // --- While the handler waits ----------------------------------------------------------------------------

  lemma EventOnRollback(s: State, event: Input)
    requires !IsRequest(event)
    ensures Handle(s, event).state.rollback == if Settles(event) then None else s.rollback
  {
    if !ConcernsRollback(event) {
      OtherInputsLeaveRollback(s, event, 0);
    }
  }

  lemma {:induction false} HandlerSees(h: seq<Input>)
    requires InHandler(h).Some?
    ensures Run(h).state.rollback == if SettledSince(h) then None else InHandler(h)
  {
    var init, last := h[..|h| - 1], h[|h| - 1];
    if !IsRequest(last) {
      HandlerSees(init);
      EventOnRollback(Run(init).state, last);
    }
  }

  /** No request is forgotten because another one could not be submitted. */
  lemma {:induction false} NothingLost(h: seq<Input>, request: RequestRef)
    requires Sequential(h)
    ensures Lost(h, request) == 0
  {
    if h != [] {
      NothingLost(h[..|h| - 1], request);
      if h[|h| - 1].RollbackNotSubmitted? {
        HandlerSees(h[..|h| - 1]);
      }
    }
  }

  /** One asking can fail late at most once. */
  lemma {:induction false} LateAtMostOnce(h: seq<Input>, request: RequestRef)
    requires Sequential(h)
    ensures Late(h, request) + (if InHandler(h) == Some(request) then 1 else 0) <= RollbacksAsked(h, request)
  {
    if h != [] {
      LateAtMostOnce(h[..|h| - 1], request);
    }
  }

  // --- Between asking and failing ---------------------------------------------------------------------------

  /** Where the handler asked; since then there were only events. */
  lemma {:induction false} HandlerAsked(h: seq<Input>, request: RequestRef) returns (k: nat)
    requires InHandler(h) == Some(request)
    ensures k < |h| && Asks(h[k], request)
    ensures SettledSince(h) <==> exists m | k < m < |h| :: Settles(h[m])
  {
    var init, last := h[..|h| - 1], h[|h| - 1];
    if last.RollbackAsked? {
      k := |h| - 1;
    } else {
      k := HandlerAsked(init, request);
      assert forall m | 0 <= m < |init| :: init[m] == h[m];
      if SettledSince(h) && !Settles(last) {
        var m :| k < m < |init| && Settles(init[m]);
        assert Settles(h[m]);
      }
      if m :| k < m < |h| && Settles(h[m]) {
        assert m < |init| ==> Settles(init[m]);
      }
    }
  }

  lemma {:induction false} AskedTwice(h: seq<Input>, k: nat, l: nat, request: RequestRef)
    requires k < l < |h| && Asks(h[k], request) && Asks(h[l], request)
    ensures RollbacksAsked(h, request) >= 2
  {
    var init := h[..|h| - 1];
    if l < |init| {
      AskedTwice(init, k, l, request);
    } else {
      AskedOnce(init, k, request);
    }
  }

  lemma {:induction false} AskedOnce(h: seq<Input>, k: nat, request: RequestRef)
    requires k < |h| && Asks(h[k], request)
    ensures RollbacksAsked(h, request) >= 1
  {
    if k < |h| - 1 {
      AskedOnce(h[..|h| - 1], k, request);
    }
  }

  lemma {:induction false} LateMeaning(h: seq<Input>, request: RequestRef) returns (n: nat)
    requires Sequential(h) && Late(h, request) >= 1
    ensures n < |h| && h[n] == RollbackNotSubmitted(request) && InHandler(h[..n]) == Some(request) && SettledSince(h[..n])
  {
    var init := h[..|h| - 1];
    if IsLate(Run(init).state, h[|h| - 1], request) {
      n := |h| - 1;
      HandlerSees(init);
    } else {
      n := LateMeaning(init, request);
      assert init[..n] == h[..n];
    }
  }

  lemma {:induction false} LateAt(h: seq<Input>, n: nat, request: RequestRef)
    requires Sequential(h) && n < |h| && h[n] == RollbackNotSubmitted(request)
    requires InHandler(h[..n]) == Some(request) && SettledSince(h[..n])
    ensures Late(h, request) >= 1
  {
    var init := h[..|h| - 1];
    if n < |init| {
      assert init[..n] == h[..n];
      LateAt(init, n, request);
    } else {
      HandlerSees(init);
    }
  }

  lemma {:induction false} FailureInHandler(h: seq<Input>, n: nat, request: RequestRef)
    requires Sequential(h) && n < |h| && h[n] == RollbackNotSubmitted(request)
    ensures InHandler(h[..n]) == Some(request)
  {
    if n < |h| - 1 {
      assert h[..|h| - 1][..n] == h[..n];
      FailureInHandler(h[..|h| - 1], n, request);
    }
  }

  lemma LateIffInBetween(h: seq<Input>, request: RequestRef)
    requires Sequential(h) && RollbacksAsked(h, request) == 1
    ensures Late(h, request) >= 1 <==> SettledInBetween(h, request)
  {
    if Late(h, request) >= 1 {
      var n := LateMeaning(h, request);
      var k := HandlerAsked(h[..n], request);
      var m :| k < m < n && Settles(h[..n][m]);
      assert Asks(h[k], request) && Settles(h[m]);
    }
    if k, m, n :| 0 <= k < m < n < |h| && Asks(h[k], request) && Settles(h[m]) && h[n] == RollbackNotSubmitted(request) {
      FailureInHandler(h, n, request);
      var asked := HandlerAsked(h[..n], request);
      if asked < k {
        AskedTwice(h, asked, k, request);
      } else if k < asked {
        AskedTwice(h, k, asked, request);
      }
      assert Settles(h[..n][m]);
      LateAt(h, n, request);
    }
  }

  /** After it was answered twice the request is not pending. */
  lemma {:induction false} LateIsOver(h: seq<Input>, request: RequestRef)
    requires Sequential(h) && RollbacksAsked(h, request) == 1 && Late(h, request) >= 1
    ensures PendingRollback(Run(h).state, request) == 0
  {
    var init, last := h[..|h| - 1], h[|h| - 1];
    LateAtMostOnce(init, request);
    if Late(init, request) >= 1 {
      LateIsOver(init, request);
      if !IsRequest(last) {
        EventOnRollback(Run(init).state, last);
      }
    }
  }

  /**
    A request that was made once is answered twice exactly if a settling input
    lies between its asking and its failed submission; otherwise it is
    answered once, or is the pending one.
  */
  lemma AnsweredTwiceIff(h: seq<Input>, request: RequestRef)
    requires Sequential(h) && RollbacksAsked(h, request) == 1
    ensures var answered := RollbacksAnswered(Run(h).outputs, request);
      && (answered == 2 <==> SettledInBetween(h, request))
      && (!SettledInBetween(h, request) ==> answered + PendingRollback(Run(h).state, request) == 1)
  {
    RollbackAccounts(h, request);
    NothingLost(h, request);
    LateAtMostOnce(h, request);
    LateIffInBetween(h, request);
    if Late(h, request) >= 1 {
      LateIsOver(h, request);
    }
  }
}
