/**
  What a thread's state object remembers between the events of a turn, and how
  the handlers of events and requests use it. An input is one stretch during
  which its handler holds the lock of the object; a history here is that of
  one object. `TurnObjects` has the objects of all threads.
*/
module TurnEvents {
  import opened Wrappers

  type ItemId = string
  type TurnId = string
  type RequestRef = nat

  datatype ApiVersion = V1 | V2
  datatype Interrupt = Interrupt(request: RequestRef, version: ApiVersion)

  datatype ErrorInfo = ThreadRollbackFailed | OtherInfo(code: string)
  datatype TurnError = TurnError(message: string, info: Option<ErrorInfo>)

  datatype PatchStatus = PatchCompleted | PatchFailed | PatchDeclined

  /** How a client, or the failure to reach one, decides on a file change. */
  datatype Decision = Accept | AcceptForSession | Decline | Cancel | Unreadable | ClientFailed | NoClient

  datatype Input =
    | ApprovalRequested(item: ItemId, version: ApiVersion)
    | ApprovalAnswered(item: ItemId, decision: Decision)
    | PatchBegan(item: ItemId)
    | PatchEnded(item: ItemId, status: PatchStatus)
    | OutputDelta(item: ItemId, text: string)
    | ErrorRaised(error: TurnError)
    | TurnCompleted(turn: TurnId)
    | AbortReported(reason: string)
    | AbortEndsTurn(turn: TurnId)
    | RolledBack(loaded: bool)
    | InterruptAsked(interrupt: Interrupt)
    | RollbackAsked(request: RequestRef, turns: nat)
    | RollbackNotSubmitted(request: RequestRef)

  datatype TurnStatus = Completed | Failed(error: TurnError) | Interrupted

  datatype Output =
    | ItemStarted(item: ItemId)
    | ItemCompleted(item: ItemId, status: PatchStatus)
    | ApprovalAsked(item: ItemId, version: ApiVersion)
    | FileChangeDelta(item: ItemId, text: string)
    | CommandDelta(item: ItemId, text: string)
    | ErrorNotice(error: TurnError)
    | TurnEnded(turn: TurnId, outcome: TurnStatus)
    | InterruptAnswered(interrupt: Interrupt)
    | RollbackAnswered(request: RequestRef, ok: bool)

  datatype State = State(
    started: set<ItemId>,
    lastError: Option<TurnError>,
    interrupts: seq<Interrupt>,
    rollback: Option<RequestRef>
  )

  const FRESH := State({}, None, [], None)

  datatype Step = Step(state: State, outputs: seq<Output>)

  // --- The handlers --------------------------------------------------------------------------------------

  /** `CodexErrorInfo::affects_turn_status`; an error without information does. */
  predicate AffectsTurnStatus(error: TurnError) {
    error.info != Some(ThreadRollbackFailed)
  }

  /** The status with which a decision completes the item at once; accepted changes complete later. */
  function CompletionOf(decision: Decision): Option<PatchStatus> {
    match decision
    case Accept => None
    case AcceptForSession => None
    case Decline => Some(PatchDeclined)
    case Cancel => Some(PatchDeclined)
    case Unreadable => Some(PatchDeclined)
    case ClientFailed => Some(PatchFailed)
    case NoClient => Some(PatchFailed)
  }

  function Started(s: State, item: ItemId): Step {
    Step(s.(started := s.started + {item}), if item in s.started then [] else [ItemStarted(item)])
  }

  function CompletedItem(s: State, item: ItemId, status: PatchStatus): Step {
    Step(s.(started := s.started - {item}), [ItemCompleted(item, status)])
  }

  function Answers(interrupts: seq<Interrupt>): seq<Output> {
    seq(|interrupts|, i requires 0 <= i < |interrupts| => InterruptAnswered(interrupts[i]))
  }

  function SettledRollback(s: State, ok: bool): Step {
    Step(s.(rollback := None), if s.rollback.Some? then [RollbackAnswered(s.rollback.value, ok)] else [])
  }

  function EndedTurn(s: State, turn: TurnId, status: TurnStatus): Step {
    Step(s.(started := {}, lastError := None), [TurnEnded(turn, status)])
  }

  function Handle(s: State, input: Input): Step {
    match input
    case ApprovalRequested(item, V1) => Step(s, [ApprovalAsked(item, V1)])
    case ApprovalRequested(item, V2) =>
      var begun := Started(s, item);
      Step(begun.state, begun.outputs + [ApprovalAsked(item, V2)])
    case ApprovalAnswered(item, decision) =>
      var status := CompletionOf(decision);
      if status.Some? then CompletedItem(s, item, status.value) else Step(s, [])
    case PatchBegan(item) => Started(s, item)
    case PatchEnded(item, status) => CompletedItem(s, item, status)
    case OutputDelta(item, text) =>
      Step(s, [if item in s.started then FileChangeDelta(item, text) else CommandDelta(item, text)])
    case ErrorRaised(error) =>
      if error.info == Some(ThreadRollbackFailed) then SettledRollback(s, false)
      else if !AffectsTurnStatus(error) then Step(s, [])
      else Step(s.(lastError := Some(error)), [ErrorNotice(error)])
    case TurnCompleted(turn) =>
      EndedTurn(s, turn, if s.lastError.Some? then Failed(s.lastError.value) else Completed)
    case AbortReported(_) => Step(s.(interrupts := []), Answers(s.interrupts))
    case AbortEndsTurn(turn) => EndedTurn(s, turn, Interrupted)
    case RolledBack(loaded) => SettledRollback(s, loaded)
    case InterruptAsked(interrupt) => Step(s.(interrupts := s.interrupts + [interrupt]), [])
    case RollbackAsked(request, turns) =>
      if turns == 0 || s.rollback.Some? then Step(s, [RollbackAnswered(request, false)])
      else Step(s.(rollback := Some(request)), [])
    case RollbackNotSubmitted(request) => Step(s.(rollback := None), [RollbackAnswered(request, false)])
  }

  function Run(h: seq<Input>): Step {
    if h == [] then Step(FRESH, [])
    else
      var before := Run(h[..|h| - 1]);
      var last := Handle(before.state, h[|h| - 1]);
      Step(last.state, before.outputs + last.outputs)
  }

  /** What the input at this place makes the program say. */
  function SaidAt(h: seq<Input>, i: nat): seq<Output>
    requires i < |h|
  {
    Handle(Run(h[..i]).state, h[i]).outputs
  }

  // --- File changes ----------------------------------------------------------------------------------------

  predicate Marks(input: Input, item: ItemId) {
    input == PatchBegan(item) || input == ApprovalRequested(item, V2)
  }

  predicate EndsTurn(input: Input) {
    input.TurnCompleted? || input.AbortEndsTurn?
  }

  predicate Clears(input: Input, item: ItemId) {
    || EndsTurn(input)
    || (input.PatchEnded? && input.item == item)
    || (input.ApprovalAnswered? && input.item == item && CompletionOf(input.decision).Some?)
  }

  /** The item was begun, and nothing has ended it since. */
  ghost predicate Marked(h: seq<Input>, item: ItemId) {
    exists i | 0 <= i < |h| :: Marks(h[i], item) && forall j | i < j < |h| :: !Clears(h[j], item)
  }

  lemma MarkedStep(h: seq<Input>, item: ItemId)
    requires h != []
    ensures Marked(h, item) <==> Marks(h[|h| - 1], item) || (Marked(h[..|h| - 1], item) && !Clears(h[|h| - 1], item))
  {
    var before, last := h[..|h| - 1], h[|h| - 1];
    if i :| 0 <= i < |h| && Marks(h[i], item) && forall j | i < j < |h| :: !Clears(h[j], item) {
      if i < |h| - 1 {
        assert Marks(before[i], item) && forall j | i < j < |before| :: !Clears(before[j], item);
      }
    }
    if i :| 0 <= i < |before| && Marks(before[i], item) && forall j | i < j < |before| :: !Clears(before[j], item) {
      if !Clears(last, item) {
        assert Marks(h[i], item);
        forall j | i < j < |h| ensures !Clears(h[j], item) {
          assert j < |before| ==> h[j] == before[j];
        }
      }
    }
  }

  lemma {:induction false} StartedIsMarked(h: seq<Input>, item: ItemId)
    ensures item in Run(h).state.started <==> Marked(h, item)
  {
    if h != [] {
      StartedIsMarked(h[..|h| - 1], item);
      MarkedStep(h, item);
    }
  }

  /** An item is announced exactly when it is begun while it is not running. */
  lemma AnnouncedWhenBegun(h: seq<Input>, i: nat, item: ItemId)
    requires i < |h|
    ensures ItemStarted(item) in SaidAt(h, i) <==> Marks(h[i], item) && !Marked(h[..i], item)
  {
    StartedIsMarked(h[..i], item);
    if h[i].AbortReported? {
      assert forall o | o in SaidAt(h, i) :: o.InterruptAnswered?;
    }
  }

  lemma StillMarked(h: seq<Input>, i: nat, item: ItemId)
    requires i < |h| && Marks(h[i], item) && forall k | i < k < |h| :: !Clears(h[k], item)
    ensures Marked(h, item)
  {
  }

  /** Between two announcements of an item something has ended it. */
  lemma AnnouncedOnceBetweenClearings(h: seq<Input>, i: nat, j: nat, item: ItemId)
    requires i < j < |h| && ItemStarted(item) in SaidAt(h, i) && ItemStarted(item) in SaidAt(h, j)
    ensures exists k | i < k < j :: Clears(h[k], item)
  {
    AnnouncedWhenBegun(h, i, item);
    AnnouncedWhenBegun(h, j, item);
    if forall k | i < k < j :: !Clears(h[..j][k], item) {
      StillMarked(h[..j], i, item);
    }
  }

  /** Output goes to the file change exactly while it runs, and to a command otherwise. */
  lemma DeltaFollowsItem(h: seq<Input>, i: nat)
    requires i < |h| && h[i].OutputDelta?
    ensures SaidAt(h, i) ==
      [if Marked(h[..i], h[i].item) then FileChangeDelta(h[i].item, h[i].text) else CommandDelta(h[i].item, h[i].text)]
  {
    StartedIsMarked(h[..i], h[i].item);
  }

  // --- The status of a turn ----------------------------------------------------------------------------------

  predicate Records(input: Input, error: TurnError) {
    input == ErrorRaised(error) && AffectsTurnStatus(error)
  }

  /** The last error recorded since the previous turn ended. */
  ghost predicate LastErrorIs(h: seq<Input>, error: TurnError) {
    exists i | 0 <= i < |h| ::
      && Records(h[i], error)
      && forall j | i < j < |h| :: !EndsTurn(h[j]) && !(h[j].ErrorRaised? && AffectsTurnStatus(h[j].error))
  }

  lemma LastErrorStep(h: seq<Input>, error: TurnError)
    requires h != []
    ensures var last := h[|h| - 1];
      LastErrorIs(h, error) <==>
        (Records(last, error) || (LastErrorIs(h[..|h| - 1], error) && !EndsTurn(last) && !(last.ErrorRaised? && AffectsTurnStatus(last.error))))
  {
    var before, last := h[..|h| - 1], h[|h| - 1];
    if i :| 0 <= i < |h| && Records(h[i], error) && forall j | i < j < |h| :: !EndsTurn(h[j]) && !(h[j].ErrorRaised? && AffectsTurnStatus(h[j].error)) {
      if i < |h| - 1 {
        assert Records(before[i], error);
        assert forall j | i < j < |before| :: before[j] == h[j];
      }
    }
    if i :| 0 <= i < |before| && Records(before[i], error) && forall j | i < j < |before| :: !EndsTurn(before[j]) && !(before[j].ErrorRaised? && AffectsTurnStatus(before[j].error)) {
      assert Records(h[i], error);
      assert forall j | i < j < |before| :: before[j] == h[j];
    }
  }

  lemma {:induction false} LastErrorIsKept(h: seq<Input>, error: TurnError)
    ensures Run(h).state.lastError == Some(error) <==> LastErrorIs(h, error)
  {
    if h != [] {
      LastErrorIsKept(h[..|h| - 1], error);
      LastErrorStep(h, error);
    }
  }

  /** A completing turn has failed exactly when an error was recorded since the turn before, and then with the last one. */
  lemma TurnFailsWithLastError(h: seq<Input>, i: nat)
    requires i < |h| && h[i].TurnCompleted?
    ensures |SaidAt(h, i)| == 1 && SaidAt(h, i)[0].TurnEnded? && SaidAt(h, i)[0].turn == h[i].turn
    ensures forall error :: SaidAt(h, i)[0].outcome == Failed(error) <==> LastErrorIs(h[..i], error)
    ensures SaidAt(h, i)[0].outcome == Completed <==> forall error :: !LastErrorIs(h[..i], error)
  {
    var kept := Run(h[..i]).state.lastError;
    forall error ensures kept == Some(error) <==> LastErrorIs(h[..i], error) {
      LastErrorIsKept(h[..i], error);
    }
    if kept.Some? {
      assert LastErrorIs(h[..i], kept.value);
    }
  }

  // --- Interrupts --------------------------------------------------------------------------------------------

  function InterruptsAsked(h: seq<Input>): seq<Interrupt> {
    if h == [] then []
    else
      var last := h[|h| - 1];
      InterruptsAsked(h[..|h| - 1]) + if last.InterruptAsked? then [last.interrupt] else []
  }

  function InterruptsAnswered(outputs: seq<Output>): seq<Interrupt> {
    if outputs == [] then []
    else
      var last := outputs[|outputs| - 1];
      InterruptsAnswered(outputs[..|outputs| - 1]) + if last.InterruptAnswered? then [last.interrupt] else []
  }

  lemma {:induction false} AnsweredConcat(a: seq<Output>, b: seq<Output>)
    ensures InterruptsAnswered(a + b) == InterruptsAnswered(a) + InterruptsAnswered(b)
  {
    if b == [] {
      assert a + b == a;
    } else {
      assert (a + b)[..|a + b| - 1] == a + b[..|b| - 1];
      AnsweredConcat(a, b[..|b| - 1]);
    }
  }

  lemma {:induction false} AnswersAnswer(interrupts: seq<Interrupt>)
    ensures InterruptsAnswered(Answers(interrupts)) == interrupts
  {
    if interrupts != [] {
      var before := interrupts[..|interrupts| - 1];
      AnswersAnswer(before);
      assert Answers(interrupts)[..|interrupts| - 1] == Answers(before);
      assert interrupts == before + [interrupts[|interrupts| - 1]];
    }
  }

  /** No handler but that of an abort answers an interrupt, or changes which are waiting but to add one. */
  lemma InterruptStep(s: State, input: Input)
    requires !input.AbortReported?
    ensures InterruptsAnswered(Handle(s, input).outputs) == []
    ensures Handle(s, input).state.interrupts == s.interrupts + if input.InterruptAsked? then [input.interrupt] else []
  {
    assert forall o | o in Handle(s, input).outputs :: !o.InterruptAnswered?;
    NoInterruptAnswers(Handle(s, input).outputs);
  }

  lemma {:induction false} NoInterruptAnswers(outputs: seq<Output>)
    requires forall o | o in outputs :: !o.InterruptAnswered?
    ensures InterruptsAnswered(outputs) == []
  {
    if outputs != [] {
      NoInterruptAnswers(outputs[..|outputs| - 1]);
    }
  }

  lemma {:induction false} AskedConcat(a: seq<Input>, b: seq<Input>)
    ensures InterruptsAsked(a + b) == InterruptsAsked(a) + InterruptsAsked(b)
  {
    if b == [] {
      assert a + b == a;
    } else {
      assert (a + b)[..|a + b| - 1] == a + b[..|b| - 1];
      AskedConcat(a, b[..|b| - 1]);
    }
  }

  lemma AskedSplit(h: seq<Input>, n: nat)
    requires n <= |h|
    ensures InterruptsAsked(h) == InterruptsAsked(h[..n]) + InterruptsAsked(h[n..])
  {
    var a, b := h[..n], h[n..];
    assert h == a + b;
    AskedConcat(a, b);
  }

  /** How much of the history is up to and including the last abort. */
  function LastAbort(h: seq<Input>): (n: nat)
    ensures n <= |h|
  {
    if h == [] then 0 else if h[|h| - 1].AbortReported? then |h| else LastAbort(h[..|h| - 1])
  }

  lemma {:induction false} LastAbortMeaning(h: seq<Input>, i: nat)
    requires i < |h|
    ensures i < LastAbort(h) <==> exists j | i <= j < |h| :: h[j].AbortReported?
  {
    var before := h[..|h| - 1];
    if h[|h| - 1].AbortReported? {
    } else if i < |before| {
      LastAbortMeaning(before, i);
      assert forall j | i <= j < |before| :: before[j] == h[j];
      if j :| i <= j < |h| && h[j].AbortReported? {
        assert before[j].AbortReported?;
      }
    }
  }

  /** The interrupts answered are those asked for in the first part of the history; the others are waiting. */
  ghost predicate AnsweredUpTo(h: seq<Input>, n: nat)
    requires n <= |h|
  {
    && InterruptsAnswered(Run(h).outputs) == InterruptsAsked(h[..n])
    && Run(h).state.interrupts == InterruptsAsked(h[n..])
  }

  lemma RunOneMore(init: seq<Input>, input: Input)
    ensures var last := Handle(Run(init).state, input);
      Run(init + [input]) == Step(last.state, Run(init).outputs + last.outputs)
    ensures LastAbort(init + [input]) == if input.AbortReported? then |init| + 1 else LastAbort(init)
    ensures InterruptsAsked(init + [input]) == InterruptsAsked(init) + if input.InterruptAsked? then [input.interrupt] else []
  {
    assert (init + [input])[..|init|] == init;
  }

  lemma AbortAnswersAll(init: seq<Input>, n: nat, input: Input)
    requires n <= |init| && AnsweredUpTo(init, n) && input.AbortReported?
    ensures AnsweredUpTo(init + [input], |init| + 1)
  {
    var before := Run(init);
    RunOneMore(init, input);
    AnsweredConcat(before.outputs, Answers(before.state.interrupts));
    AnswersAnswer(before.state.interrupts);
    AskedSplit(init, n);
    assert (init + [input])[..|init| + 1] == init + [input];
  }

  lemma OthersAnswerNone(init: seq<Input>, n: nat, input: Input)
    requires n <= |init| && AnsweredUpTo(init, n) && !input.AbortReported?
    ensures AnsweredUpTo(init + [input], n)
  {
    var before := Run(init);
    RunOneMore(init, input);
    InterruptStep(before.state, input);
    AnsweredConcat(before.outputs, Handle(before.state, input).outputs);
    RunOneMore(init[n..], input);
    SlicesOfMore(init, n, input);
  }

  lemma SlicesOfMore(init: seq<Input>, n: nat, input: Input)
    requires n <= |init|
    ensures (init + [input])[..n] == init[..n] && (init + [input])[n..] == init[n..] + [input]
  {
  }

  /**
    The interrupts answered are exactly those asked for before the last abort
    that the object saw, in order; those asked for since are waiting, in order.
  */
  lemma {:induction false} AnsweredByAborts(h: seq<Input>)
    ensures AnsweredUpTo(h, LastAbort(h))
  {
    if h != [] {
      var init, input := h[..|h| - 1], h[|h| - 1];
      AnsweredByAborts(init);
      assert h == init + [input];
      AnsweredOneMore(init, input);
    }
  }

  lemma AnsweredOneMore(init: seq<Input>, input: Input)
    requires AnsweredUpTo(init, LastAbort(init))
    ensures AnsweredUpTo(init + [input], LastAbort(init + [input]))
  {
    RunOneMore(init, input);
    if input.AbortReported? {
      AbortAnswersAll(init, LastAbort(init), input);
    } else {
      OthersAnswerNone(init, LastAbort(init), input);
    }
  }

  /** So the interrupts asked for are those answered followed by those waiting, whatever happens to the object. */
  lemma InterruptsAreConserved(h: seq<Input>)
    ensures InterruptsAsked(h) == InterruptsAnswered(Run(h).outputs) + Run(h).state.interrupts
  {
    AnsweredByAborts(h);
    AskedSplit(h, LastAbort(h));
  }

  // --- Rollbacks ---------------------------------------------------------------------------------------------

  predicate IsRequest(input: Input) {
    input.InterruptAsked? || input.RollbackAsked? || input.RollbackNotSubmitted?
  }

  predicate Settles(input: Input) {
    input.RolledBack? || (input.ErrorRaised? && input.error.info == Some(ThreadRollbackFailed))
  }

  predicate IsAnswer(o: Output, request: RequestRef) {
    o.RollbackAnswered? && o.request == request
  }

  /** How often a rollback was asked for with this request. */
  function RollbacksAsked(h: seq<Input>, request: RequestRef): nat {
    if h == [] then 0
    else
      var last := h[|h| - 1];
      RollbacksAsked(h[..|h| - 1], request) + if last.RollbackAsked? && last.request == request then 1 else 0
  }

  /** How often the request was answered. */
  function RollbacksAnswered(outputs: seq<Output>, request: RequestRef): nat {
    if outputs == [] then 0
    else RollbacksAnswered(outputs[..|outputs| - 1], request) + if IsAnswer(outputs[|outputs| - 1], request) then 1 else 0
  }

  lemma {:induction false} RollbacksConcat(a: seq<Output>, b: seq<Output>, request: RequestRef)
    ensures RollbacksAnswered(a + b, request) == RollbacksAnswered(a, request) + RollbacksAnswered(b, request)
  {
    if b == [] {
      assert a + b == a;
    } else {
      assert (a + b)[..|a + b| - 1] == a + b[..|b| - 1];
      RollbacksConcat(a, b[..|b| - 1], request);
    }
  }

  function PendingRollback(s: State, request: RequestRef): nat {
    if s.rollback == Some(request) then 1 else 0
  }

  lemma {:induction false} NoRollbackAnswers(outputs: seq<Output>, request: RequestRef)
    requires forall o | o in outputs :: !IsAnswer(o, request)
    ensures RollbacksAnswered(outputs, request) == 0
  {
    if outputs != [] {
      NoRollbackAnswers(outputs[..|outputs| - 1], request);
    }
  }

  predicate ConcernsRollback(input: Input) {
    input.RollbackAsked? || input.RollbackNotSubmitted? || input.RolledBack? || input.ErrorRaised?
  }

  lemma OtherInputsLeaveRollback(s: State, input: Input, request: RequestRef)
    requires !ConcernsRollback(input)
    ensures Handle(s, input).state.rollback == s.rollback
    ensures RollbacksAnswered(Handle(s, input).outputs, request) == 0
  {
    assert forall o | o in Handle(s, input).outputs :: !o.RollbackAnswered?;
    NoRollbackAnswers(Handle(s, input).outputs, request);
  }

  lemma OneAnswer(outputs: seq<Output>, request: RequestRef)
    requires |outputs| <= 1
    ensures RollbacksAnswered(outputs, request) == if outputs != [] && IsAnswer(outputs[0], request) then 1 else 0
  {
    if outputs != [] {
      assert RollbacksAnswered(outputs[..0], request) == 0;
    }
  }

  /** The request could not be submitted, but is not the pending one any more when that is noticed. */
  predicate IsLate(s: State, input: Input, request: RequestRef) {
    input == RollbackNotSubmitted(request) && s.rollback != Some(request)
  }

  /** The request is pending, and forgotten because another one could not be submitted. */
  predicate IsLost(s: State, input: Input, request: RequestRef) {
    input.RollbackNotSubmitted? && input.request != request && s.rollback == Some(request)
  }

  function Late(h: seq<Input>, request: RequestRef): nat {
    if h == [] then 0
    else Late(h[..|h| - 1], request) + if IsLate(Run(h[..|h| - 1]).state, h[|h| - 1], request) then 1 else 0
  }

  function Lost(h: seq<Input>, request: RequestRef): nat {
    if h == [] then 0
    else Lost(h[..|h| - 1], request) + if IsLost(Run(h[..|h| - 1]).state, h[|h| - 1], request) then 1 else 0
  }

  lemma RollbackStep(s: State, input: Input, request: RequestRef)
    ensures RollbacksAnswered(Handle(s, input).outputs, request) + PendingRollback(Handle(s, input).state, request)
         + (if IsLost(s, input, request) then 1 else 0) ==
      PendingRollback(s, request) + (if input.RollbackAsked? && input.request == request then 1 else 0)
         + if IsLate(s, input, request) then 1 else 0
  {
    if ConcernsRollback(input) {
      OneAnswer(Handle(s, input).outputs, request);
    } else {
      OtherInputsLeaveRollback(s, input, request);
    }
  }

  /**
    What becomes of the requests for a rollback, in every history: each is
    answered, pending, or lost to another one; and one that could not be
    submitted is answered once more if it was settled before that was noticed.
  */
  lemma {:induction false} RollbackAccounts(h: seq<Input>, request: RequestRef)
    ensures RollbacksAsked(h, request) + Late(h, request) ==
      RollbacksAnswered(Run(h).outputs, request) + PendingRollback(Run(h).state, request) + Lost(h, request)
  {
    if h != [] {
      var before, input := Run(h[..|h| - 1]), h[|h| - 1];
      RollbackAccounts(h[..|h| - 1], request);
      RollbackStep(before.state, input, request);
      RollbacksConcat(before.outputs, Handle(before.state, input).outputs, request);
    }
  }

  /** So requests are answered once or pending exactly when as many failures came too late as requests were lost. */
  lemma RollbacksAreConserved(h: seq<Input>, request: RequestRef)
    ensures RollbacksAsked(h, request) == RollbacksAnswered(Run(h).outputs, request) + PendingRollback(Run(h).state, request) <==>
      Late(h, request) == Lost(h, request)
  {
    RollbackAccounts(h, request);
  }

  /** A request settled before its failed submission is noticed is answered twice. */
  lemma LateFailureAnswersTwice(request: RequestRef, turns: nat, ok: bool)
    requires turns >= 1
    ensures var h := [RollbackAsked(request, turns), RolledBack(ok), RollbackNotSubmitted(request)];
      && Run(h).outputs == [RollbackAnswered(request, ok), RollbackAnswered(request, false)]
      && RollbacksAsked(h, request) == 1 && Late(h, request) == 1 && Lost(h, request) == 0
  {
    var asked, settled, failed := RollbackAsked(request, turns), RolledBack(ok), RollbackNotSubmitted(request);
    var one, two, three := [asked], [asked, settled], [asked, settled, failed];
    assert one[..0] == [] && two[..1] == one && three[..2] == two;
    assert Run(one) == Step(FRESH.(rollback := Some(request)), []);
    assert Run(two) == Step(FRESH, [RollbackAnswered(request, ok)]);
    assert RollbacksAsked(one, request) == 1 && RollbacksAsked(two, request) == 1;
    assert Late(one, request) == 0 && Late(two, request) == 0 && Lost(one, request) == 0 && Lost(two, request) == 0;
  }
}
