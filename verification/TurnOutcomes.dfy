/**
  What is said when, told from the history of one state object alone: every
  notification and answer, with its outcome, and the inputs that call for it.
*/
module TurnOutcomes {
  import opened Wrappers
  import opened TurnEvents

  // --- What waits ---------------------------------------------------------------------------------------

  predicate AsksToRollBack(input: Input) {
    input.RollbackAsked? && input.turns >= 1
  }

  /** The core is done with the rollback, or never got to know of it. */
  predicate EndsRollback(input: Input) {
    || input.RolledBack?
    || (input.ErrorRaised? && input.error.info == Some(ThreadRollbackFailed))
    || input.RollbackNotSubmitted?
  }

  /** A rollback was asked for, and nothing has ended it since. */
  ghost predicate RollbackOpen(h: seq<Input>) {
    exists i | 0 <= i < |h| :: AsksToRollBack(h[i]) && forall j | i < j < |h| :: !EndsRollback(h[j])
  }

  /** This is the one: when it was asked for, none was open. */
  ghost predicate RollbackWaits(h: seq<Input>, request: RequestRef) {
    exists i | 0 <= i < |h| :: WaitsSince(h, request, i)
  }

  ghost predicate WaitsSince(h: seq<Input>, request: RequestRef, i: nat)
    requires i < |h|
  {
    && AsksToRollBack(h[i]) && h[i].request == request && !RollbackOpen(h[..i])
    && forall j | i < j < |h| :: !EndsRollback(h[j])
  }

  ghost predicate InterruptWaits(h: seq<Input>, interrupt: Interrupt) {
    exists i | 0 <= i < |h| :: h[i] == InterruptAsked(interrupt) && forall j | i < j < |h| :: !h[j].AbortReported?
  }

  lemma OpenStep(h: seq<Input>)
    requires h != []
    ensures var last := h[|h| - 1];
      RollbackOpen(h) <==> AsksToRollBack(last) || (RollbackOpen(h[..|h| - 1]) && !EndsRollback(last))
  {
    var before, last := h[..|h| - 1], h[|h| - 1];
    assert h == before + [last];
    if i :| 0 <= i < |h| && AsksToRollBack(h[i]) && forall j | i < j < |h| :: !EndsRollback(h[j]) {
      if i < |before| {
        assert AsksToRollBack(before[i]) && forall j | i < j < |before| :: !EndsRollback(before[j]);
      }
    }
    if i :| 0 <= i < |before| && AsksToRollBack(before[i]) && forall j | i < j < |before| :: !EndsRollback(before[j]) {
      if !EndsRollback(last) {
        assert AsksToRollBack(h[i]) && forall j | i < j < |h| :: !EndsRollback(h[j]);
      }
    }
  }

  lemma WaitsStep(h: seq<Input>, request: RequestRef)
    requires h != []
    ensures var before, last := h[..|h| - 1], h[|h| - 1];
      RollbackWaits(h, request) <==>
        || (AsksToRollBack(last) && last.request == request && !RollbackOpen(before))
        || (RollbackWaits(before, request) && !EndsRollback(last))
  {
    var before, last := h[..|h| - 1], h[|h| - 1];
    assert h == before + [last];
    if i :| 0 <= i < |h| && WaitsSince(h, request, i) {
      if i < |before| {
        assert before[..i] == h[..i] && WaitsSince(before, request, i);
      }
    }
    if i :| 0 <= i < |before| && WaitsSince(before, request, i) {
      if !EndsRollback(last) {
        assert before[..i] == h[..i] && WaitsSince(h, request, i);
      }
    }
    assert h[..|before|] == before;
    if AsksToRollBack(last) && last.request == request && !RollbackOpen(before) {
      assert WaitsSince(h, request, |before|);
    }
  }

  /** The pending rollback is the one that waits. */
  lemma {:induction false} PendingWaits(h: seq<Input>)
    ensures Run(h).state.rollback.Some? <==> RollbackOpen(h)
    ensures forall request: RequestRef :: Run(h).state.rollback == Some(request) <==> RollbackWaits(h, request)
  {
    if h != [] {
      var before, last := h[..|h| - 1], h[|h| - 1];
      PendingWaits(before);
      OpenStep(h);
      forall request: RequestRef ensures Run(h).state.rollback == Some(request) <==> RollbackWaits(h, request) {
        WaitsStep(h, request);
      }
    }
  }

  lemma InterruptWaitsStep(h: seq<Input>, interrupt: Interrupt)
    requires h != []
    ensures var before, last := h[..|h| - 1], h[|h| - 1];
      InterruptWaits(h, interrupt) <==> last == InterruptAsked(interrupt) || (InterruptWaits(before, interrupt) && !last.AbortReported?)
  {
    var before, last := h[..|h| - 1], h[|h| - 1];
    assert h == before + [last];
    if i :| 0 <= i < |h| && h[i] == InterruptAsked(interrupt) && forall j | i < j < |h| :: !h[j].AbortReported? {
      if i < |before| {
        assert before[i] == h[i] && forall j | i < j < |before| :: !before[j].AbortReported?;
      }
    }
    if i :| 0 <= i < |before| && before[i] == InterruptAsked(interrupt) && forall j | i < j < |before| :: !before[j].AbortReported? {
      if !last.AbortReported? {
        assert h[i] == before[i] && forall j | i < j < |h| :: !h[j].AbortReported?;
      }
    }
  }

  lemma {:induction false} PendingInterruptWaits(h: seq<Input>, interrupt: Interrupt)
    ensures interrupt in Run(h).state.interrupts <==> InterruptWaits(h, interrupt)
  {
    if h != [] {
      PendingInterruptWaits(h[..|h| - 1], interrupt);
      InterruptWaitsStep(h, interrupt);
    }
  }

  // --- What is said ----------------------------------------------------------------------------------------

  /** Why an item completes with this status. */
  predicate Completes(input: Input, item: ItemId, status: PatchStatus) {
    || input == PatchEnded(item, status)
    || (input.ApprovalAnswered? && input.item == item &&
        match status
        case PatchDeclined => input.decision in {Decline, Cancel, Unreadable}
        case PatchFailed => input.decision in {ClientFailed, NoClient}
        case PatchCompleted => false)
  }

  ghost predicate EndsAs(past: seq<Input>, input: Input, turn: TurnId, outcome: TurnStatus) {
    match outcome
    case Interrupted => input == AbortEndsTurn(turn)
    case Failed(error) => input == TurnCompleted(turn) && LastErrorIs(past, error)
    case Completed => input == TurnCompleted(turn) && forall error :: !LastErrorIs(past, error)
  }

  /** Why a rollback is answered: as done, or as failed, not loadable, refused or not submitted. */
  ghost predicate AnswersRollback(past: seq<Input>, input: Input, request: RequestRef, ok: bool) {
    if ok then input == RolledBack(true) && RollbackWaits(past, request)
    else
      || (input == RolledBack(false) && RollbackWaits(past, request))
      || (input.ErrorRaised? && input.error.info == Some(ThreadRollbackFailed) && RollbackWaits(past, request))
      || (input.RollbackAsked? && input.request == request && (input.turns == 0 || RollbackOpen(past)))
      || input == RollbackNotSubmitted(request)
  }

  /** What calls for this to be said, after this history. */
  ghost predicate CallsFor(past: seq<Input>, input: Input, o: Output) {
    match o
    case ItemStarted(item) => (input == PatchBegan(item) || input == ApprovalRequested(item, V2)) && !Marked(past, item)
    case ItemCompleted(item, status) => Completes(input, item, status)
    case ApprovalAsked(item, version) => input == ApprovalRequested(item, version)
    case FileChangeDelta(item, text) => input == OutputDelta(item, text) && Marked(past, item)
    case CommandDelta(item, text) => input == OutputDelta(item, text) && !Marked(past, item)
    case ErrorNotice(error) => input == ErrorRaised(error) && error.info != Some(ThreadRollbackFailed)
    case TurnEnded(turn, outcome) => EndsAs(past, input, turn, outcome)
    case InterruptAnswered(interrupt) => input.AbortReported? && InterruptWaits(past, interrupt)
    case RollbackAnswered(request, ok) => AnswersRollback(past, input, request, ok)
  }

  lemma ErrorsKept(h: seq<Input>)
    ensures forall error :: Run(h).state.lastError == Some(error) <==> LastErrorIs(h, error)
    ensures Run(h).state.lastError.None? <==> forall error :: !LastErrorIs(h, error)
  {
    forall error ensures Run(h).state.lastError == Some(error) <==> LastErrorIs(h, error) {
      LastErrorIsKept(h, error);
    }
    var kept := Run(h).state.lastError;
    if kept.Some? {
      assert LastErrorIs(h, kept.value);
    }
  }

  lemma {:induction false} AnswersAre(interrupts: seq<Interrupt>, o: Output)
    ensures o in Answers(interrupts) <==> o.InterruptAnswered? && o.interrupt in interrupts
  {
    if o.InterruptAnswered? && o.interrupt in interrupts {
      var i :| 0 <= i < |interrupts| && interrupts[i] == o.interrupt;
      assert Answers(interrupts)[i] == o;
    }
  }

  lemma SaidOfItems(h: seq<Input>, i: nat, o: Output)
    requires i < |h| && (h[i].ApprovalRequested? || h[i].ApprovalAnswered? || h[i].PatchBegan? || h[i].PatchEnded? || h[i].OutputDelta?)
    ensures o in SaidAt(h, i) <==> CallsFor(h[..i], h[i], o)
  {
    StartedIsMarked(h[..i], h[i].item);
  }

  lemma SaidOfTurns(h: seq<Input>, i: nat, o: Output)
    requires i < |h| && (h[i].TurnCompleted? || h[i].AbortEndsTurn? || h[i].AbortReported? || h[i].InterruptAsked?)
    ensures o in SaidAt(h, i) <==> CallsFor(h[..i], h[i], o)
  {
    ErrorsKept(h[..i]);
    if h[i].AbortReported? {
      AnswersAre(Run(h[..i]).state.interrupts, o);
      if o.InterruptAnswered? {
        PendingInterruptWaits(h[..i], o.interrupt);
      }
    }
  }

  lemma SaidOfRollbacks(h: seq<Input>, i: nat, o: Output)
    requires i < |h| && (h[i].ErrorRaised? || h[i].RolledBack? || h[i].RollbackAsked? || h[i].RollbackNotSubmitted?)
    ensures o in SaidAt(h, i) <==> CallsFor(h[..i], h[i], o)
  {
    PendingWaits(h[..i]);
    if o.RollbackAnswered? {
      assert Run(h[..i]).state.rollback == Some(o.request) <==> RollbackWaits(h[..i], o.request);
    }
  }

  /** Whatever is said is called for by the input and the history, and whatever is called for is said. */
  lemma SaidIffCalledFor(h: seq<Input>, i: nat, o: Output)
    requires i < |h|
    ensures o in SaidAt(h, i) <==> CallsFor(h[..i], h[i], o)
  {
    if h[i].ApprovalRequested? || h[i].ApprovalAnswered? || h[i].PatchBegan? || h[i].PatchEnded? || h[i].OutputDelta? {
      SaidOfItems(h, i, o);
    } else if h[i].TurnCompleted? || h[i].AbortEndsTurn? || h[i].AbortReported? || h[i].InterruptAsked? {
      SaidOfTurns(h, i, o);
    } else {
      SaidOfRollbacks(h, i, o);
    }
  }

  /**
    It is said once: an input makes the program say one thing at most, but for
    an approval, which is asked for after its item is announced, and an abort,
    which answers all interrupts asked for since the last one, in order.
  */
  lemma SaidOnce(h: seq<Input>, i: nat)
    requires i < |h|
    ensures !h[i].AbortReported? && !h[i].ApprovalRequested? ==> |SaidAt(h, i)| <= 1
    ensures h[i].ApprovalRequested? ==>
      var asked := [ApprovalAsked(h[i].item, h[i].version)];
      SaidAt(h, i) == if h[i].version == V2 && !Marked(h[..i], h[i].item) then [ItemStarted(h[i].item)] + asked else asked
    ensures h[i].AbortReported? ==> SaidAt(h, i) == Answers(InterruptsAsked(h[LastAbort(h[..i])..i]))
  {
    if h[i].ApprovalRequested? {
      StartedIsMarked(h[..i], h[i].item);
    }
    AnsweredByAborts(h[..i]);
    assert h[..i][LastAbort(h[..i])..] == h[LastAbort(h[..i])..i];
  }
}
