/**
  The handlers that work on a thread's turn state in place; each does to the
  state, and says, what `TurnEvents.Handle` defines.
*/
module TurnHandlers {
  import opened Wrappers
  import opened TurnEvents

  class TurnState {
    var fileChangeStarted: set<ItemId>
    var lastError: Option<TurnError>
    var pendingInterrupts: seq<Interrupt>
    var pendingRollback: Option<RequestRef>
    /** What the handlers sent, in order. */
    var sent: seq<Output>

    constructor ()
      ensures View() == FRESH && sent == []
    {
      fileChangeStarted, lastError, pendingInterrupts, pendingRollback, sent := {}, None, [], None, [];
    }

    ghost function View(): State
      reads this
    {
      State(fileChangeStarted, lastError, pendingInterrupts, pendingRollback)
    }

    /** The state and what was sent are those after this input. */
    twostate predicate Handled(input: Input)
      reads this
    {
      var step := Handle(old(View()), input);
      View() == step.state && sent == old(sent) + step.outputs
    }

    method Say(o: Output)
      modifies this`sent
      ensures sent == old(sent) + [o]
    {
      sent := sent + [o];
    }

    method StartFileChange(item: ItemId)
      modifies this
      ensures View() == Started(old(View()), item).state && sent == old(sent) + Started(old(View()), item).outputs
    {
      var firstStart := item !in fileChangeStarted;
      fileChangeStarted := fileChangeStarted + {item};
      if firstStart {
        Say(ItemStarted(item));
      }
    }

    method CompleteFileChangeItem(item: ItemId, status: PatchStatus)
      modifies this
      ensures View() == CompletedItem(old(View()), item, status).state
      ensures sent == old(sent) + [ItemCompleted(item, status)]
    {
      fileChangeStarted := fileChangeStarted - {item};
      Say(ItemCompleted(item, status));
    }

    method OnApprovalRequest(item: ItemId, version: ApiVersion)
      modifies this
      ensures Handled(ApprovalRequested(item, version))
    {
      if version.V2? {
        StartFileChange(item);
      }
      Say(ApprovalAsked(item, version));
    }

    method OnApprovalResponse(item: ItemId, decision: Decision)
      modifies this
      ensures Handled(ApprovalAnswered(item, decision))
    {
      match CompletionOf(decision)
      case Some(status) => CompleteFileChangeItem(item, status);
      case None =>
    }

    method OnPatchBegin(item: ItemId)
      modifies this
      ensures Handled(PatchBegan(item))
    {
      StartFileChange(item);
    }

    method OnPatchEnd(item: ItemId, status: PatchStatus)
      modifies this
      ensures Handled(PatchEnded(item, status))
    {
      CompleteFileChangeItem(item, status);
    }

    method OnOutputDelta(item: ItemId, text: string)
      modifies this
      ensures Handled(OutputDelta(item, text))
    {
      if item in fileChangeStarted {
        Say(FileChangeDelta(item, text));
      } else {
        Say(CommandDelta(item, text));
      }
    }

    /** Both a rollback that failed and one that was carried out take the request that waits for it. */
    method SettleRollback(ok: bool)
      modifies this
      ensures View() == SettledRollback(old(View()), ok).state
      ensures sent == old(sent) + SettledRollback(old(View()), ok).outputs
    {
      var pending := pendingRollback;
      pendingRollback := None;
      if pending.Some? {
        Say(RollbackAnswered(pending.value, ok));
      }
    }

    method OnError(error: TurnError)
      modifies this
      ensures Handled(ErrorRaised(error))
    {
      if error.info == Some(ThreadRollbackFailed) {
        SettleRollback(false);
      } else if AffectsTurnStatus(error) {
        lastError := Some(error);
        Say(ErrorNotice(error));
      }
    }

    method OnThreadRolledBack(loaded: bool)
      modifies this
      ensures Handled(RolledBack(loaded))
    {
      SettleRollback(loaded);
    }

    method FindAndRemoveTurnSummary() returns (error: Option<TurnError>)
      modifies this
      ensures error == old(lastError) && sent == old(sent)
      ensures View() == old(View()).(started := {}, lastError := None)
    {
      error := lastError;
      fileChangeStarted, lastError := {}, None;
    }

    method HandleTurnComplete(turn: TurnId)
      modifies this
      ensures Handled(TurnCompleted(turn))
    {
      var error := FindAndRemoveTurnSummary();
      Say(TurnEnded(turn, if error.Some? then Failed(error.value) else Completed));
    }

    method HandleTurnInterrupted(turn: TurnId)
      modifies this
      ensures Handled(AbortEndsTurn(turn))
    {
      var _ := FindAndRemoveTurnSummary();
      Say(TurnEnded(turn, Interrupted));
    }

    /** The first part of the `TurnAborted` arm: everyone who asked for an interrupt is answered. */
    method AnswerInterrupts(reason: string)
      modifies this
      ensures Handled(AbortReported(reason))
    {
      var pending := pendingInterrupts;
      pendingInterrupts := [];
      for i := 0 to |pending|
        invariant View() == old(View()).(interrupts := [])
        invariant sent == old(sent) + Answers(pending[..i])
      {
        assert Answers(pending[..i + 1]) == Answers(pending[..i]) + [InterruptAnswered(pending[i])];
        Say(InterruptAnswered(pending[i]));
      }
      assert pending[..|pending|] == pending;
    }

    method OnInterruptRequest(interrupt: Interrupt)
      modifies this
      ensures Handled(InterruptAsked(interrupt))
    {
      pendingInterrupts := pendingInterrupts + [interrupt];
    }

    /** `thread_rollback`, up to submitting it; at most one is under way. */
    method OnRollbackRequest(request: RequestRef, turns: nat)
      modifies this
      ensures Handled(RollbackAsked(request, turns))
    {
      if turns == 0 {
        Say(RollbackAnswered(request, false));
        return;
      }
      if pendingRollback.Some? {
        Say(RollbackAnswered(request, false));
      } else {
        pendingRollback := Some(request);
      }
    }

    method OnRollbackNotSubmitted(request: RequestRef)
      modifies this
      ensures Handled(RollbackNotSubmitted(request))
    {
      pendingRollback := None;
      Say(RollbackAnswered(request, false));
    }
  }
}
