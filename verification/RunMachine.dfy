/** The validator as it runs: working variables updated in place, one event at a time. */
module RunMachine {
  import opened Options
  import opened RunEvents
  import opened RunValidator
  import A = RunAgreement

  /** The validator's working variables, updated in place one event at a time.  Every
      handler returns the rejection reason, or none after an accepted event. */
  class Machine {
    var activeOrdinal: Option<nat>
    var activeRound: Option<Round>
    var openBatch: Option<Batch>
    var pendingIntents: map<StepId, bool>
    var verifierPassed: map<string, bool>
    var verifierWorkspace: map<string, Workspace>
    var mutatingSteps: map<nat, set<StepId>>
    var completed: seq<nat>
    var nextExecution: nat
    var lastVerified: int
    var gap: bool
    var recovery: bool
    var terminal: bool

    function Snapshot(): State
      reads this
    {
      State(activeOrdinal, activeRound, openBatch, pendingIntents, verifierPassed, verifierWorkspace,
            mutatingSteps, completed, nextExecution, lastVerified, gap, recovery, terminal)
    }

    ghost function Outcome(reason: Option<Reason>): Verdict
      reads this
    {
      if reason.None? then Accept(Snapshot()) else Reject(reason.value)
    }

    constructor ()
      ensures Snapshot() == INITIAL
    {
      activeOrdinal, activeRound, openBatch := None, None, None;
      pendingIntents, verifierPassed, verifierWorkspace := map[], map[], map[];
      mutatingSteps, completed := map[], [];
      nextExecution, lastVerified := 0, -1;
      gap, recovery, terminal := false, false, false;
    }

    method ResetBlock()
      modifies `activeRound, `openBatch, `pendingIntents, `verifierPassed, `verifierWorkspace, `recovery
      ensures activeRound.None? && openBatch.None? && !recovery
      ensures pendingIntents == map[] && verifierPassed == map[] && verifierWorkspace == map[]
    {
      activeRound, openBatch := None, None;
      pendingIntents, verifierPassed, verifierWorkspace := map[], map[], map[];
      recovery := false;
    }

    method OnResumed(e: Event) returns (reason: Option<Reason>)
      requires e.RunResumed?
      modifies this
      ensures StepResumed(old(Snapshot()), e) == Outcome(reason)
    {
      reason := None;
      if e.nextBlockOrdinal != |completed| {
        reason := Some(ResumeBoundaryDiffersFromVerifiedBlocks);
      } else if e.resumeVerifiedSequence != lastVerified {
        reason := Some(ResumeSequenceDiffersFromVerifiedBoundary);
      } else if activeRound.Some? {
        reason := Some(ResumeAbandonsInFlightModelRound);
      } else if !RecordedIntentsClosed(openBatch) {
        reason := Some(ResumeAbandonsToolIntentsWithoutResults);
      } else if !NoMutatingSteps(mutatingSteps) {
        reason := Some(ResumeAbandonsUnverifiedMutatingAttempt);
      } else {
        ResetBlock();
        activeOrdinal, gap, nextExecution := None, false, |completed|;
      }
    }

    method OnBlockStarted(e: Event) returns (reason: Option<Reason>)
      requires e.BlockStarted?
      modifies this
      ensures StepBlockStarted(old(Snapshot()), e) == Outcome(reason)
    {
      reason := None;
      if activeOrdinal.Some? {
        reason := Some(SecondBlockStartedBeforeFirstFinished);
      } else if e.ordinal != nextExecution {
        reason := Some(BlockDidNotStartAtNextExecutionOrdinal);
      } else {
        ResetBlock();
        activeOrdinal := Some(e.ordinal);
      }
    }

    method OnRoundStarted(e: Event) returns (reason: Option<Reason>)
      requires e.ModelRoundStarted?
      modifies this
      ensures StepRoundStarted(old(Snapshot()), e) == Outcome(reason)
    {
      reason := None;
      if activeOrdinal != Some(e.ordinal) {
        reason := Some(ModelRoundIsOutsideActiveBlock);
      } else if activeRound.Some? || !BatchClosed(openBatch) {
        reason := Some(ModelRoundOverlapsUnfinishedRound);
      } else if e.attempt == 0 && recovery {
        reason := Some(PrimaryModelRoundStartedDuringRecovery);
      } else if e.attempt > 0 && !recovery {
        reason := Some(RecoveryModelRoundLacksRecoveryStarted);
      } else {
        activeRound, openBatch := Some(Round(e.ordinal, e.round, e.attempt)), None;
      }
    }

    method OnRoundCompleted(e: Event) returns (reason: Option<Reason>)
      requires e.ModelRoundCompleted?
      modifies this
      ensures StepRoundCompleted(old(Snapshot()), e) == Outcome(reason)
    {
      reason := None;
      if activeRound != Some(Round(e.ordinal, e.round, e.attempt)) {
        reason := Some(ModelCompletionHasNoMatchingStart);
      } else {
        activeRound := None;
        if e.toolCallCount == 0 {
          openBatch := None;
        } else {
          openBatch := Some(Batch(e.ordinal, e.round, e.attempt, e.toolCallCount, [], {}, false));
        }
      }
    }

    method OnIntent(e: Event) returns (reason: Option<Reason>)
      requires e.ToolIntent?
      modifies this
      ensures StepIntent(old(Snapshot()), e) == Outcome(reason)
    {
      reason := None;
      if openBatch.None? {
        reason := Some(ToolIntentHasNoModelToolBatch);
      } else {
        var b := openBatch.value;
        if b.ordinal != e.ordinal || b.round != e.round || b.attempt != e.attempt {
          reason := Some(ToolIntentCoordinatesDifferFromModelBatch);
        } else if b.resultsStarted {
          reason := Some(ToolIntentWasAppendedAfterToolResultsBegan);
        } else if |b.intents| >= b.expected {
          reason := Some(ToolIntentsExceedModelDeclaredCount);
        } else if e.toolIndex != |b.intents| {
          reason := Some(ToolIntentIndicesAreNotContiguous);
        } else if e.stepId in pendingIntents {
          reason := Some(ToolIntentStepIsDuplicated);
        } else {
          openBatch := Some(b.(intents := b.intents + [e.stepId]));
          pendingIntents := pendingIntents[e.stepId := e.mutating];
          if e.mutating { mutatingSteps := AddStep(mutatingSteps, e.ordinal, e.stepId); }
        }
      }
    }

    method OnResult(e: Event) returns (reason: Option<Reason>)
      requires e.ToolResult?
      modifies this
      ensures StepResult(old(Snapshot()), e) == Outcome(reason)
    {
      reason := None;
      if openBatch.None? {
        reason := Some(ToolResultHasNoModelToolBatch);
      } else if e.stepId !in pendingIntents {
        reason := Some(ToolResultHasNoUnmatchedIntent);
      } else if e.stepId in openBatch.value.results {
        reason := Some(ToolResultIsDuplicated);
      } else {
        var b := openBatch.value;
        openBatch := Some(b.(resultsStarted := true, results := b.results + {e.stepId}));
        pendingIntents := pendingIntents - {e.stepId};
        if BatchClosed(openBatch) { openBatch := None; }
      }
    }

    method OnRecoveryStarted(e: Event) returns (reason: Option<Reason>)
      requires e.RecoveryStarted?
      modifies this
      ensures StepRecoveryStarted(old(Snapshot()), e) == Outcome(reason)
    {
      reason := None;
      if activeOrdinal != Some(e.ordinal) {
        reason := Some(RecoveryIsOutsideActiveBlock);
      } else if recovery {
        reason := Some(RecoveryAttemptIsDuplicated);
      } else if activeRound.Some? || !BatchClosed(openBatch) {
        reason := Some(RecoveryOverlapsUnfinishedModelToolRound);
      } else {
        recovery := true;
      }
    }

    method OnRecoveryFinished(e: Event) returns (reason: Option<Reason>)
      requires e.RecoveryFinished?
      modifies this
      ensures StepRecoveryFinished(old(Snapshot()), e) == Outcome(reason)
    {
      reason := None;
      if activeOrdinal != Some(e.ordinal) || !recovery {
        reason := Some(RecoveryCompletionHasNoMatchingStart);
      } else if activeRound.Some? || !BatchClosed(openBatch) {
        reason := Some(RecoveryFinishedWithOpenModelToolRound);
      } else {
        recovery := false;
      }
    }

    method OnVerifier(e: Event) returns (reason: Option<Reason>)
      requires e.VerifierResult?
      modifies this
      ensures StepVerifier(old(Snapshot()), e) == Outcome(reason)
    {
      reason := None;
      if activeOrdinal != Some(e.ordinal) {
        reason := Some(VerifierIsOutsideActiveBlock);
      } else if activeRound.Some? || !RecordedIntentsClosed(openBatch) {
        reason := Some(VerifierRanBeforeRecordedWorkSettled);
      } else {
        verifierPassed := verifierPassed[e.verifier := e.passed];
        verifierWorkspace := verifierWorkspace[e.verifier := e.workspace];
      }
    }

    /** Advance the verified boundary, or open a gap in it. */
    method RecordFinish(index: nat, e: Event)
      requires e.BlockFinished?
      modifies `completed, `lastVerified, `mutatingSteps, `gap
      ensures if e.verified && !old(gap) && e.ordinal == |old(completed)| then
                && completed == old(completed) + [e.ordinal] && lastVerified == index
                && mutatingSteps == old(mutatingSteps) - {e.ordinal} && gap == old(gap)
              else
                && completed == old(completed) && lastVerified == old(lastVerified)
                && mutatingSteps == old(mutatingSteps) && gap
    {
      if e.verified && !gap && e.ordinal == |completed| {
        completed := completed + [e.ordinal];
        lastVerified := index;
        mutatingSteps := mutatingSteps - {e.ordinal};
      } else {
        gap := true;
      }
    }

    method OnBlockFinished(contract: Contract, index: nat, e: Event) returns (reason: Option<Reason>)
      requires e.BlockFinished?
      modifies this
      ensures StepBlockFinished(contract, old(Snapshot()), index, e) == Outcome(reason)
    {
      if activeOrdinal != Some(e.ordinal) { return Some(BlockCompletionHasNoMatchingStart); }
      if activeRound.Some? { return Some(BlockFinishedDuringInFlightModelRound); }
      if pendingIntents != map[] || !RecordedIntentsClosed(openBatch) {
        return Some(BlockFinishedWithToolIntentsLackingResults);
      }
      if recovery { return Some(BlockFinishedBeforeRecoveryFinished); }
      if !BatchClosed(openBatch) && (e.verified || e.status == Complete) {
        return Some(VerifiedBlockHasIncompleteToolBatch);
      }
      reason := None;
      if e.verified {
        reason := EvidenceProblem(contract, Snapshot(), e);
        if reason.Some? { return; }
      }
      RecordFinish(index, e);
      ResetBlock();
      activeOrdinal, nextExecution := None, e.ordinal + 1;
    }

    method OnRunFinished(e: Event) returns (reason: Option<Reason>)
      requires e.RunFinished?
      modifies this
      ensures StepRunFinished(old(Snapshot()), e) == Outcome(reason)
    {
      reason := None;
      if activeOrdinal.Some? || activeRound.Some? {
        reason := Some(RunFinishedWithActiveBlock);
      } else if openBatch.Some? || pendingIntents != map[] {
        reason := Some(RunFinishedWithUnsettledToolProtocol);
      } else if e.finalVerifiedSequence != lastVerified {
        reason := Some(TerminalReceiptNamesWrongVerifiedSequence);
      } else {
        terminal := true;
      }
    }

    /** One event: what the specification says of it, keeping the protocol invariants. */
    method Consume(contract: Contract, index: nat, e: Event) returns (reason: Option<Reason>)
      modifies this
      ensures Step(contract, old(Snapshot()), index, e) == Outcome(reason)
      ensures A.Shape(old(Snapshot()), index) && reason.None? ==> A.Shape(Snapshot(), index + 1)
    {
      ghost var before := Snapshot();
      reason := Dispatch(contract, index, e);
      if A.Shape(before, index) && reason.None? {
        A.ShapeStep(contract, before, index, e);
      }
    }

    method Dispatch(contract: Contract, index: nat, e: Event) returns (reason: Option<Reason>)
      modifies this
      ensures Step(contract, old(Snapshot()), index, e) == Outcome(reason)
    {
      reason := None;
      if terminal {
        reason := Some(TerminalRunHasTrailingEvents);
      } else if e.RunStarted? {
        if index != 0 { reason := Some(RunStartedIsNotFirst); }
      } else if index == 0 {
        reason := Some(JournalDoesNotBeginWithRunStarted);
      } else {
        match e
        case RunResumed(_, _) => reason := OnResumed(e);
        case ContextBound =>
          if activeOrdinal.Some? { reason := Some(ContextWasReboundDuringActiveBlock); }
        case BlockStarted(_, _) => reason := OnBlockStarted(e);
        case ModelRoundStarted(_, _, _, _) => reason := OnRoundStarted(e);
        case ModelRoundCompleted(_, _, _, _) => reason := OnRoundCompleted(e);
        case ToolIntent(_, _, _, _, _, _) => reason := OnIntent(e);
        case ToolResult(_) => reason := OnResult(e);
        case RecoveryStarted(_, _, _) => reason := OnRecoveryStarted(e);
        case RecoveryFinished(_, _, _) => reason := OnRecoveryFinished(e);
        case VerifierResult(_, _, _, _) => reason := OnVerifier(e);
        case BlockFinished(_, _, _, _, _) => reason := OnBlockFinished(contract, index, e);
        case RunFinished(_, _) => reason := OnRunFinished(e);
      }
    }
  }

  lemma ValidateNext(c: Contract, es: seq<Event>, i: nat, s: State)
    requires i < |es| && Validate(c, es[..i]) == Accept(s)
    ensures Validate(c, es[..i + 1]) == Step(c, s, i, es[i])
  {
    assert es[..i + 1][..i] == es[..i];
  }

  /** The validator as the journal runs it: one pass over the events, stopping at the
      first one that the history so far makes impossible. */
  method ValidateEventSequence(events: seq<Event>, contract: Contract) returns (reason: Option<Reason>)
    ensures reason.None? <==> Accepted(contract, events)
    ensures reason.Some? ==> Validate(contract, events) == Reject(reason.value)
  {
    var machine := new Machine();
    for i := 0 to |events|
      invariant fresh(machine)
      invariant Validate(contract, events[..i]) == Accept(machine.Snapshot())
    {
      ValidateNext(contract, events, i, machine.Snapshot());
      reason := machine.Consume(contract, i, events[i]);
      if reason.Some? {
        RejectionIsFinal(contract, events, i + 1);
        return;
      }
    }
    assert events[..|events|] == events;
    reason := None;
  }
}
