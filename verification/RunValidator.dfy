/** Sequence validation of a run journal: the state machine as a step function, its
    fold over a history, and the imperative validator proved equal to that fold. */
module RunValidator {
  import opened Options
  import opened RunEvents

  /** A model round's declared tool calls, until every one has an intent and a result. */
  datatype Batch = Batch(
    ordinal: nat, round: nat, attempt: nat,
    expected: nat,
    intents: seq<StepId>,
    results: set<StepId>,
    resultsStarted: bool)

  datatype Round = Round(ordinal: nat, round: nat, attempt: nat)

  datatype State = State(
    activeOrdinal: Option<nat>,
    activeRound: Option<Round>,
    openBatch: Option<Batch>,
    pendingIntents: map<StepId, bool>,           // step -> is it mutating
    verifierPassed: map<string, bool>,
    verifierWorkspace: map<string, Workspace>,
    mutatingSteps: map<nat, set<StepId>>,
    completed: seq<nat>,
    nextExecution: nat,
    lastVerified: int,
    gap: bool,
    recovery: bool,
    terminal: bool)

  const INITIAL := State(None, None, None, map[], map[], map[], map[], [], 0, -1, false, false, false)

  /** Why an authenticated event is impossible after the history before it. */
  datatype Reason =
    | ResumeBoundaryDiffersFromVerifiedBlocks
    | ResumeSequenceDiffersFromVerifiedBoundary
    | ResumeAbandonsInFlightModelRound
    | ResumeAbandonsToolIntentsWithoutResults
    | ResumeAbandonsUnverifiedMutatingAttempt
    | SecondBlockStartedBeforeFirstFinished
    | BlockDidNotStartAtNextExecutionOrdinal
    | ModelRoundIsOutsideActiveBlock
    | ModelRoundOverlapsUnfinishedRound
    | PrimaryModelRoundStartedDuringRecovery
    | RecoveryModelRoundLacksRecoveryStarted
    | ModelCompletionHasNoMatchingStart
    | ToolIntentHasNoModelToolBatch
    | ToolIntentCoordinatesDifferFromModelBatch
    | ToolIntentWasAppendedAfterToolResultsBegan
    | ToolIntentsExceedModelDeclaredCount
    | ToolIntentIndicesAreNotContiguous
    | ToolIntentStepIsDuplicated
    | ToolResultHasNoModelToolBatch
    | ToolResultHasNoUnmatchedIntent
    | ToolResultIsDuplicated
    | RecoveryIsOutsideActiveBlock
    | RecoveryAttemptIsDuplicated
    | RecoveryOverlapsUnfinishedModelToolRound
    | RecoveryCompletionHasNoMatchingStart
    | RecoveryFinishedWithOpenModelToolRound
    | VerifierIsOutsideActiveBlock
    | VerifierRanBeforeRecordedWorkSettled
    | BlockCompletionHasNoMatchingStart
    | BlockFinishedDuringInFlightModelRound
    | BlockFinishedWithToolIntentsLackingResults
    | BlockFinishedBeforeRecoveryFinished
    | VerifiedBlockHasIncompleteToolBatch
    | OnlyCompleteBlocksMayBeVerified
    | BlockIsOutsideRunContract
    | VerifiedBlockLacksPassedVerifiers
    | VerifiedBlockWorkspaceDiffersFromVerifierEvidence
    | RunFinishedWithActiveBlock
    | RunFinishedWithUnsettledToolProtocol
    | TerminalReceiptNamesWrongVerifiedSequence
    | TerminalRunHasTrailingEvents
    | RunStartedIsNotFirst
    | JournalDoesNotBeginWithRunStarted
    | ContextWasReboundDuringActiveBlock

  datatype Verdict = Accept(state: State) | Reject(reason: Reason)

  function Elements(s: seq<StepId>): set<StepId> {
    set x | x in s
  }

  predicate BatchClosed(b: Option<Batch>) {
    b.Some? ==> |b.value.intents| == b.value.expected && b.value.results == Elements(b.value.intents)
  }

  predicate RecordedIntentsClosed(b: Option<Batch>) {
    b.Some? ==> b.value.results == Elements(b.value.intents)
  }

  predicate NoMutatingSteps(m: map<nat, set<StepId>>) {
    forall o | o in m :: m[o] == {}
  }

  /** `setdefault(ordinal, set()).add(step)` */
  function AddStep(m: map<nat, set<StepId>>, ordinal: nat, step: StepId): map<nat, set<StepId>> {
    m[ordinal := (if ordinal in m then m[ordinal] else {}) + {step}]
  }

  function ClearBlock(s: State): State {
    s.(activeRound := None, openBatch := None, pendingIntents := map[],
       verifierPassed := map[], verifierWorkspace := map[], recovery := false)
  }

  predicate VerifiersPassed(s: State, required: set<string>) {
    forall v | v in required :: v in s.verifierPassed && s.verifierPassed[v]
  }

  predicate VerifiersSaw(s: State, required: set<string>, w: Workspace) {
    forall v | v in required :: v in s.verifierWorkspace && s.verifierWorkspace[v] == w
  }

  function StepResumed(s: State, e: Event): Verdict
    requires e.RunResumed?
  {
    if e.nextBlockOrdinal != |s.completed| then Reject(ResumeBoundaryDiffersFromVerifiedBlocks)
    else if e.resumeVerifiedSequence != s.lastVerified then Reject(ResumeSequenceDiffersFromVerifiedBoundary)
    else if s.activeRound.Some? then Reject(ResumeAbandonsInFlightModelRound)
    else if !RecordedIntentsClosed(s.openBatch) then Reject(ResumeAbandonsToolIntentsWithoutResults)
    else if !NoMutatingSteps(s.mutatingSteps) then Reject(ResumeAbandonsUnverifiedMutatingAttempt)
    else Accept(ClearBlock(s).(activeOrdinal := None, gap := false, nextExecution := |s.completed|))
  }

  function StepBlockStarted(s: State, e: Event): Verdict
    requires e.BlockStarted?
  {
    if s.activeOrdinal.Some? then Reject(SecondBlockStartedBeforeFirstFinished)
    else if e.ordinal != s.nextExecution then Reject(BlockDidNotStartAtNextExecutionOrdinal)
    else Accept(ClearBlock(s).(activeOrdinal := Some(e.ordinal)))
  }

  function StepRoundStarted(s: State, e: Event): Verdict
    requires e.ModelRoundStarted?
  {
    if s.activeOrdinal != Some(e.ordinal) then Reject(ModelRoundIsOutsideActiveBlock)
    else if s.activeRound.Some? || !BatchClosed(s.openBatch) then Reject(ModelRoundOverlapsUnfinishedRound)
    else if e.attempt == 0 && s.recovery then Reject(PrimaryModelRoundStartedDuringRecovery)
    else if e.attempt > 0 && !s.recovery then Reject(RecoveryModelRoundLacksRecoveryStarted)
    else Accept(s.(activeRound := Some(Round(e.ordinal, e.round, e.attempt)), openBatch := None))
  }

  function StepRoundCompleted(s: State, e: Event): Verdict
    requires e.ModelRoundCompleted?
  {
    if s.activeRound != Some(Round(e.ordinal, e.round, e.attempt)) then
      Reject(ModelCompletionHasNoMatchingStart)
    else
      Accept(s.(activeRound := None,
                openBatch := if e.toolCallCount == 0 then None
                             else Some(Batch(e.ordinal, e.round, e.attempt, e.toolCallCount, [], {}, false))))
  }

  function StepIntent(s: State, e: Event): Verdict
    requires e.ToolIntent?
  {
    if s.openBatch.None? then Reject(ToolIntentHasNoModelToolBatch)
    else
      var b := s.openBatch.value;
      if b.ordinal != e.ordinal || b.round != e.round || b.attempt != e.attempt then
        Reject(ToolIntentCoordinatesDifferFromModelBatch)
      else if b.resultsStarted then Reject(ToolIntentWasAppendedAfterToolResultsBegan)
      else if |b.intents| >= b.expected then Reject(ToolIntentsExceedModelDeclaredCount)
      else if e.toolIndex != |b.intents| then Reject(ToolIntentIndicesAreNotContiguous)
      else if e.stepId in s.pendingIntents then Reject(ToolIntentStepIsDuplicated)
      else
        Accept(s.(openBatch := Some(b.(intents := b.intents + [e.stepId])),
                  pendingIntents := s.pendingIntents[e.stepId := e.mutating],
                  mutatingSteps := if e.mutating then AddStep(s.mutatingSteps, e.ordinal, e.stepId)
                                   else s.mutatingSteps))
  }

  function StepResult(s: State, e: Event): Verdict
    requires e.ToolResult?
  {
    if s.openBatch.None? then Reject(ToolResultHasNoModelToolBatch)
    else if e.stepId !in s.pendingIntents then Reject(ToolResultHasNoUnmatchedIntent)
    else if e.stepId in s.openBatch.value.results then Reject(ToolResultIsDuplicated)
    else
      var b := s.openBatch.value;
      var b' := Some(b.(resultsStarted := true, results := b.results + {e.stepId}));
      Accept(s.(openBatch := if BatchClosed(b') then None else b',
                pendingIntents := s.pendingIntents - {e.stepId}))
  }

  function StepRecoveryStarted(s: State, e: Event): Verdict
    requires e.RecoveryStarted?
  {
    if s.activeOrdinal != Some(e.ordinal) then Reject(RecoveryIsOutsideActiveBlock)
    else if s.recovery then Reject(RecoveryAttemptIsDuplicated)
    else if s.activeRound.Some? || !BatchClosed(s.openBatch) then
      Reject(RecoveryOverlapsUnfinishedModelToolRound)
    else Accept(s.(recovery := true))
  }

  function StepRecoveryFinished(s: State, e: Event): Verdict
    requires e.RecoveryFinished?
  {
    if s.activeOrdinal != Some(e.ordinal) || !s.recovery then Reject(RecoveryCompletionHasNoMatchingStart)
    else if s.activeRound.Some? || !BatchClosed(s.openBatch) then
      Reject(RecoveryFinishedWithOpenModelToolRound)
    else Accept(s.(recovery := false))
  }

  function StepVerifier(s: State, e: Event): Verdict
    requires e.VerifierResult?
  {
    if s.activeOrdinal != Some(e.ordinal) then Reject(VerifierIsOutsideActiveBlock)
    else if s.activeRound.Some? || !RecordedIntentsClosed(s.openBatch) then
      Reject(VerifierRanBeforeRecordedWorkSettled)
    else Accept(s.(verifierPassed := s.verifierPassed[e.verifier := e.passed],
                   verifierWorkspace := s.verifierWorkspace[e.verifier := e.workspace]))
  }

  /** What, if anything, is wrong with finishing the active block as verified. */
  function EvidenceProblem(c: Contract, s: State, e: Event): Option<Reason>
    requires e.BlockFinished?
  {
    if e.status != Complete then Some(OnlyCompleteBlocksMayBeVerified)
    else if e.ordinal >= |c.blocks| then Some(BlockIsOutsideRunContract)
    else
      var required := RequiredVerifiers(c.blocks[e.ordinal]);
      if !VerifiersPassed(s, required) then Some(VerifiedBlockLacksPassedVerifiers)
      else if !VerifiersSaw(s, required, e.workspace) then Some(VerifiedBlockWorkspaceDiffersFromVerifierEvidence)
      else None
  }

  function StepBlockFinished(c: Contract, s: State, index: nat, e: Event): Verdict
    requires e.BlockFinished?
  {
    if s.activeOrdinal != Some(e.ordinal) then Reject(BlockCompletionHasNoMatchingStart)
    else if s.activeRound.Some? then Reject(BlockFinishedDuringInFlightModelRound)
    else if s.pendingIntents != map[] || !RecordedIntentsClosed(s.openBatch) then
      Reject(BlockFinishedWithToolIntentsLackingResults)
    else if s.recovery then Reject(BlockFinishedBeforeRecoveryFinished)
    else if !BatchClosed(s.openBatch) && (e.verified || e.status == Complete) then
      Reject(VerifiedBlockHasIncompleteToolBatch)
    else
      var closed := ClearBlock(s).(activeOrdinal := None, nextExecution := e.ordinal + 1);
      var problem := if e.verified then EvidenceProblem(c, s, e) else None;
      if problem.Some? then Reject(problem.value)
      else if e.verified && !s.gap && e.ordinal == |s.completed| then
        Accept(closed.(completed := s.completed + [e.ordinal], lastVerified := index,
                       mutatingSteps := s.mutatingSteps - {e.ordinal}))
      else Accept(closed.(gap := true))
  }

  function StepRunFinished(s: State, e: Event): Verdict
    requires e.RunFinished?
  {
    if s.activeOrdinal.Some? || s.activeRound.Some? then Reject(RunFinishedWithActiveBlock)
    else if s.openBatch.Some? || s.pendingIntents != map[] then Reject(RunFinishedWithUnsettledToolProtocol)
    else if e.finalVerifiedSequence != s.lastVerified then
      Reject(TerminalReceiptNamesWrongVerifiedSequence)
    else Accept(s.(terminal := true))
  }

  /** One event at position `index`, after the events that led to `s`. */
  function Step(c: Contract, s: State, index: nat, e: Event): Verdict {
    if s.terminal then Reject(TerminalRunHasTrailingEvents)
    else if e.RunStarted? then
      if index != 0 then Reject(RunStartedIsNotFirst) else Accept(s)
    else if index == 0 then Reject(JournalDoesNotBeginWithRunStarted)
    else
      match e
      case RunStarted => Accept(s)
      case RunResumed(_, _) => StepResumed(s, e)
      case ContextBound =>
        if s.activeOrdinal.Some? then Reject(ContextWasReboundDuringActiveBlock) else Accept(s)
      case BlockStarted(_, _) => StepBlockStarted(s, e)
      case ModelRoundStarted(_, _, _, _) => StepRoundStarted(s, e)
      case ModelRoundCompleted(_, _, _, _) => StepRoundCompleted(s, e)
      case ToolIntent(_, _, _, _, _, _) => StepIntent(s, e)
      case ToolResult(_) => StepResult(s, e)
      case RecoveryStarted(_, _, _) => StepRecoveryStarted(s, e)
      case RecoveryFinished(_, _, _) => StepRecoveryFinished(s, e)
      case VerifierResult(_, _, _, _) => StepVerifier(s, e)
      case BlockFinished(_, _, _, _, _) => StepBlockFinished(c, s, index, e)
      case RunFinished(_, _) => StepRunFinished(s, e)
  }

  /** The verdict on a whole history: the first rejection, or the state after the last event. */
  function Validate(c: Contract, es: seq<Event>): Verdict {
    if es == [] then Accept(INITIAL)
    else
      var v := Validate(c, es[..|es| - 1]);
      if v.Reject? then v else Step(c, v.state, |es| - 1, es[|es| - 1])
  }

  predicate Accepted(c: Contract, es: seq<Event>) {
    Validate(c, es).Accept?
  }

  function StateOf(c: Contract, es: seq<Event>): State
    requires Accepted(c, es)
  {
    Validate(c, es).state
  }

  /** Every prefix of an accepted history is accepted: a process may stop after any write. */
  lemma {:induction false} PrefixAccepted(c: Contract, es: seq<Event>, k: nat)
    requires k <= |es| && Accepted(c, es)
    ensures Accepted(c, es[..k])
    decreases |es|
  {
    if k == |es| {
      assert es[..k] == es;
    } else {
      PrefixAccepted(c, es[..|es| - 1], k);
      assert es[..|es| - 1][..k] == es[..k];
    }
  }

  /** The event at position `k` of an accepted history was accepted in the state before it. */
  lemma StepAt(c: Contract, es: seq<Event>, k: nat)
    requires k < |es| && Accepted(c, es)
    ensures Accepted(c, es[..k]) && Accepted(c, es[..k + 1])
    ensures Step(c, StateOf(c, es[..k]), k, es[k]) == Accept(StateOf(c, es[..k + 1]))
  {
    PrefixAccepted(c, es, k);
    PrefixAccepted(c, es, k + 1);
    assert es[..k + 1][..k] == es[..k];
  }

  /** Validation of an extension depends only on the verdict on the history it extends. */
  lemma ValidateSnoc(c: Contract, es: seq<Event>, e: Event)
    ensures Validate(c, es + [e]) ==
            if Accepted(c, es) then Step(c, StateOf(c, es), |es|, e) else Validate(c, es)
  {
    assert (es + [e])[..|es|] == es;
  }

  /** Rejecting at position `i` settles the verdict on everything after it. */
  lemma {:induction false} RejectionIsFinal(c: Contract, es: seq<Event>, k: nat)
    requires k <= |es| && Validate(c, es[..k]).Reject?
    ensures Validate(c, es) == Validate(c, es[..k])
    decreases |es|
  {
    if k == |es| {
      assert es[..k] == es;
    } else {
      assert es[..|es| - 1][..k] == es[..k];
      RejectionIsFinal(c, es[..|es| - 1], k);
    }
  }
}
