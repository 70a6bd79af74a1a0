/** What the validator's state looks like after every accepted history, and how far the
    resume reading agrees with it. */
module RunAgreement {
  import opened Options
  import opened RunEvents
  import V = RunValidator
  import R = RunResume

  /** The open batch's bookkeeping: intents come before results and are all different. */
  predicate BatchShape(b: V.Batch) {
    && 0 < b.expected && |b.intents| <= b.expected
    && b.results <= V.Elements(b.intents)
    && (!b.resultsStarted ==> b.results == {})
    && (forall i, j | 0 <= i < j < |b.intents| :: b.intents[i] != b.intents[j])
    && !V.BatchClosed(Some(b))
  }

  /** The round, batch and pending-intent variables describe one protocol position. */
  predicate Protocol(s: V.State) {
    && (s.activeRound.Some? ==> s.activeOrdinal == Some(s.activeRound.value.ordinal) && s.openBatch.None?)
    && (s.openBatch.Some? ==> s.activeOrdinal == Some(s.openBatch.value.ordinal) && BatchShape(s.openBatch.value))
    && s.pendingIntents.Keys ==
       (if s.openBatch.Some? then V.Elements(s.openBatch.value.intents) - s.openBatch.value.results else {})
    && (s.terminal ==> s.activeOrdinal.None?)
  }

  /** The verified boundary, the execution cursor, the gap flag and the mutating steps. */
  predicate Boundary(s: V.State, length: nat) {
    && (s.activeOrdinal.Some? ==> s.activeOrdinal.value == s.nextExecution)
    && |s.completed| <= s.nextExecution
    && (s.gap <==> |s.completed| < s.nextExecution)
    && (forall i | 0 <= i < |s.completed| :: s.completed[i] == i)
    && -1 <= s.lastVerified < length
    && (forall o | o in s.mutatingSteps :: |s.completed| <= o <= s.nextExecution && s.mutatingSteps[o] != {})
    && (s.activeOrdinal.None? ==> s.nextExecution !in s.mutatingSteps)
  }

  /** A pending mutating intent is still listed as an unverified mutation. */
  predicate PendingListed(s: V.State) {
    forall p | p in s.pendingIntents && s.pendingIntents[p] ::
      s.nextExecution in s.mutatingSteps && p in s.mutatingSteps[s.nextExecution]
  }

  predicate Shape(s: V.State, length: nat) {
    Protocol(s) && Boundary(s, length) && PendingListed(s)
  }

  lemma ProtocolIntent(s: V.State, e: Event)
    requires Protocol(s) && e.ToolIntent? && V.StepIntent(s, e).Accept?
    ensures Protocol(V.StepIntent(s, e).state)
  {
    var b, b' := s.openBatch.value, V.StepIntent(s, e).state.openBatch.value;
    assert V.Elements(b'.intents) == V.Elements(b.intents) + {e.stepId};
    assert e.stepId !in V.Elements(b.intents);
    assert e.stepId in V.Elements(b'.intents) && e.stepId !in b'.results;
  }

  lemma ProtocolStep(c: Contract, s: V.State, index: nat, e: Event)
    requires Protocol(s) && V.Step(c, s, index, e).Accept?
    ensures Protocol(V.Step(c, s, index, e).state)
  {
    if e.ToolIntent? {
      ProtocolIntent(s, e);
    }
  }

  lemma BoundaryStep(c: Contract, s: V.State, index: nat, e: Event)
    requires Protocol(s) && Boundary(s, index) && V.Step(c, s, index, e).Accept?
    ensures Boundary(V.Step(c, s, index, e).state, index + 1)
  {
  }

  lemma PendingStep(c: Contract, s: V.State, index: nat, e: Event)
    requires Shape(s, index) && V.Step(c, s, index, e).Accept?
    ensures PendingListed(V.Step(c, s, index, e).state)
  {
  }

  lemma ShapeStep(c: Contract, s: V.State, index: nat, e: Event)
    requires Shape(s, index) && V.Step(c, s, index, e).Accept?
    ensures Shape(V.Step(c, s, index, e).state, index + 1)
  {
    ProtocolStep(c, s, index, e);
    BoundaryStep(c, s, index, e);
    PendingStep(c, s, index, e);
  }

  lemma {:induction false} ShapeHolds(c: Contract, es: seq<Event>)
    requires V.Accepted(c, es)
    ensures Shape(V.StateOf(c, es), |es|)
  {
    if es != [] {
      var n := |es| - 1;
      ShapeHolds(c, es[..n]);
      ShapeStep(c, V.StateOf(c, es[..n]), n, es[n]);
    }
  }

  /** Position `k` resumes the run while the validator's checkpoint gap is open. */
  predicate ResumesAcrossGap(c: Contract, es: seq<Event>, k: nat)
    requires k < |es|
  {
    es[k].RunResumed? && V.Accepted(c, es[..k]) && V.StateOf(c, es[..k]).gap
  }

  ghost predicate Crossed(c: Contract, es: seq<Event>) {
    exists k | 0 <= k < |es| :: ResumesAcrossGap(c, es, k)
  }

  /** Position `j` is a finish that the validator adds to the verified boundary. */
  predicate Checkpointed(c: Contract, es: seq<Event>, j: nat)
    requires j < |es|
  {
    && es[j].BlockFinished? && es[j].verified
    && V.Accepted(c, es[..j]) && !V.StateOf(c, es[..j]).gap
  }

  ghost predicate CheckpointedAfterCrossing(c: Contract, es: seq<Event>) {
    exists j | 0 <= j < |es| :: LateAt(c, es, j)
  }

  lemma SamePosition(c: Contract, es: seq<Event>, n: nat, k: nat)
    requires k < n <= |es|
    ensures es[..n][..k] == es[..k]
    ensures ResumesAcrossGap(c, es[..n], k) == ResumesAcrossGap(c, es, k)
    ensures Checkpointed(c, es[..n], k) == Checkpointed(c, es, k)
  {
    var earlier := es[..n];
    assert earlier[..k] == es[..k] && earlier[k] == es[k];
  }

  lemma CrossedSnoc(c: Contract, es: seq<Event>)
    requires es != []
    ensures Crossed(c, es) <==> Crossed(c, es[..|es| - 1]) || ResumesAcrossGap(c, es, |es| - 1)
  {
    var n := |es| - 1;
    var earlier := es[..n];
    if Crossed(c, es) {
      var k :| 0 <= k < |es| && ResumesAcrossGap(c, es, k);
      if k < n {
        SamePosition(c, es, n, k);
        assert ResumesAcrossGap(c, earlier, k);
      }
    }
    if Crossed(c, earlier) {
      var k :| 0 <= k < n && ResumesAcrossGap(c, earlier, k);
      SamePosition(c, es, n, k);
      assert ResumesAcrossGap(c, es, k);
    }
  }

  ghost predicate LateAt(c: Contract, es: seq<Event>, j: nat)
    requires j < |es|
  {
    Checkpointed(c, es, j) && Crossed(c, es[..j])
  }

  lemma SameLate(c: Contract, es: seq<Event>, n: nat, j: nat)
    requires j < n <= |es|
    ensures LateAt(c, es[..n], j) == LateAt(c, es, j)
  {
    SamePosition(c, es, n, j);
  }

  lemma LateSnoc(c: Contract, es: seq<Event>)
    requires es != []
    ensures CheckpointedAfterCrossing(c, es) <==>
            CheckpointedAfterCrossing(c, es[..|es| - 1]) || LateAt(c, es, |es| - 1)
  {
    var n := |es| - 1;
    var earlier := es[..n];
    forall j | 0 <= j < n
      ensures LateAt(c, es, j) == LateAt(c, earlier, j)
    {
      SameLate(c, es, n, j);
    }
    assert forall j | 0 <= j < |es| :: LateAt(c, es, j) ==> j == n || LateAt(c, earlier, j);
  }

  /** How the resume reading relates to the validator's state, given whether any resume
      crossed a gap and whether a checkpoint was recorded after such a resume. */
  predicate Reading(v: V.State, r: R.Resume, crossed: bool, late: bool) {
    && r.pendingIntents == v.pendingIntents
    && (r.terminalStatus.Some? <==> v.terminal)
    && (r.gap <==> v.gap || crossed)
    && r.completed <= v.completed
    && -1 <= r.lastVerified <= v.lastVerified
    && (late ==> crossed && |r.completed| < |v.completed|)
    && (!late ==> r.completed == v.completed && r.lastVerified == v.lastVerified)
    && (!late ==> r.mutationSteps == v.mutatingSteps)
    && (forall o | o in v.mutatingSteps :: o in r.mutationSteps && v.mutatingSteps[o] <= r.mutationSteps[o])
  }

  lemma ReadingFinish(c: Contract, v: V.State, r: R.Resume, crossed: bool, late: bool, index: nat, e: Event)
    requires Shape(v, index) && Reading(v, r, crossed, late)
    requires e.BlockFinished? && V.StepBlockFinished(c, v, index, e).Accept?
    ensures R.StepFinish(r, index, e).Resumable?
    ensures Reading(V.StepBlockFinished(c, v, index, e).state, R.StepFinish(r, index, e).state,
                    crossed, late || (crossed && e.verified && !v.gap))
  {
  }

  lemma ReadingResumed(v: V.State, r: R.Resume, crossed: bool, late: bool, index: nat, e: Event)
    requires Shape(v, index) && Reading(v, r, crossed, late)
    requires e.RunResumed? && V.StepResumed(v, e).Accept?
    ensures Reading(V.StepResumed(v, e).state, r, crossed || v.gap, late)
  {
  }

  lemma ReadingStep(c: Contract, v: V.State, r: R.Resume, crossed: bool, late: bool, index: nat, e: Event)
    requires Shape(v, index) && Reading(v, r, crossed, late) && V.Step(c, v, index, e).Accept?
    ensures R.Step(r, index, e).Resumable?
    ensures Reading(V.Step(c, v, index, e).state, R.Step(r, index, e).state,
                    crossed || (e.RunResumed? && v.gap),
                    late || (crossed && e.BlockFinished? && e.verified && !v.gap))
  {
    if e.BlockFinished? {
      ReadingFinish(c, v, r, crossed, late, index, e);
    } else if e.RunResumed? {
      ReadingResumed(v, r, crossed, late, index, e);
    } else if e.ToolIntent? {
      ReadingIntent(v, r, crossed, late, index, e);
    } else if e.ToolResult? {
      ReadingResult(v, r, crossed, late, index, e);
    } else {
      ReadingOther(c, v, r, crossed, late, index, e);
    }
  }

  lemma ReadingIntent(v: V.State, r: R.Resume, crossed: bool, late: bool, index: nat, e: Event)
    requires Reading(v, r, crossed, late) && e.ToolIntent? && V.StepIntent(v, e).Accept?
    ensures R.Step(r, index, e).Resumable?
    ensures Reading(V.StepIntent(v, e).state, R.Step(r, index, e).state, crossed, late)
  {
  }

  lemma ReadingResult(v: V.State, r: R.Resume, crossed: bool, late: bool, index: nat, e: Event)
    requires Reading(v, r, crossed, late) && e.ToolResult? && V.StepResult(v, e).Accept?
    ensures R.Step(r, index, e).Resumable?
    ensures Reading(V.StepResult(v, e).state, R.Step(r, index, e).state, crossed, late)
  {
  }

  lemma ReadingOther(c: Contract, v: V.State, r: R.Resume, crossed: bool, late: bool, index: nat, e: Event)
    requires Shape(v, index) && Reading(v, r, crossed, late) && V.Step(c, v, index, e).Accept?
    requires !e.BlockFinished? && !e.RunResumed? && !e.ToolIntent? && !e.ToolResult?
    ensures R.Step(r, index, e).Resumable?
    ensures Reading(V.Step(c, v, index, e).state, R.Step(r, index, e).state, crossed, late)
  {
    assert v.activeOrdinal.None? ==> v.pendingIntents.Keys == {};
  }

  lemma {:induction false} ReadingHolds(c: Contract, es: seq<Event>)
    requires V.Accepted(c, es)
    ensures R.Fold(es).Resumable?
    ensures Reading(V.StateOf(c, es), R.Fold(es).state, Crossed(c, es), CheckpointedAfterCrossing(c, es))
  {
    if es != [] {
      var n := |es| - 1;
      ReadingHolds(c, es[..n]);
      ShapeHolds(c, es[..n]);
      CrossedSnoc(c, es);
      LateSnoc(c, es);
      ReadingStep(c, V.StateOf(c, es[..n]), R.Fold(es[..n]).state,
                  Crossed(c, es[..n]), CheckpointedAfterCrossing(c, es[..n]), n, es[n]);
    }
  }

  /** The validator's own set of mutating steps that no checkpoint covers. */
  function UnverifiedSteps(v: V.State): set<StepId> {
    set o, s | o in v.mutatingSteps && s in v.mutatingSteps[o] :: s
  }

  /** On every accepted history the resume reading is well defined and errs on the safe
      side: it never claims a block the validator does not, and never forgets an
      unverified mutating step. */
  lemma ResumeIsConservative(c: Contract, es: seq<Event>)
    requires V.Accepted(c, es)
    ensures R.Fold(es).Resumable?
    ensures var v, r := V.StateOf(c, es), R.Fold(es).state;
            && r.completed <= v.completed
            && UnverifiedSteps(v) <= R.Uncertain(r)
            && r.pendingIntents == v.pendingIntents
            && (r.terminalStatus.Some? <==> v.terminal)
  {
    ReadingHolds(c, es);
  }

  /** The two readings say the same of everything a resume depends on. */
  predicate Agree(v: V.State, r: R.Resume) {
    && r.completed == v.completed
    && r.lastVerified == v.lastVerified
    && r.pendingIntents == v.pendingIntents
    && R.Uncertain(r) == UnverifiedSteps(v)
  }

  /** Exactly when the two readings agree, and when they disagree it is on the verified
      boundary. */
  lemma AgreementIsExact(c: Contract, es: seq<Event>)
    requires V.Accepted(c, es)
    ensures R.Fold(es).Resumable?
    ensures var v, r := V.StateOf(c, es), R.Fold(es).state;
            && (Agree(v, r) <==> !CheckpointedAfterCrossing(c, es))
            && (r.completed == v.completed <==> !CheckpointedAfterCrossing(c, es))
  {
    ReadingHolds(c, es);
    ShapeHolds(c, es);
  }

  lemma NoCrossingNoLateCheckpoint(c: Contract, es: seq<Event>)
    requires !Crossed(c, es)
    ensures !CheckpointedAfterCrossing(c, es)
  {
    forall j | 0 <= j < |es|
      ensures !Crossed(c, es[..j])
    {
      forall k | 0 <= k < j
        ensures !ResumesAcrossGap(c, es[..j], k)
      {
        assert es[..j][..k] == es[..k];
        assert !ResumesAcrossGap(c, es, k);
      }
    }
  }

  /** Without a resume across a gap the two readings coincide. */
  lemma ResumeAgrees(c: Contract, es: seq<Event>)
    requires V.Accepted(c, es) && !Crossed(c, es)
    ensures R.Fold(es).Resumable? && Agree(V.StateOf(c, es), R.Fold(es).state)
  {
    NoCrossingNoLateCheckpoint(c, es);
    AgreementIsExact(c, es);
  }

  /** What one accepted event can do to the resume reading's boundary. */
  lemma BoundaryAdvance(c: Contract, v: V.State, r: R.Resume, crossed: bool, late: bool, index: nat, e: Event)
    requires Shape(v, index) && Reading(v, r, crossed, late) && V.Step(c, v, index, e).Accept?
    ensures R.Step(r, index, e).Resumable?
    ensures R.VerifiedFinish(e) ==> |r.completed| <= e.ordinal
    ensures var r' := R.Step(r, index, e).state;
            && (r.gap ==> r'.gap)
            && (if R.VerifiedFinish(e) && !r.gap then
                  e.ordinal == |r.completed| && r'.completed == r.completed + [e.ordinal] && !r'.gap
                else
                  r'.completed == r.completed)
  {
  }

  /** Before the resume reading meets a gap, every verified finish lies below its boundary. */
  lemma {:induction false} FinishesBelowBoundary(c: Contract, es: seq<Event>)
    requires V.Accepted(c, es) && R.Fold(es).Resumable? && !R.Fold(es).state.gap
    ensures forall i | 0 <= i < |es| && R.VerifiedFinish(es[i]) :: es[i].ordinal < |R.Fold(es).state.completed|
  {
    if es != [] {
      var n := |es| - 1;
      Advance(c, es);
      FinishesBelowBoundary(c, es[..n]);
      assert forall i | 0 <= i < n :: es[i] == es[..n][i];
    }
  }

  /** `BoundaryAdvance` at the last event of an accepted history. */
  lemma Advance(c: Contract, es: seq<Event>)
    requires es != [] && V.Accepted(c, es)
    ensures V.Accepted(c, es[..|es| - 1]) && R.Fold(es).Resumable? && R.Fold(es[..|es| - 1]).Resumable?
    ensures var r, r', e := R.Fold(es[..|es| - 1]).state, R.Fold(es).state, es[|es| - 1];
            && (R.VerifiedFinish(e) ==> |r.completed| <= e.ordinal)
            && (r.gap ==> r'.gap)
            && (if R.VerifiedFinish(e) && !r.gap then
                  e.ordinal == |r.completed| && r'.completed == r.completed + [e.ordinal] && !r'.gap
                else
                  r'.completed == r.completed)
  {
    var n := |es| - 1;
    ReadingHolds(c, es[..n]);
    ShapeHolds(c, es[..n]);
    BoundaryAdvance(c, V.StateOf(c, es[..n]), R.Fold(es[..n]).state,
                    Crossed(c, es[..n]), CheckpointedAfterCrossing(c, es[..n]), n, es[n]);
  }

  lemma {:induction false} CheckpointsIgnoreUnused(es: seq<Event>, completed: seq<nat>, extra: nat)
    requires forall i | 0 <= i < |es| && R.VerifiedFinish(es[i]) :: es[i].ordinal != extra
    ensures R.Checkpoints(es, completed + [extra]) == R.Checkpoints(es, completed)
  {
    if es != [] {
      var n := |es| - 1;
      forall i | 0 <= i < n
        ensures es[..n][i] == es[i]
      {
      }
      CheckpointsIgnoreUnused(es[..n], completed, extra);
    }
  }

  /** The cross-check in `verified_blocks` cannot fail on an accepted history. */
  lemma {:induction false} CheckpointsMatch(c: Contract, es: seq<Event>)
    requires V.Accepted(c, es)
    ensures R.Fold(es).Resumable?
    ensures R.Ordinals(R.Checkpoints(es, R.Fold(es).state.completed)) == R.Fold(es).state.completed
  {
    if es != [] {
      var n := |es| - 1;
      Advance(c, es);
      CheckpointsMatch(c, es[..n]);
      var r, r' := R.Fold(es[..n]).state, R.Fold(es).state;
      BoundaryIsInitialSegment(c, es);
      if r'.completed != r.completed {
        FinishesBelowBoundary(c, es[..n]);
        CheckpointsIgnoreUnused(es[..n], r.completed, |r.completed|);
      }
    }
  }

  lemma BoundaryIsInitialSegment(c: Contract, es: seq<Event>)
    requires V.Accepted(c, es)
    ensures R.Fold(es).Resumable?
    ensures forall i | 0 <= i < |R.Fold(es).state.completed| :: R.Fold(es).state.completed[i] == i
  {
    ReadingHolds(c, es);
    ShapeHolds(c, es);
  }

  /** A model round was started and has not been completed. */
  predicate RoundInFlight(es: seq<Event>) {
    exists i | 0 <= i < |es| :: es[i].ModelRoundStarted? && forall j | i < j < |es| :: !es[j].ModelRoundCompleted?
  }

  lemma InFlightSnoc(es: seq<Event>)
    requires es != []
    ensures RoundInFlight(es) <==>
            || es[|es| - 1].ModelRoundStarted?
            || (RoundInFlight(es[..|es| - 1]) && !es[|es| - 1].ModelRoundCompleted?)
  {
    var n := |es| - 1;
    var earlier := es[..n];
    if RoundInFlight(earlier) && !es[n].ModelRoundCompleted? {
      var i :| 0 <= i < n && earlier[i].ModelRoundStarted? && forall j | i < j < n :: !earlier[j].ModelRoundCompleted?;
      assert es[i].ModelRoundStarted? && forall j | i < j < n :: es[j] == earlier[j];
    }
    if RoundInFlight(es) && !es[n].ModelRoundStarted? {
      var i :| 0 <= i <= n && es[i].ModelRoundStarted? && forall j | i < j <= n :: !es[j].ModelRoundCompleted?;
      assert earlier[i].ModelRoundStarted? && forall j | i < j < n :: earlier[j] == es[j];
    }
  }

  lemma ActiveRoundStep(c: Contract, s: V.State, index: nat, e: Event)
    requires Protocol(s) && V.Step(c, s, index, e).Accept?
    ensures V.Step(c, s, index, e).state.activeRound.Some? <==>
            e.ModelRoundStarted? || (s.activeRound.Some? && !e.ModelRoundCompleted?)
  {
  }

  lemma {:induction false} InFlightIsActive(c: Contract, es: seq<Event>)
    requires V.Accepted(c, es)
    ensures RoundInFlight(es) <==> V.StateOf(c, es).activeRound.Some?
  {
    if es != [] {
      var n := |es| - 1;
      InFlightIsActive(c, es[..n]);
      ShapeHolds(c, es[..n]);
      InFlightSnoc(es);
      ActiveRoundStep(c, V.StateOf(c, es[..n]), n, es[n]);
    }
  }

  lemma CursorStep(c: Contract, s: V.State, index: nat, e: Event)
    requires Boundary(s, index) && s.nextExecution <= MAX_BLOCKS
    requires PayloadValid(c, index, e) && V.Step(c, s, index, e).Accept?
    ensures V.Step(c, s, index, e).state.nextExecution <= MAX_BLOCKS
  {
  }

  /** The execution cursor never leaves the contract's ordinal range. */
  lemma {:induction false} CursorBounded(c: Contract, es: seq<Event>)
    requires V.Accepted(c, es) && PayloadsValid(c, es)
    ensures V.StateOf(c, es).nextExecution <= MAX_BLOCKS
  {
    if es != [] {
      var n := |es| - 1;
      ShapeHolds(c, es[..n]);
      assert PayloadsValid(c, es[..n]);
      CursorBounded(c, es[..n]);
      CursorStep(c, V.StateOf(c, es[..n]), n, es[n]);
    }
  }

  /** The resume event that `resume_state` itself prescribes. */
  function ResumeEvent(r: R.Resume): Event {
    RunResumed(|r.completed|, r.lastVerified)
  }

  /** The validator's guard on a resume, in terms of what the history left open. */
  lemma ResumeGuard(c: Contract, v: V.State, index: nat, e: Event)
    requires Shape(v, index) && 0 < index && e.RunResumed?
    ensures V.Step(c, v, index, e).Accept? <==>
            && e.nextBlockOrdinal == |v.completed| && e.resumeVerifiedSequence == v.lastVerified
            && !v.terminal && v.activeRound.None?
            && v.pendingIntents == map[] && UnverifiedSteps(v) == {}
  {
    assert v.pendingIntents == map[] <==> v.pendingIntents.Keys == {};
    assert V.RecordedIntentsClosed(v.openBatch) <==> v.pendingIntents.Keys == {} by {
      if v.openBatch.Some? {
        var b := v.openBatch.value;
        assert b.results + (V.Elements(b.intents) - b.results) == V.Elements(b.intents);
      }
    }
    if o :| o in v.mutatingSteps {
      var s :| s in v.mutatingSteps[o];
      assert s in UnverifiedSteps(v);
    }
  }

  /** On every accepted history, when the journal accepts the resume that its own resume
      reading prescribes: never once a checkpoint was recorded after a resume across a gap;
      otherwise exactly when the reading calls the run resumable and, which it does not
      check, no model round is in flight and no intent unanswered. */
  lemma ResumeAcceptedExactly(c: Contract, es: seq<Event>)
    requires es != [] && V.Accepted(c, es) && PayloadsValid(c, es)
    ensures R.Fold(es).Resumable?
    ensures var r := R.Fold(es).state;
            && PayloadValid(c, |es|, ResumeEvent(r))
            && (V.Accepted(c, es + [ResumeEvent(r)]) <==>
                && !CheckpointedAfterCrossing(c, es)
                && R.CanResume(r)
                && !RoundInFlight(es)
                && r.pendingIntents == map[])
  {
    ReadingHolds(c, es);
    AgreementIsExact(c, es);
    ResumePayloadValid(c, es);
    ResumeAcceptedByState(c, es);
    var v, r := V.StateOf(c, es), R.Fold(es).state;
    GuardsAgree(v, r, Crossed(c, es), CheckpointedAfterCrossing(c, es));
  }

  lemma ResumePayloadValid(c: Contract, es: seq<Event>)
    requires es != [] && V.Accepted(c, es) && PayloadsValid(c, es) && R.Fold(es).Resumable?
    ensures PayloadValid(c, |es|, ResumeEvent(R.Fold(es).state))
  {
    ReadingHolds(c, es);
    ShapeHolds(c, es);
    CursorBounded(c, es);
  }

  /** The validator's conditions on a resume, read off the resume state. */
  lemma GuardsAgree(v: V.State, r: R.Resume, crossed: bool, late: bool)
    requires Reading(v, r, crossed, late) && (Agree(v, r) <==> !late)
    ensures |r.completed| == |v.completed| && r.lastVerified == v.lastVerified && !v.terminal
            && v.pendingIntents == map[] && UnverifiedSteps(v) == {}
            <==> !late && R.CanResume(r) && r.pendingIntents == map[]
  {
  }

  /** The same in terms of the validator's own state. */
  lemma ResumeAcceptedByState(c: Contract, es: seq<Event>)
    requires es != [] && V.Accepted(c, es) && R.Fold(es).Resumable?
    ensures var v, r := V.StateOf(c, es), R.Fold(es).state;
            V.Accepted(c, es + [ResumeEvent(r)]) <==>
            && |r.completed| == |v.completed| && r.lastVerified == v.lastVerified
            && !v.terminal && !RoundInFlight(es) && v.pendingIntents == map[] && UnverifiedSteps(v) == {}
  {
    ShapeHolds(c, es);
    InFlightIsActive(c, es);
    var v, r := V.StateOf(c, es), R.Fold(es).state;
    V.ValidateSnoc(c, es, ResumeEvent(r));
    ResumeGuard(c, v, |es|, ResumeEvent(r));
  }

  const ONE_BLOCK := Contract([BlockContract("final", false, 0, {})])
  const START := BlockStarted(0, "final")
  const STARTED := [RunStarted, START]
  const IN_BLOCK := V.INITIAL.(activeOrdinal := Some(0))

  lemma StartedHistory()
    ensures V.Validate(ONE_BLOCK, STARTED) == V.Accept(IN_BLOCK)
    ensures R.Fold(STARTED) == R.Resumable(R.INITIAL)
  {
    V.ValidateSnoc(ONE_BLOCK, [], RunStarted);
    V.ValidateSnoc(ONE_BLOCK, [RunStarted], START);
    assert [] + [RunStarted] == [RunStarted] && [RunStarted] + [START] == STARTED;
    R.FoldSnoc([], RunStarted);
    R.FoldSnoc([RunStarted], START);
  }

  /** `can_resume` is weaker than the journal's guard: a model round may be in flight. */
  lemma CanResumeIgnoresInFlightRounds()
    ensures var es := STARTED + [ModelRoundStarted(0, 0, 0, 0)];
            && V.Accepted(ONE_BLOCK, es) && R.Fold(es).Resumable? && R.CanResume(R.Fold(es).state)
            && !V.Accepted(ONE_BLOCK, es + [ResumeEvent(R.Fold(es).state)])
  {
    StartedHistory();
    var round := ModelRoundStarted(0, 0, 0, 0);
    V.ValidateSnoc(ONE_BLOCK, STARTED, round);
    R.FoldSnoc(STARTED, round);
    V.ValidateSnoc(ONE_BLOCK, STARTED + [round], ResumeEvent(R.Fold(STARTED + [round]).state));
  }

  const FAILED_FINISH := BlockFinished(0, "final", Failed, false, NoGit)
  const PASSED := VerifierResult(0, "final_output", true, NoGit)
  const VERIFIED_FINISH := BlockFinished(0, "final", Complete, true, NoGit)
  const RESUMED_ACROSS_GAP := STARTED + [FAILED_FINISH] + [RunResumed(0, -1)]
  const RERUN_VERIFIED := RESUMED_ACROSS_GAP + [START] + [PASSED] + [VERIFIED_FINISH]

  lemma ResumedHistory()
    ensures V.Validate(ONE_BLOCK, RESUMED_ACROSS_GAP) == V.Accept(V.INITIAL)
    ensures R.Fold(RESUMED_ACROSS_GAP) == R.Resumable(R.INITIAL.(gap := true))
  {
    StartedHistory();
    V.ValidateSnoc(ONE_BLOCK, STARTED, FAILED_FINISH);
    V.ValidateSnoc(ONE_BLOCK, STARTED + [FAILED_FINISH], RunResumed(0, -1));
    R.FoldSnoc(STARTED, FAILED_FINISH);
    R.FoldSnoc(STARTED + [FAILED_FINISH], RunResumed(0, -1));
  }

  const VERIFYING := IN_BLOCK.(verifierPassed := map["final_output" := true],
                               verifierWorkspace := map["final_output" := NoGit])

  lemma VerifyingBlockFinishes()
    ensures V.Step(ONE_BLOCK, VERIFYING, 6, VERIFIED_FINISH) ==
            V.Accept(V.INITIAL.(completed := [0], nextExecution := 1, lastVerified := 6))
  {
    assert RequiredVerifiers(ONE_BLOCK.blocks[0]) == {"final_output"};
  }

  lemma RerunAccepted()
    ensures V.Validate(ONE_BLOCK, RERUN_VERIFIED) ==
            V.Accept(V.INITIAL.(completed := [0], nextExecution := 1, lastVerified := 6))
  {
    ResumedHistory();
    var h := RESUMED_ACROSS_GAP;
    V.ValidateSnoc(ONE_BLOCK, h, START);
    assert V.Validate(ONE_BLOCK, h + [START]) == V.Accept(IN_BLOCK);
    V.ValidateSnoc(ONE_BLOCK, h + [START], PASSED);
    assert V.Validate(ONE_BLOCK, h + [START] + [PASSED]) == V.Accept(VERIFYING);
    V.ValidateSnoc(ONE_BLOCK, h + [START] + [PASSED], VERIFIED_FINISH);
    VerifyingBlockFinishes();
  }

  lemma RerunRead()
    ensures R.Fold(RERUN_VERIFIED) == R.Resumable(R.INITIAL.(gap := true))
  {
    ResumedHistory();
    var h := RESUMED_ACROSS_GAP;
    R.FoldSnoc(h, START);
    R.FoldSnoc(h + [START], PASSED);
    R.FoldSnoc(h + [START] + [PASSED], VERIFIED_FINISH);
  }

  /** After a resume across a gap, a verified rerun of the block leaves the resume reading
      behind the validator for good: it calls the run resumable with numbers that the
      journal rejects, though nothing is in flight or unanswered. */
  lemma ResumeAcrossGapMisleads()
    ensures var es := RERUN_VERIFIED;
            && V.Accepted(ONE_BLOCK, es) && R.Fold(es).Resumable? && R.CanResume(R.Fold(es).state)
            && !RoundInFlight(es) && R.Fold(es).state.pendingIntents == map[]
            && !V.Accepted(ONE_BLOCK, es + [ResumeEvent(R.Fold(es).state)])
  {
    RerunAccepted();
    RerunRead();
    InFlightIsActive(ONE_BLOCK, RERUN_VERIFIED);
    V.ValidateSnoc(ONE_BLOCK, RERUN_VERIFIED, ResumeEvent(R.Fold(RERUN_VERIFIED).state));
  }
}
