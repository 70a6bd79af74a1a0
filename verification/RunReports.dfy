/** What the resume reading reports, position by position: for every history it can read, and
    more for those the validator accepts. */
module RunReports {
  import opened Options
  import opened RunEvents
  import V = RunValidator
  import R = RunResume
  import A = RunAgreement
  import opened RunMutations
  import opened RunSpans
  import opened RunGrammar

  // ---- counters -------------------------------------------------------------------------

  /** The positions that hold an event of kind `p`. */
  function Positions(es: seq<Event>, p: Kind): set<nat> {
    set i | 0 <= i < |es| && p(es[i])
  }

  lemma PositionsSnoc(es: seq<Event>, p: Kind)
    requires es != []
    ensures |Positions(es, p)| == |Positions(es[..|es| - 1], p)| + if p(es[|es| - 1]) then 1 else 0
  {
    var n := |es| - 1;
    assert Positions(es, p) == Positions(es[..n], p) + if p(es[n]) then {n} else {};
  }

  function Rounds(): Kind { (e: Event) => e.ModelRoundStarted? }
  function ToolIntents(): Kind { (e: Event) => e.ToolIntent? }
  function FinishedWith(status: Status): Kind { (e: Event) => e.RunFinished? && e.status == status }
  function IntentWith(step: StepId, mutating: bool): Kind {
    (e: Event) => e.ToolIntent? && e.stepId == step && e.mutating == mutating
  }

  function TokensUpTo(es: seq<Event>, n: nat): nat
    requires n <= |es|
  {
    if n == 0 then 0
    else TokensUpTo(es, n - 1) + if es[n - 1].ModelRoundStarted? then es[n - 1].promptTokens else 0
  }

  lemma {:induction false} TokensPrefix(es: seq<Event>, n: nat, m: nat)
    requires n <= m <= |es|
    ensures TokensUpTo(es[..m], n) == TokensUpTo(es, n)
  {
    if n > 0 {
      TokensPrefix(es, n - 1, m);
    }
  }

  lemma LastStep(es: seq<Event>)
    requires es != [] && R.Fold(es).Resumable?
    ensures R.Fold(es[..|es| - 1]).Resumable?
    ensures R.Step(R.Fold(es[..|es| - 1]).state, |es| - 1, es[|es| - 1]) == R.Fold(es)
  {
  }

  /** The statistics count what the journal holds. */
  lemma {:induction false} StatisticsAreCounts(es: seq<Event>)
    requires R.Fold(es).Resumable?
    ensures var r := R.Fold(es).state;
            && r.modelRounds == |Positions(es, Rounds())|
            && r.toolCalls == |Positions(es, ToolIntents())|
            && r.promptTokens == TokensUpTo(es, |es|)
  {
    if es != [] {
      var n := |es| - 1;
      LastStep(es);
      StatisticsAreCounts(es[..n]);
      PositionsSnoc(es, Rounds());
      PositionsSnoc(es, ToolIntents());
      TokensPrefix(es, n, n);
    }
  }

  /** The terminal status is that of the last `run_finished`. */
  lemma {:induction false} StatusIsLast(es: seq<Event>, status: Status)
    requires R.Fold(es).Resumable?
    ensures R.Fold(es).state.terminalStatus == Some(status) <==> Since(es, FinishedWith(status), Finish())
    ensures R.Fold(es).state.terminalStatus.Some? <==> Ended(es)
  {
    if es != [] {
      LastStep(es);
      StatusIsLast(es[..|es| - 1], status);
      SinceSnoc(es, FinishedWith(status), Finish());
      EndedSnoc(es);
    }
  }

  /** Pending intents, with what they said of mutation. */
  lemma {:induction false} PendingIsUnanswered(es: seq<Event>, step: StepId, mutating: bool)
    requires R.Fold(es).Resumable?
    ensures var pending := R.Fold(es).state.pendingIntents;
            && (step in pending <==> Unanswered(es, step))
            && (step in pending && pending[step] == mutating <==> Since(es, IntentWith(step, mutating), Mention(step)))
  {
    if es != [] {
      LastStep(es);
      PendingIsUnanswered(es[..|es| - 1], step, mutating);
      SinceSnoc(es, Intent(step), Mention(step));
      SinceSnoc(es, IntentWith(step, mutating), Mention(step));
    }
  }

  /** A mutating intent that was never answered is uncertain, checkpoint or not. */
  lemma UnansweredIsUncertain(es: seq<Event>, step: StepId)
    requires R.Fold(es).Resumable? && Since(es, IntentWith(step, true), Mention(step))
    ensures step in R.Uncertain(R.Fold(es).state) && !R.CanResume(R.Fold(es).state)
  {
    PendingIsUnanswered(es, step, true);
  }

  /** The verified boundary names a verified finish of the journal, and its workspace. */
  lemma {:induction false} BoundaryIsRecorded(es: seq<Event>)
    requires R.Fold(es).Resumable?
    ensures var r := R.Fold(es).state;
            && (r.lastVerified == -1 <==> r.lastWorkspace.None?) && (r.lastVerified == -1 <==> r.completed == [])
            && -1 <= r.lastVerified < |es|
            && (r.lastVerified >= 0 ==>
                  && R.VerifiedFinish(es[r.lastVerified])
                  && r.lastWorkspace == Some(es[r.lastVerified].workspace)
                  && |r.completed| == es[r.lastVerified].ordinal + 1)
            && forall i | 0 <= i < |r.completed| :: r.completed[i] == i
  {
    if es != [] {
      LastStep(es);
      BoundaryIsRecorded(es[..|es| - 1]);
    }
  }

  lemma CorruptStep(r: R.Resume, index: nat, e: Event)
    ensures R.Step(r, index, e).Corrupt? <==>
            || (e.ToolIntent? && e.stepId in r.pendingIntents)
            || (e.ToolResult? && e.stepId !in r.pendingIntents)
            || (R.VerifiedFinish(e) && e.ordinal < |r.completed|)
    ensures R.Step(r, index, e).Corrupt? ==>
              R.Step(r, index, e).reason == if e.ToolIntent? then R.IntentDuplicated
                                            else if e.ToolResult? then R.ResultWithoutIntent
                                            else R.CheckpointOutOfOrder
  {
  }

  /** Exactly what the reading calls corrupt. */
  lemma CorruptExactly(es: seq<Event>, e: Event)
    requires R.Fold(es).Resumable?
    ensures R.Fold(es + [e]).Corrupt? <==>
            || (e.ToolIntent? && Unanswered(es, e.stepId))
            || (e.ToolResult? && !Unanswered(es, e.stepId))
            || (R.VerifiedFinish(e) && e.ordinal < |R.Fold(es).state.completed|)
  {
    R.FoldSnoc(es, e);
    CorruptStep(R.Fold(es).state, |es|, e);
    if e.ToolIntent? || e.ToolResult? {
      PendingIsUnanswered(es, e.stepId, true);
    }
  }

  // ---- accepted histories -----------------------------------------------------------------

  /** A verified finish before which no finish was unverified, resumes or not. */
  predicate Unbroken(es: seq<Event>, j: nat) {
    && j < |es| && R.VerifiedFinish(es[j])
    && forall k | 0 <= k < j && es[k].BlockFinished? :: es[k].verified
  }

  predicate Broken(es: seq<Event>) {
    exists k | 0 <= k < |es| :: Unverified()(es[k])
  }

  lemma BrokenSnoc(es: seq<Event>)
    requires es != []
    ensures Broken(es) <==> Broken(es[..|es| - 1]) || Unverified()(es[|es| - 1])
    ensures Unbroken(es, |es| - 1) <==> R.VerifiedFinish(es[|es| - 1]) && !Broken(es[..|es| - 1])
  {
    var n := |es| - 1;
    var earlier := es[..n];
    assert forall k | 0 <= k < n :: earlier[k] == es[k];
    if k :| 0 <= k < n && Unverified()(earlier[k]) {
      assert Unverified()(es[k]);
    }
    if Broken(es) && !Unverified()(es[n]) {
      var k :| 0 <= k <= n && Unverified()(es[k]);
      assert Unverified()(earlier[k]);
    }
    if !Broken(earlier) {
      forall k | 0 <= k < n && es[k].BlockFinished?
        ensures es[k].verified
      {
        assert !Unverified()(earlier[k]);
      }
    }
  }

  lemma UnbrokenPrefix(es: seq<Event>, n: nat, j: nat)
    requires j < n <= |es|
    ensures Unbroken(es[..n], j) <==> Unbroken(es, j)
  {
    assert forall k | 0 <= k < n :: es[..n][k] == es[k];
  }

  /** What one event of an accepted history does to the reading. */
  lemma ReadingMoves(c: Contract, es: seq<Event>)
    requires es != [] && V.Accepted(c, es)
    ensures V.Accepted(c, es[..|es| - 1]) && R.Fold(es).Resumable? && R.Fold(es[..|es| - 1]).Resumable?
    ensures var r, r', e := R.Fold(es[..|es| - 1]).state, R.Fold(es).state, es[|es| - 1];
            && (r'.gap <==> r.gap || Unverified()(e))
            && (if R.VerifiedFinish(e) && !r.gap
                then r'.lastVerified == |es| - 1 && r'.mutationSteps == r.mutationSteps - {e.ordinal}
                else r'.lastVerified == r.lastVerified
                     && (!MutatingIntent(e) ==> r'.mutationSteps == r.mutationSteps))
  {
    A.Advance(c, es);
    var n := |es| - 1;
    A.ReadingHolds(c, es[..n]);
    A.ShapeHolds(c, es[..n]);
    LastStep(es);
    GapReading(c, V.StateOf(c, es[..n]), R.Fold(es[..n]).state, A.Crossed(c, es[..n]),
               A.CheckpointedAfterCrossing(c, es[..n]), n, es[n]);
  }

  lemma GapReading(c: Contract, v: V.State, r: R.Resume, crossed: bool, late: bool, index: nat, e: Event)
    requires A.Shape(v, index) && A.Reading(v, r, crossed, late) && V.Step(c, v, index, e).Accept?
    ensures R.Step(r, index, e).Resumable?
    ensures var r' := R.Step(r, index, e).state;
            && (r'.gap <==> r.gap || Unverified()(e))
            && (R.VerifiedFinish(e) && !r.gap ==>
                  r'.lastVerified == index && r'.mutationSteps == r.mutationSteps - {e.ordinal})
            && (!(R.VerifiedFinish(e) && !r.gap) ==>
                  r'.lastVerified == r.lastVerified && (!MutatingIntent(e) ==> r'.mutationSteps == r.mutationSteps))
  {
  }

  /** On every accepted history the reading's boundary is the last unbroken verified finish:
      it stops for good at the first finish that was not verified. */
  lemma {:induction false} BoundaryIsLastUnbroken(c: Contract, es: seq<Event>)
    requires V.Accepted(c, es)
    ensures R.Fold(es).Resumable?
    ensures var r := R.Fold(es).state;
            && (r.gap <==> Broken(es))
            && (r.lastVerified >= 0 ==> Unbroken(es, r.lastVerified))
            && forall j | 0 <= j < |es| && Unbroken(es, j) :: j <= r.lastVerified
  {
    if es != [] {
      var n := |es| - 1;
      ReadingMoves(c, es);
      BoundaryIsLastUnbroken(c, es[..n]);
      BrokenSnoc(es);
      forall j | 0 <= j < n
        ensures Unbroken(es[..n], j) <==> Unbroken(es, j)
      {
        UnbrokenPrefix(es, n, j);
      }
      BoundaryIsRecorded(es[..n]);
    }
  }

  /** A mutating intent that no unbroken verified finish of its ordinal has covered. */
  predicate Uncovered(es: seq<Event>, i: nat) {
    && i < |es| && MutatingIntent(es[i])
    && forall j | i < j < |es| :: !(Unbroken(es, j) && es[j].ordinal == es[i].ordinal)
  }

  lemma UncoveredSnoc(es: seq<Event>, i: nat)
    requires es != [] && i < |es| - 1
    ensures Uncovered(es, i) <==>
            && Uncovered(es[..|es| - 1], i)
            && !(Unbroken(es, |es| - 1) && es[|es| - 1].ordinal == es[i].ordinal)
  {
    var n := |es| - 1;
    forall j | 0 <= j < n
      ensures Unbroken(es[..n], j) <==> Unbroken(es, j)
    {
      UnbrokenPrefix(es, n, j);
    }
    assert forall k | 0 <= k < n :: es[..n][k] == es[k];
  }

  predicate ReadsStep(r: R.Resume, ordinal: nat, step: StepId) {
    ordinal in r.mutationSteps && step in r.mutationSteps[ordinal]
  }

  ghost predicate UncoveredStep(es: seq<Event>, ordinal: nat, step: StepId) {
    exists i | 0 <= i < |es| :: Uncovered(es, i) && es[i].ordinal == ordinal && es[i].stepId == step
  }

  lemma UncoveredStepSnoc(es: seq<Event>, ordinal: nat, step: StepId)
    requires es != []
    ensures var e := es[|es| - 1];
            UncoveredStep(es, ordinal, step) <==>
            || (MutatingIntent(e) && e.ordinal == ordinal && e.stepId == step)
            || (UncoveredStep(es[..|es| - 1], ordinal, step) && !(Unbroken(es, |es| - 1) && e.ordinal == ordinal))
  {
    var n := |es| - 1;
    var earlier := es[..n];
    if UncoveredStep(es, ordinal, step) {
      var i :| 0 <= i <= n && Uncovered(es, i) && es[i].ordinal == ordinal && es[i].stepId == step;
      if i < n {
        UncoveredSnoc(es, i);
        assert earlier[i] == es[i];
      }
    }
    if MutatingIntent(es[n]) && es[n].ordinal == ordinal && es[n].stepId == step {
      assert Uncovered(es, n);
    }
    if UncoveredStep(earlier, ordinal, step) && !(Unbroken(es, n) && es[n].ordinal == ordinal) {
      var i :| 0 <= i < n && Uncovered(earlier, i) && earlier[i].ordinal == ordinal && earlier[i].stepId == step;
      UncoveredSnoc(es, i);
      assert es[i] == earlier[i];
    }
  }

  /** The steps the reading calls uncertain are exactly the uncovered ones. */
  lemma {:induction false} ReadsExactlyUncovered(c: Contract, es: seq<Event>, ordinal: nat, step: StepId)
    requires V.Accepted(c, es)
    ensures R.Fold(es).Resumable? && (ReadsStep(R.Fold(es).state, ordinal, step) <==> UncoveredStep(es, ordinal, step))
  {
    if es != [] {
      var n := |es| - 1;
      ReadingMoves(c, es);
      ReadsExactlyUncovered(c, es[..n], ordinal, step);
      BoundaryIsLastUnbroken(c, es[..n]);
      BrokenSnoc(es);
      UncoveredStepSnoc(es, ordinal, step);
      LastStep(es);
      IntentIsRead(R.Fold(es[..n]).state, n, es[n], ordinal, step);
    }
  }

  lemma IntentIsRead(r: R.Resume, index: nat, e: Event, ordinal: nat, step: StepId)
    requires R.Step(r, index, e).Resumable?
    ensures MutatingIntent(e) ==>
              (ReadsStep(R.Step(r, index, e).state, ordinal, step) <==>
               ReadsStep(r, ordinal, step) || (e.ordinal == ordinal && e.stepId == step))
  {
  }

  // ---- checkpoints --------------------------------------------------------------------------

  /** A checkpoint tells the ordinal, sequence and workspace of a verified finish. */
  predicate Tells(es: seq<Event>, completed: seq<nat>, k: R.Checkpoint) {
    && k.sequence < |es| && R.VerifiedFinish(es[k.sequence]) && es[k.sequence].ordinal in completed
    && k.ordinal == es[k.sequence].ordinal && k.workspace == es[k.sequence].workspace
  }

  predicate Told(cs: seq<R.Checkpoint>, j: nat) {
    exists k | 0 <= k < |cs| :: cs[k].sequence == j
  }

  predicate AllTell(es: seq<Event>, completed: seq<nat>, cs: seq<R.Checkpoint>) {
    && (forall k | 0 <= k < |cs| :: Tells(es, completed, cs[k]))
    && (forall k, l | 0 <= k < l < |cs| :: cs[k].sequence < cs[l].sequence)
  }

  /** `verified_blocks` lists, in journal order, verified finishes of completed ordinals with
      their sequences and workspaces. */
  lemma {:induction false} CheckpointsTell(es: seq<Event>, completed: seq<nat>)
    ensures AllTell(es, completed, R.Checkpoints(es, completed))
  {
    if es != [] {
      var n := |es| - 1;
      var earlier := R.Checkpoints(es[..n], completed);
      CheckpointsTell(es[..n], completed);
      forall k | 0 <= k < |earlier|
        ensures Tells(es, completed, earlier[k]) && earlier[k].sequence < n
      {
        assert Tells(es[..n], completed, earlier[k]);
      }
    }
  }

  /** And it leaves none of them out. */
  lemma {:induction false} CheckpointsExactly(es: seq<Event>, completed: seq<nat>, j: nat)
    requires j < |es|
    ensures Told(R.Checkpoints(es, completed), j) <==> R.VerifiedFinish(es[j]) && es[j].ordinal in completed
    decreases |es|
  {
    var n := |es| - 1;
    var cs, earlier := R.Checkpoints(es, completed), R.Checkpoints(es[..n], completed);
    CheckpointsTell(es, completed);
    if R.VerifiedFinish(es[j]) && es[j].ordinal in completed {
      if j < n {
        CheckpointsExactly(es[..n], completed, j);
        var k :| 0 <= k < |earlier| && earlier[k].sequence == j;
        assert cs[k].sequence == j;
      } else {
        assert cs[|cs| - 1].sequence == j;
      }
    }
    if Told(cs, j) {
      var k :| 0 <= k < |cs| && cs[k].sequence == j;
      assert Tells(es, completed, cs[k]);
    }
  }
}
