/** What an honest process writes is accepted: whole model rounds with their tool calls, and
    whole runs of a contract. */
module RunProgress {
  import opened Options
  import opened RunEvents
  import V = RunValidator
  import opened RunAgreement
  import opened RunGrammar

  datatype Call = Call(step: StepId, mutating: bool)

  predicate Distinct(calls: seq<Call>) {
    forall i, j | 0 <= i < j < |calls| :: calls[i].step != calls[j].step
  }

  function Steps(calls: seq<Call>): (steps: seq<StepId>)
    ensures |steps| == |calls| && forall i | 0 <= i < |calls| :: steps[i] == calls[i].step
  {
    seq(|calls|, i requires 0 <= i < |calls| => calls[i].step)
  }

  /** A round and its declared tool calls, of which `i` have been announced and `r` answered. */
  function Recorded(at: V.Round, tokens: nat, calls: seq<Call>, i: nat, r: nat): seq<Event>
    requires i <= |calls| && r <= |calls|
    decreases r, i
  {
    if r > 0 then Recorded(at, tokens, calls, i, r - 1) + [ToolResult(calls[r - 1].step)]
    else if i > 0 then
      Recorded(at, tokens, calls, i - 1, 0)
      + [ToolIntent(calls[i - 1].step, at.ordinal, at.round, at.attempt, i - 1, calls[i - 1].mutating)]
    else
      [ModelRoundStarted(at.ordinal, at.round, at.attempt, tokens),
       ModelRoundCompleted(at.ordinal, at.round, at.attempt, |calls|)]
  }

  /** What an open batch looks like on the way. */
  predicate Mid(s: V.State, at: V.Round, calls: seq<Call>, i: nat, r: nat)
    requires r <= i <= |calls|
  {
    var steps := Steps(calls);
    && s.activeOrdinal == Some(at.ordinal) && s.activeRound.None? && !s.terminal
    && s.openBatch == (if r == |calls| then None
                       else Some(V.Batch(at.ordinal, at.round, at.attempt, |calls|, steps[..i],
                                         V.Elements(steps[..r]), r > 0)))
    && s.pendingIntents.Keys == V.Elements(steps[..i]) - V.Elements(steps[..r])
  }

  lemma ElementsSnoc(steps: seq<StepId>, i: nat)
    requires i < |steps|
    ensures V.Elements(steps[..i + 1]) == V.Elements(steps[..i]) + {steps[i]}
  {
    assert steps[..i + 1] == steps[..i] + [steps[i]];
  }

  lemma MidIntent(s: V.State, at: V.Round, calls: seq<Call>, i: nat)
    requires i < |calls| && Distinct(calls) && Mid(s, at, calls, i, 0)
    ensures var e := ToolIntent(calls[i].step, at.ordinal, at.round, at.attempt, i, calls[i].mutating);
            && V.StepIntent(s, e).Accept? && Mid(V.StepIntent(s, e).state, at, calls, i + 1, 0)
            && V.StepIntent(s, e).state.recovery == s.recovery
  {
    var steps := Steps(calls);
    ElementsSnoc(steps, i);
    assert steps[..i + 1] == steps[..i] + [steps[i]];
    assert calls[i].step !in V.Elements(steps[..i]);
  }

  lemma MidResult(s: V.State, at: V.Round, calls: seq<Call>, r: nat)
    requires r < |calls| && Distinct(calls) && Mid(s, at, calls, |calls|, r)
    ensures var e := ToolResult(calls[r].step);
            && V.StepResult(s, e).Accept? && Mid(V.StepResult(s, e).state, at, calls, |calls|, r + 1)
            && V.StepResult(s, e).state.recovery == s.recovery
  {
    var steps := Steps(calls);
    ElementsSnoc(steps, r);
    assert steps[..|steps|] == steps && steps[r] in V.Elements(steps);
    assert calls[r].step !in V.Elements(steps[..r]);
    if r + 1 < |calls| {
      assert steps[r + 1] in V.Elements(steps) && steps[r + 1] !in V.Elements(steps[..r + 1]);
    }
  }

  /** The history is accepted and stands in the middle of a round. */
  predicate Standing(c: Contract, es: seq<Event>, at: V.Round, calls: seq<Call>, i: nat, r: nat, recovery: bool)
    requires r <= i <= |calls|
  {
    V.Accepted(c, es) && Mid(V.StateOf(c, es), at, calls, i, r) && V.StateOf(c, es).recovery == recovery
  }

  lemma IntentRecorded(c: Contract, es: seq<Event>, at: V.Round, calls: seq<Call>, i: nat, recovery: bool)
    requires es != [] && i < |calls| && Distinct(calls) && Standing(c, es, at, calls, i, 0, recovery)
    ensures var e := ToolIntent(calls[i].step, at.ordinal, at.round, at.attempt, i, calls[i].mutating);
            Standing(c, es + [e], at, calls, i + 1, 0, recovery)
  {
    MidIntent(V.StateOf(c, es), at, calls, i);
    V.ValidateSnoc(c, es, ToolIntent(calls[i].step, at.ordinal, at.round, at.attempt, i, calls[i].mutating));
  }

  lemma ResultRecorded(c: Contract, es: seq<Event>, at: V.Round, calls: seq<Call>, r: nat, recovery: bool)
    requires es != [] && r < |calls| && Distinct(calls) && Standing(c, es, at, calls, |calls|, r, recovery)
    ensures Standing(c, es + [ToolResult(calls[r].step)], at, calls, |calls|, r + 1, recovery)
  {
    MidResult(V.StateOf(c, es), at, calls, r);
    V.ValidateSnoc(c, es, ToolResult(calls[r].step));
  }

  /** Recording a round, step by step: whatever each intent and each result carries on holds
      at every point. */
  lemma {:induction false} Recording(es: seq<Event>, at: V.Round, tokens: nat, calls: seq<Call>, i: nat, r: nat,
                                     holds: (seq<Event>, nat, nat) -> bool)
    requires i <= |calls| && r <= |calls| && (r > 0 ==> i == |calls|)
    requires holds(es + Recorded(at, tokens, calls, 0, 0), 0, 0)
    requires forall h: seq<Event>, k: nat | k < |calls| && holds(h, k, 0) ::
               holds(h + [ToolIntent(calls[k].step, at.ordinal, at.round, at.attempt, k, calls[k].mutating)], k + 1, 0)
    requires forall h: seq<Event>, k: nat | k < |calls| && holds(h, |calls|, k) ::
               holds(h + [ToolResult(calls[k].step)], |calls|, k + 1)
    ensures holds(es + Recorded(at, tokens, calls, i, r), i, r)
    decreases r, i
  {
    var after := es + Recorded(at, tokens, calls, i, r);
    if r > 0 {
      var before := es + Recorded(at, tokens, calls, i, r - 1);
      Recording(es, at, tokens, calls, i, r - 1, holds);
      assert after == before + [ToolResult(calls[r - 1].step)];
    } else if i > 0 {
      var before := es + Recorded(at, tokens, calls, i - 1, 0);
      Recording(es, at, tokens, calls, i - 1, 0, holds);
      assert after ==
        before + [ToolIntent(calls[i - 1].step, at.ordinal, at.round, at.attempt, i - 1, calls[i - 1].mutating)];
    }
  }

  lemma RecordingIsAccepted(c: Contract, es: seq<Event>, at: V.Round, tokens: nat, calls: seq<Call>, recovery: bool)
    requires es != [] && Distinct(calls)
    requires Standing(c, es + Recorded(at, tokens, calls, 0, 0), at, calls, 0, 0, recovery)
    ensures Standing(c, es + Recorded(at, tokens, calls, |calls|, |calls|), at, calls, |calls|, |calls|, recovery)
  {
    var holds := (h: seq<Event>, i: nat, r: nat) =>
      h != [] && r <= i <= |calls| && Standing(c, h, at, calls, i, r, recovery);
    forall h: seq<Event>, k: nat | k < |calls| && holds(h, k, 0)
      ensures holds(h + [ToolIntent(calls[k].step, at.ordinal, at.round, at.attempt, k, calls[k].mutating)], k + 1, 0)
    {
      IntentRecorded(c, h, at, calls, k, recovery);
    }
    forall h: seq<Event>, k: nat | k < |calls| && holds(h, |calls|, k)
      ensures holds(h + [ToolResult(calls[k].step)], |calls|, k + 1)
    {
      ResultRecorded(c, h, at, calls, k, recovery);
    }
    Recording(es, at, tokens, calls, |calls|, |calls|, holds);
  }

  lemma RoundOpens(c: Contract, es: seq<Event>, at: V.Round, tokens: nat, calls: seq<Call>)
    requires es != [] && V.Accepted(c, es)
    requires InBlock(es, at.ordinal) && NothingOpen(es) && (0 < at.attempt <==> Recovering(es))
    ensures var after := es + Recorded(at, tokens, calls, 0, 0);
            Standing(c, after, at, calls, 0, 0, V.StateOf(c, es).recovery)
  {
    var started := ModelRoundStarted(at.ordinal, at.round, at.attempt, tokens);
    var completed := ModelRoundCompleted(at.ordinal, at.round, at.attempt, |calls|);
    assert es + Recorded(at, tokens, calls, 0, 0) == es + [started] + [completed];
    ObserveBlock(c, es, at.ordinal);
    ShapeHolds(c, es);
    ObserveProtocol(c, es);
    V.ValidateSnoc(c, es, started);
    V.ValidateSnoc(c, es + [started], completed);
    assert V.StateOf(c, es).pendingIntents.Keys == {};
    assert V.Elements(Steps(calls)[..0]) == {};
  }

  /** A round that declares k tool calls, announces k different steps in order and answers
      them is accepted, wherever a round may start; and the block can go on. */
  lemma RoundIsAccepted(c: Contract, es: seq<Event>, at: V.Round, tokens: nat, calls: seq<Call>)
    requires es != [] && V.Accepted(c, es) && Distinct(calls)
    requires InBlock(es, at.ordinal) && NothingOpen(es) && (0 < at.attempt <==> Recovering(es))
    ensures var after := es + Recorded(at, tokens, calls, |calls|, |calls|);
            && V.Accepted(c, after)
            && InBlock(after, at.ordinal) && NothingOpen(after) && AllAnswered(after)
            && (Recovering(after) <==> Recovering(es))
  {
    var after := es + Recorded(at, tokens, calls, |calls|, |calls|);
    RoundOpens(c, es, at, tokens, calls);
    RecordingIsAccepted(c, es, at, tokens, calls, V.StateOf(c, es).recovery);
    assert V.StateOf(c, after).pendingIntents.Keys == {};
    ObserveBlock(c, after, at.ordinal);
    ObserveProtocol(c, after);
    ObserveRecovery(c, es);
  }

  // ---- whole runs ---------------------------------------------------------------------------------

  /** The shortest verified execution of block `o`. */
  function BlockRun(c: Contract, o: nat, w: Workspace): seq<Event>
    requires o < |c.blocks|
  {
    Checked(c, o, w) + [BlockFinished(o, c.blocks[o].role, Complete, true, w)]
  }

  /** The first `n` blocks of the contract, one after the other. */
  function BlockRuns(c: Contract, n: nat, w: Workspace): (es: seq<Event>)
    requires n <= |c.blocks|
    ensures es != []
  {
    if n == 0 then [RunStarted] else BlockRuns(c, n - 1, w) + BlockRun(c, n - 1, w)
  }

  /** Between blocks, with `n` of them checkpointed. */
  predicate Between(s: V.State, n: nat, length: nat) {
    && s.activeOrdinal.None? && s.nextExecution == n && |s.completed| == n && !s.gap && !s.terminal
    && s.activeRound.None? && s.openBatch.None? && s.pendingIntents == map[]
    && s.lastVerified == if n == 0 then -1 else length - 1
  }

  lemma StartAndCheck(c: Contract, es: seq<Event>, o: nat, role: string, verifier: string, w: Workspace)
    requires es != [] && V.Accepted(c, es) && Between(V.StateOf(c, es), o, |es|)
    ensures var after := es + [BlockStarted(o, role)] + [VerifierResult(o, verifier, true, w)];
            && V.Accepted(c, after)
            && InCleanBlock(V.StateOf(c, after), o) && HasPassed(V.StateOf(c, after), verifier, w)
  {
    V.ValidateSnoc(c, es, BlockStarted(o, role));
    V.ValidateSnoc(c, es + [BlockStarted(o, role)], VerifierResult(o, verifier, true, w));
  }

  /** In block `o`, nothing open, every earlier block checkpointed. */
  predicate InCleanBlock(s: V.State, o: nat) {
    && s.activeOrdinal == Some(o) && |s.completed| == o && !s.gap && !s.terminal && !s.recovery
    && s.activeRound.None? && s.openBatch.None? && s.pendingIntents == map[]
  }

  lemma CheckAgain(c: Contract, es: seq<Event>, o: nat, verifier: string, other: string, w: Workspace)
    requires es != [] && V.Accepted(c, es) && InCleanBlock(V.StateOf(c, es), o)
    requires HasPassed(V.StateOf(c, es), other, w) && other != verifier
    ensures var after := es + [VerifierResult(o, verifier, true, w)];
            && V.Accepted(c, after) && InCleanBlock(V.StateOf(c, after), o)
            && HasPassed(V.StateOf(c, after), verifier, w) && HasPassed(V.StateOf(c, after), other, w)
  {
    V.ValidateSnoc(c, es, VerifierResult(o, verifier, true, w));
  }

  lemma FinishVerified(c: Contract, es: seq<Event>, o: nat, role: string, w: Workspace)
    requires o < |c.blocks| && es != [] && V.Accepted(c, es) && InCleanBlock(V.StateOf(c, es), o)
    requires forall v | v in RequiredVerifiers(c.blocks[o]) :: HasPassed(V.StateOf(c, es), v, w)
    ensures var after := es + [BlockFinished(o, role, Complete, true, w)];
            V.Accepted(c, after) && Between(V.StateOf(c, after), o + 1, |after|)
  {
    V.ValidateSnoc(c, es, BlockFinished(o, role, Complete, true, w));
  }

  /** Started and checked by every verifier it requires. */
  function Checked(c: Contract, o: nat, w: Workspace): seq<Event>
    requires o < |c.blocks|
  {
    var b := c.blocks[o];
    [BlockStarted(o, b.role), VerifierResult(o, if b.role == "final" then "final_output" else "block_output", true, w)]
    + if b.requiresChange then [VerifierResult(o, "post_mutation", true, w)] else []
  }

  lemma CheckedIsAccepted(c: Contract, es: seq<Event>, o: nat, w: Workspace)
    requires o < |c.blocks| && es != [] && V.Accepted(c, es) && Between(V.StateOf(c, es), o, |es|)
    ensures var after := es + Checked(c, o, w);
            && V.Accepted(c, after) && InCleanBlock(V.StateOf(c, after), o)
            && forall v | v in RequiredVerifiers(c.blocks[o]) :: HasPassed(V.StateOf(c, after), v, w)
  {
    var b := c.blocks[o];
    var output := if b.role == "final" then "final_output" else "block_output";
    StartAndCheck(c, es, o, b.role, output, w);
    var once := es + [BlockStarted(o, b.role)] + [VerifierResult(o, output, true, w)];
    if b.requiresChange {
      CheckAgain(c, once, o, "post_mutation", output, w);
      assert es + Checked(c, o, w) == once + [VerifierResult(o, "post_mutation", true, w)];
    } else {
      assert es + Checked(c, o, w) == once;
    }
  }

  lemma BlockRunIsAccepted(c: Contract, es: seq<Event>, o: nat, w: Workspace)
    requires o < |c.blocks| && Reached(c, es, o)
    ensures Reached(c, es + BlockRun(c, o, w), o + 1)
  {
    CheckedIsAccepted(c, es, o, w);
    var checked, end := es + Checked(c, o, w), BlockFinished(o, c.blocks[o].role, Complete, true, w);
    FinishVerified(c, checked, o, c.blocks[o].role, w);
    assert es + BlockRun(c, o, w) == checked + [end];
  }

  /** Accepted, and between blocks. */
  predicate Reached(c: Contract, es: seq<Event>, n: nat) {
    es != [] && V.Accepted(c, es) && Between(V.StateOf(c, es), n, |es|)
  }

  /** Block after block: whatever each block's run carries on holds after all of them. */
  lemma {:induction false} BlockByBlock(c: Contract, n: nat, w: Workspace, holds: (seq<Event>, nat) -> bool)
    requires n <= |c.blocks| && holds([RunStarted], 0)
    requires forall h: seq<Event>, o: nat | o < |c.blocks| && holds(h, o) :: holds(h + BlockRun(c, o, w), o + 1)
    ensures holds(BlockRuns(c, n, w), n)
  {
    if n > 0 {
      BlockByBlock(c, n - 1, w, holds);
    }
  }

  lemma StartIsReached(c: Contract)
    ensures Reached(c, [RunStarted], 0)
  {
    V.ValidateSnoc(c, [], RunStarted);
    assert [] + [RunStarted] == [RunStarted];
  }

  lemma BlockRunsAreAccepted(c: Contract, n: nat, w: Workspace)
    requires n <= |c.blocks|
    ensures Reached(c, BlockRuns(c, n, w), n)
  {
    var holds := (h: seq<Event>, o: nat) => Reached(c, h, o);
    StartIsReached(c);
    forall h: seq<Event>, o: nat | o < |c.blocks| && holds(h, o)
      ensures holds(h + BlockRun(c, o, w), o + 1)
    {
      BlockRunIsAccepted(c, h, o, w);
    }
    BlockByBlock(c, n, w, holds);
  }

  lemma PayloadsConcat(c: Contract, a: seq<Event>, b: seq<Event>)
    requires PayloadsValid(c, a) && forall i | 0 <= i < |b| :: PayloadValid(c, |a| + i, b[i])
    ensures PayloadsValid(c, a + b)
  {
  }

  lemma BlockRunIsValid(c: Contract, o: nat, w: Workspace, at: nat)
    requires o < |c.blocks| <= MAX_BLOCKS
    ensures forall i | 0 <= i < |BlockRun(c, o, w)| :: PayloadValid(c, at + i, BlockRun(c, o, w)[i])
  {
  }

  lemma {:induction false} BlockRunsAreValid(c: Contract, n: nat, w: Workspace)
    requires n <= |c.blocks| <= MAX_BLOCKS
    ensures PayloadsValid(c, BlockRuns(c, n, w))
  {
    if n > 0 {
      BlockRunsAreValid(c, n - 1, w);
      BlockRunIsValid(c, n - 1, w, |BlockRuns(c, n - 1, w)|);
      PayloadsConcat(c, BlockRuns(c, n - 1, w), BlockRun(c, n - 1, w));
    }
  }

  lemma EndIsAccepted(c: Contract, es: seq<Event>, n: nat, end: Event)
    requires Reached(c, es, n)
    requires end.RunFinished? && end.finalVerifiedSequence == if n == 0 then -1 else |es| - 1
    ensures V.Accepted(c, es + [end]) && |V.StateOf(c, es + [end]).completed| == n
  {
    V.ValidateSnoc(c, es, end);
  }

  function WholeRun(c: Contract, w: Workspace, status: Status): seq<Event> {
    var es := BlockRuns(c, |c.blocks|, w);
    es + [RunFinished(status, if c.blocks == [] then -1 else |es| - 1)]
  }

  /** Every contract can be run to the end: all its blocks in order, each with the verifiers
      it requires, and the terminal receipt. */
  lemma RunCompletes(c: Contract, w: Workspace, status: Status)
    ensures V.Accepted(c, WholeRun(c, w, status)) && |V.StateOf(c, WholeRun(c, w, status)).completed| == |c.blocks|
  {
    var n := |c.blocks|;
    var es := BlockRuns(c, n, w);
    BlockRunsAreAccepted(c, n, w);
    EndIsAccepted(c, es, n, RunFinished(status, if n == 0 then -1 else |es| - 1));
  }

  /** With at most 32 blocks its payloads are valid too. */
  lemma RunIsValid(c: Contract, w: Workspace, status: Status)
    requires |c.blocks| <= MAX_BLOCKS
    ensures PayloadsValid(c, WholeRun(c, w, status))
  {
    var es := BlockRuns(c, |c.blocks|, w);
    BlockRunsAreValid(c, |c.blocks|, w);
    PayloadsConcat(c, es, [RunFinished(status, if c.blocks == [] then -1 else |es| - 1)]);
  }

  // ---- payloads ---------------------------------------------------------------------------------------

  predicate NamesBlock(c: Contract, ordinal: nat) {
    ordinal < 32 && ordinal < |c.blocks|
  }

  predicate HasAttempt(e: Event) {
    e.RecoveryStarted? || e.RecoveryFinished? || e.ModelRoundStarted? || e.ModelRoundCompleted? || e.ToolIntent?
  }

  predicate HasRound(e: Event) {
    e.ModelRoundStarted? || e.ModelRoundCompleted? || e.ToolIntent?
  }

  /** What one event may say under a contract, property by property. */
  predicate Sayable(c: Contract, i: nat, e: Event) {
    && (e.BlockStarted? || e.BlockFinished? ==> NamesBlock(c, e.ordinal) && e.role == c.blocks[e.ordinal].role)
    && (HasAttempt(e) ==>
          NamesBlock(c, e.ordinal) && e.attempt <= 1 && e.attempt <= c.blocks[e.ordinal].maxRecoveryAttempts)
    && (e.RecoveryStarted? ==> e.recoveryCode in c.blocks[e.ordinal].recoveryCodes)
    && (HasRound(e) ==> e.round < 2048)
    && (e.ModelRoundCompleted? ==> e.toolCallCount <= 256) && (e.ToolIntent? ==> e.toolIndex < 256)
    && (e.VerifierResult? ==> e.ordinal < 32)
    && (e.RunResumed? ==> 0 <= e.nextBlockOrdinal <= 32 && -1 <= e.resumeVerifiedSequence < i)
    && (e.RunFinished? ==> -1 <= e.finalVerifiedSequence < i)
  }

  lemma PayloadsExactly(c: Contract, es: seq<Event>)
    ensures PayloadsValid(c, es) <==> forall i | 0 <= i < |es| :: Sayable(c, i, es[i])
  {
    forall i | 0 <= i < |es|
      ensures PayloadValid(c, i, es[i]) <==> Sayable(c, i, es[i])
    {
    }
  }
}
