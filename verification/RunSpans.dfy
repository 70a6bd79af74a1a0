/** What a verified `block_finished` proves about the block activation it closes. */
module RunSpans {
  import opened Options
  import opened RunEvents
  import V = RunValidator
  import opened RunAgreement
  import opened RunMutations

  /** A block started at position `b` and nothing has ended its activation since. */
  predicate OpenSpan(es: seq<Event>, b: nat) {
    && b < |es| && es[b].BlockStarted?
    && forall k | b < k < |es| :: !ActivationEdge(es[k])
  }

  lemma OpenSpanPrefix(es: seq<Event>, b: nat, n: nat)
    requires OpenSpan(es, b) && b < n <= |es|
    ensures OpenSpan(es[..n], b)
  {
  }

  lemma ActivationStep(c: Contract, s: V.State, index: nat, e: Event)
    requires V.Step(c, s, index, e).Accept?
    ensures e.BlockStarted? ==> V.Step(c, s, index, e).state.activeOrdinal == Some(e.ordinal)
    ensures !ActivationEdge(e) ==> V.Step(c, s, index, e).state.activeOrdinal == s.activeOrdinal
  {
  }

  /** While a span is open its block is the active one. */
  lemma {:induction false} SpanIsActive(c: Contract, es: seq<Event>, b: nat)
    requires V.Accepted(c, es) && OpenSpan(es, b)
    ensures V.StateOf(c, es).activeOrdinal == Some(es[b].ordinal)
    decreases |es|
  {
    var n := |es| - 1;
    ActivationAtLast(c, es);
    if b < n {
      OpenSpanPrefix(es, b, n);
      SpanIsActive(c, es[..n], b);
    }
  }

  lemma ActivationAtLast(c: Contract, es: seq<Event>)
    requires es != [] && V.Accepted(c, es)
    ensures var n := |es| - 1;
            && V.Accepted(c, es[..n])
            && (es[n].BlockStarted? ==> V.StateOf(c, es).activeOrdinal == Some(es[n].ordinal))
            && (!ActivationEdge(es[n]) ==> V.StateOf(c, es).activeOrdinal == V.StateOf(c, es[..n]).activeOrdinal)
  {
    var n := |es| - 1;
    V.PrefixAccepted(c, es, n);
    ActivationStep(c, V.StateOf(c, es[..n]), n, es[n]);
  }

  lemma ActiveStep(c: Contract, s: V.State, index: nat, e: Event)
    requires V.Step(c, s, index, e).Accept? && V.Step(c, s, index, e).state.activeOrdinal.Some?
    ensures if e.BlockStarted? then V.Step(c, s, index, e).state.activeOrdinal == Some(e.ordinal)
            else s.activeOrdinal == V.Step(c, s, index, e).state.activeOrdinal && !ActivationEdge(e)
  {
  }

  lemma OpenSpanSnoc(es: seq<Event>, b: nat)
    requires es != [] && OpenSpan(es[..|es| - 1], b) && !ActivationEdge(es[|es| - 1])
    ensures OpenSpan(es, b)
  {
    assert forall k | 0 <= k < |es| - 1 :: es[k] == es[..|es| - 1][k];
  }

  /** An active block always has an open span. */
  lemma {:induction false} ActiveHasSpan(c: Contract, es: seq<Event>) returns (b: nat)
    requires V.Accepted(c, es) && V.StateOf(c, es).activeOrdinal.Some?
    ensures OpenSpan(es, b) && es[b].ordinal == V.StateOf(c, es).activeOrdinal.value
  {
    var n := |es| - 1;
    ActiveStep(c, V.StateOf(c, es[..n]), n, es[n]);
    if es[n].BlockStarted? {
      b := n;
    } else {
      b := ActiveHasSpan(c, es[..n]);
      OpenSpanSnoc(es, b);
      assert es[b] == es[..n][b];
    }
  }

  // ---- Counting -------------------------------------------------------------------

  function Declared(es: seq<Event>, b: nat): nat {
    if |es| <= b then 0
    else
      var n := |es| - 1;
      Declared(es[..n], b) + if es[n].ModelRoundCompleted? then es[n].toolCallCount else 0
  }

  function Intents(es: seq<Event>, b: nat): nat {
    if |es| <= b then 0
    else Intents(es[..|es| - 1], b) + if es[|es| - 1].ToolIntent? then 1 else 0
  }

  function Results(es: seq<Event>, b: nat): nat {
    if |es| <= b then 0
    else Results(es[..|es| - 1], b) + if es[|es| - 1].ToolResult? then 1 else 0
  }

  function Undelivered(s: V.State): int {
    if s.openBatch.Some? then s.openBatch.value.expected - |s.openBatch.value.intents| else 0
  }

  /** How one event inside a span moves the undelivered and unanswered tool calls. */
  predicate Moves(s: V.State, s': V.State, e: Event) {
    && Undelivered(s') - Undelivered(s) ==
       (if e.ModelRoundCompleted? then e.toolCallCount else 0) - (if e.ToolIntent? then 1 else 0)
    && |s'.pendingIntents| - |s.pendingIntents| ==
       (if e.ToolIntent? then 1 else 0) - (if e.ToolResult? then 1 else 0)
  }

  lemma MovesResult(s: V.State, e: Event)
    requires Protocol(s) && e.ToolResult? && V.StepResult(s, e).Accept?
    ensures Moves(s, V.StepResult(s, e).state, e)
  {
    assert (s.pendingIntents - {e.stepId}).Keys == s.pendingIntents.Keys - {e.stepId};
  }

  lemma MovesRound(c: Contract, s: V.State, index: nat, e: Event)
    requires Protocol(s) && V.Step(c, s, index, e).Accept? && (e.ModelRoundStarted? || e.ModelRoundCompleted?)
    ensures Moves(s, V.Step(c, s, index, e).state, e)
  {
  }

  lemma MovesIntent(s: V.State, e: Event)
    requires Protocol(s) && e.ToolIntent? && V.StepIntent(s, e).Accept?
    ensures Moves(s, V.StepIntent(s, e).state, e)
  {
  }

  lemma MovesStep(c: Contract, s: V.State, index: nat, e: Event)
    requires Protocol(s) && V.Step(c, s, index, e).Accept? && !ActivationEdge(e)
    ensures Moves(s, V.Step(c, s, index, e).state, e)
  {
    if e.ToolResult? {
      MovesResult(s, e);
    } else if e.ToolIntent? {
      MovesIntent(s, e);
    } else if e.ModelRoundStarted? || e.ModelRoundCompleted? {
      MovesRound(c, s, index, e);
    }
  }

  predicate Counted(es: seq<Event>, b: nat, s: V.State) {
    && Declared(es, b) == Intents(es, b) + Undelivered(s)
    && Intents(es, b) == Results(es, b) + |s.pendingIntents|
  }

  lemma CountedSnoc(es: seq<Event>, b: nat, s: V.State, s': V.State)
    requires b < |es| - 1 && Counted(es[..|es| - 1], b, s) && Moves(s, s', es[|es| - 1])
    ensures Counted(es, b, s')
  {
  }

  lemma CountedStart(c: Contract, es: seq<Event>)
    requires es != [] && V.Accepted(c, es) && es[|es| - 1].BlockStarted?
    ensures Counted(es, |es| - 1, V.StateOf(c, es))
  {
  }

  lemma {:induction false} SpanCounts(c: Contract, es: seq<Event>, b: nat)
    requires V.Accepted(c, es) && OpenSpan(es, b)
    ensures Counted(es, b, V.StateOf(c, es))
    decreases |es|
  {
    var n := |es| - 1;
    if b < n {
      V.PrefixAccepted(c, es, n);
      OpenSpanPrefix(es, b, n);
      SpanCounts(c, es[..n], b);
      ShapeHolds(c, es[..n]);
      MovesStep(c, V.StateOf(c, es[..n]), n, es[n]);
      CountedSnoc(es, b, V.StateOf(c, es[..n]), V.StateOf(c, es));
    } else {
      CountedStart(c, es);
    }
  }

  // ---- Matching intents and results -----------------------------------------------

  predicate About(e: Event, step: StepId) {
    (e.ToolIntent? || e.ToolResult?) && e.stepId == step
  }

  predicate Quiet(es: seq<Event>, step: StepId, lo: nat, hi: nat) {
    forall k | lo < k < hi && k < |es| :: !About(es[k], step)
  }

  /** `q` is the result of the intent at `p`: the next thing the journal says of its step. */
  predicate Answers(es: seq<Event>, p: nat, q: nat) {
    && p < q < |es| && es[p].ToolIntent? && es[q].ToolResult?
    && es[p].stepId == es[q].stepId && Quiet(es, es[p].stepId, p, q)
  }

  /** No intent has two results and no result has two intents. */
  lemma AnswersIsOneToOne(es: seq<Event>, p: nat, q: nat, p': nat, q': nat)
    requires Answers(es, p, q) && Answers(es, p', q')
    ensures p == p' <==> q == q'
  {
    var step, step' := es[p].stepId, es[p'].stepId;
    assert About(es[p], step) && About(es[q], step) && About(es[p'], step') && About(es[q'], step');
  }

  lemma AnswersPrefix(es: seq<Event>, n: nat, p: nat, q: nat)
    requires n <= |es| && q < n
    ensures Answers(es[..n], p, q) <==> Answers(es, p, q)
  {
    if p < q {
      assert forall k | 0 <= k < n :: es[..n][k] == es[k];
    }
  }

  lemma PendingKeyStep(c: Contract, s: V.State, index: nat, e: Event, step: StepId)
    requires Protocol(s) && V.Step(c, s, index, e).Accept?
    ensures PendingKeyMoves(s, V.Step(c, s, index, e).state, e, step)
  {
  }

  predicate PendingKeyMoves(s: V.State, s': V.State, e: Event, step: StepId) {
    && (step in s'.pendingIntents <==> if About(e, step) then e.ToolIntent? else step in s.pendingIntents)
    && (e.BlockStarted? ==> step !in s'.pendingIntents)
    && (About(e, step) ==> (e.ToolResult? <==> step in s.pendingIntents))
  }

  lemma PendingKeyLast(c: Contract, es: seq<Event>, step: StepId)
    requires es != [] && V.Accepted(c, es)
    ensures V.Accepted(c, es[..|es| - 1])
    ensures PendingKeyMoves(V.StateOf(c, es[..|es| - 1]), V.StateOf(c, es), es[|es| - 1], step)
  {
    ShapeHolds(c, es[..|es| - 1]);
    PendingKeyStep(c, V.StateOf(c, es[..|es| - 1]), |es| - 1, es[|es| - 1], step);
  }

  /** `p` announced `step`, and the journal has not mentioned the step since. */
  predicate Announced(es: seq<Event>, b: nat, p: nat, step: StepId) {
    b < p < |es| && es[p].ToolIntent? && es[p].stepId == step && Quiet(es, step, p, |es|)
  }

  lemma AnnouncedSnoc(es: seq<Event>, b: nat, p: nat, step: StepId)
    requires es != [] && Announced(es[..|es| - 1], b, p, step)
    ensures if About(es[|es| - 1], step) then es[|es| - 1].ToolResult? ==> Answers(es, p, |es| - 1)
            else Announced(es, b, p, step)
  {
    assert forall k | 0 <= k < |es| - 1 :: es[..|es| - 1][k] == es[k];
  }

  /** A pending step was announced in this span and has not been mentioned since. */
  predicate PendingAnnounced(es: seq<Event>, b: nat, s: V.State, step: StepId) {
    step in s.pendingIntents ==> exists p | 0 <= p < |es| :: Announced(es, b, p, step)
  }

  lemma PendingAnnouncedSnoc(es: seq<Event>, b: nat, s: V.State, s': V.State, step: StepId)
    requires b < |es| - 1 && PendingAnnounced(es[..|es| - 1], b, s, step)
    requires PendingKeyMoves(s, s', es[|es| - 1], step)
    ensures PendingAnnounced(es, b, s', step)
  {
    var n := |es| - 1;
    if step in s'.pendingIntents {
      if About(es[n], step) {
        assert Announced(es, b, n, step);
      } else {
        var p :| 0 <= p < n && Announced(es[..n], b, p, step);
        AnnouncedSnoc(es, b, p, step);
      }
    }
  }

  lemma {:induction false} PendingHasIntent(c: Contract, es: seq<Event>, b: nat, step: StepId)
    requires V.Accepted(c, es) && OpenSpan(es, b)
    ensures PendingAnnounced(es, b, V.StateOf(c, es), step)
    decreases |es|
  {
    var n := |es| - 1;
    PendingKeyLast(c, es, step);
    if b < n {
      OpenSpanPrefix(es, b, n);
      PendingHasIntent(c, es[..n], b, step);
      PendingAnnouncedSnoc(es, b, V.StateOf(c, es[..n]), V.StateOf(c, es), step);
    }
  }

  predicate PendingOrAnswered(es: seq<Event>, b: nat, p: nat, s: V.State)
    requires p < |es| && es[p].ToolIntent?
  {
    || (es[p].stepId in s.pendingIntents && Announced(es, b, p, es[p].stepId))
    || exists q | p < q < |es| :: Answers(es, p, q)
  }

  lemma PendingOrAnsweredSnoc(es: seq<Event>, b: nat, p: nat, s: V.State, s': V.State)
    requires p < |es| - 1 && es[p].ToolIntent? && PendingOrAnswered(es[..|es| - 1], b, p, s)
    requires PendingKeyMoves(s, s', es[|es| - 1], es[p].stepId)
    ensures PendingOrAnswered(es, b, p, s')
  {
    var n := |es| - 1;
    assert es[..n][p] == es[p];
    if q :| p < q < n && Answers(es[..n], p, q) {
      AnswersPrefix(es, n, p, q);
    } else {
      AnnouncedSnoc(es, b, p, es[p].stepId);
    }
  }

  /** Every intent of an open span is pending, or has been answered. */
  lemma {:induction false} IntentPendingOrAnswered(c: Contract, es: seq<Event>, b: nat, p: nat)
    requires V.Accepted(c, es) && OpenSpan(es, b) && b < p < |es| && es[p].ToolIntent?
    ensures PendingOrAnswered(es, b, p, V.StateOf(c, es))
    decreases |es|
  {
    var n := |es| - 1;
    PendingKeyLast(c, es, es[p].stepId);
    if p < n {
      OpenSpanPrefix(es, b, n);
      IntentPendingOrAnswered(c, es[..n], b, p);
      PendingOrAnsweredSnoc(es, b, p, V.StateOf(c, es[..n]), V.StateOf(c, es));
    }
  }

  lemma ResultHasIntent(c: Contract, es: seq<Event>, b: nat, q: nat) returns (p: nat)
    requires V.Accepted(c, es) && OpenSpan(es, b) && b < q < |es| && es[q].ToolResult?
    ensures b < p && Answers(es, p, q)
  {
    V.StepAt(c, es, q);
    OpenSpanPrefix(es, b, q);
    PendingHasIntent(c, es[..q], b, es[q].stepId);
    p :| 0 <= p < q && Announced(es[..q], b, p, es[q].stepId);
    assert forall k | 0 <= k < q :: es[..q][k] == es[k];
  }

  // ---- Recovery brackets ----------------------------------------------------------

  /** A recovery was started in the span and had not finished just before position `p`. */
  predicate InRecovery(es: seq<Event>, b: nat, p: nat)
    requires p <= |es|
  {
    exists a | b < a < p :: es[a].RecoveryStarted? && forall k | a < k < p :: !es[k].RecoveryFinished?
  }

  lemma InRecoverySnoc(es: seq<Event>, b: nat, p: nat)
    requires b < p < |es|
    ensures InRecovery(es, b, p + 1) <==>
            es[p].RecoveryStarted? || (InRecovery(es, b, p) && !es[p].RecoveryFinished?)
  {
    if InRecovery(es, b, p + 1) && !es[p].RecoveryStarted? {
      var a :| b < a < p + 1 && es[a].RecoveryStarted? && forall k | a < k < p + 1 :: !es[k].RecoveryFinished?;
      assert a < p && es[a].RecoveryStarted?;
    }
    if InRecovery(es, b, p) && !es[p].RecoveryFinished? {
      var a :| b < a < p && es[a].RecoveryStarted? && forall k | a < k < p :: !es[k].RecoveryFinished?;
      assert es[a].RecoveryStarted?;
    }
  }

  lemma RecoveryStep(c: Contract, s: V.State, index: nat, e: Event)
    requires V.Step(c, s, index, e).Accept? && !ActivationEdge(e)
    ensures V.Step(c, s, index, e).state.recovery <==> e.RecoveryStarted? || (s.recovery && !e.RecoveryFinished?)
    ensures e.ModelRoundStarted? ==> (0 < e.attempt <==> s.recovery)
  {
  }

  lemma {:induction false} RecoveryIsBracketed(c: Contract, es: seq<Event>, b: nat, p: nat)
    requires V.Accepted(c, es) && OpenSpan(es, b) && b < p <= |es|
    ensures V.Accepted(c, es[..p]) && (V.StateOf(c, es[..p]).recovery <==> InRecovery(es, b, p))
    decreases p
  {
    V.PrefixAccepted(c, es, p);
    V.StepAt(c, es, p - 1);
    if b < p - 1 {
      RecoveryIsBracketed(c, es, b, p - 1);
      InRecoverySnoc(es, b, p - 1);
      RecoveryStep(c, V.StateOf(c, es[..p - 1]), p - 1, es[p - 1]);
    }
  }

  /** If a recovery is open before `p` and none is open before `q`, it finished in between. */
  lemma {:induction false} RecoveryCloses(es: seq<Event>, b: nat, p: nat, q: nat)
    requires b < p <= q <= |es| && InRecovery(es, b, p) && !InRecovery(es, b, q)
    ensures exists f | p <= f < q :: es[f].RecoveryFinished?
    decreases q - p
  {
    if p < q {
      InRecoverySnoc(es, b, p);
      if !es[p].RecoveryFinished? {
        RecoveryCloses(es, b, p + 1, q);
        var f :| p + 1 <= f < q && es[f].RecoveryFinished?;
        assert es[f].RecoveryFinished?;
      }
    }
  }

  // ---- Verifier evidence ----------------------------------------------------------

  /** Position `q` holds the latest result of `verifier` in the span. */
  predicate LatestResult(es: seq<Event>, b: nat, q: nat, verifier: string) {
    && b < q < |es| && es[q].VerifierResult? && es[q].verifier == verifier
    && forall k | q < k < |es| :: !(es[k].VerifierResult? && es[k].verifier == verifier)
  }

  /** What a recorded status and workspace say about the span so far. */
  predicate Evidence(es: seq<Event>, b: nat, s: V.State, verifier: string)
    requires b < |es| && es[b].BlockStarted?
  {
    verifier in s.verifierPassed ==>
      && verifier in s.verifierWorkspace
      && exists q | b < q < |es| ::
           && LatestResult(es, b, q, verifier) && es[q].ordinal == es[b].ordinal
           && es[q].passed == s.verifierPassed[verifier] && es[q].workspace == s.verifierWorkspace[verifier]
  }

  predicate VerifierMoves(s: V.State, s': V.State, e: Event, verifier: string) {
    if e.VerifierResult? && e.verifier == verifier then
      && verifier in s'.verifierPassed && s'.verifierPassed[verifier] == e.passed
      && verifier in s'.verifierWorkspace && s'.verifierWorkspace[verifier] == e.workspace
      && s.activeOrdinal == Some(e.ordinal)
    else
      verifier in s'.verifierPassed ==>
        && verifier in s.verifierPassed && s'.verifierPassed[verifier] == s.verifierPassed[verifier]
        && (verifier in s.verifierWorkspace ==>
              verifier in s'.verifierWorkspace && s'.verifierWorkspace[verifier] == s.verifierWorkspace[verifier])
  }

  lemma VerifierStep(c: Contract, s: V.State, index: nat, e: Event, verifier: string)
    requires V.Step(c, s, index, e).Accept?
    ensures VerifierMoves(s, V.Step(c, s, index, e).state, e, verifier)
    ensures e.BlockStarted? ==> verifier !in V.Step(c, s, index, e).state.verifierPassed
  {
  }

  lemma LatestResultSnoc(es: seq<Event>, b: nat, q: nat, verifier: string)
    requires es != [] && LatestResult(es[..|es| - 1], b, q, verifier)
    requires !(es[|es| - 1].VerifierResult? && es[|es| - 1].verifier == verifier)
    ensures LatestResult(es, b, q, verifier) && es[q] == es[..|es| - 1][q]
  {
    assert forall k | 0 <= k < |es| - 1 :: es[..|es| - 1][k] == es[k];
  }

  lemma EvidenceSnoc(es: seq<Event>, b: nat, s: V.State, s': V.State, verifier: string)
    requires b < |es| - 1 && es[b].BlockStarted? && Evidence(es[..|es| - 1], b, s, verifier)
    requires s.activeOrdinal == Some(es[b].ordinal) && VerifierMoves(s, s', es[|es| - 1], verifier)
    ensures Evidence(es, b, s', verifier)
  {
    var n := |es| - 1;
    assert es[..n][b] == es[b];
    if es[n].VerifierResult? && es[n].verifier == verifier {
      assert LatestResult(es, b, n, verifier);
    } else if verifier in s'.verifierPassed {
      var q :| b < q < n && LatestResult(es[..n], b, q, verifier) && es[..n][q].ordinal == es[b].ordinal
               && es[..n][q].passed == s.verifierPassed[verifier]
               && es[..n][q].workspace == s.verifierWorkspace[verifier];
      LatestResultSnoc(es, b, q, verifier);
    }
  }

  lemma {:induction false} EvidenceIsLatest(c: Contract, es: seq<Event>, b: nat, verifier: string)
    requires V.Accepted(c, es) && OpenSpan(es, b)
    ensures Evidence(es, b, V.StateOf(c, es), verifier)
    decreases |es|
  {
    var n := |es| - 1;
    V.PrefixAccepted(c, es, n);
    VerifierStep(c, V.StateOf(c, es[..n]), n, es[n], verifier);
    if b < n {
      OpenSpanPrefix(es, b, n);
      EvidenceIsLatest(c, es[..n], b, verifier);
      SpanIsActive(c, es[..n], b);
      EvidenceSnoc(es, b, V.StateOf(c, es[..n]), V.StateOf(c, es), verifier);
    }
  }

  // ---- The theorem ----------------------------------------------------------------

  /** Everything a verified finish at `j` certifies about the span opened at `b`. */
  ghost predicate Certified(c: Contract, es: seq<Event>, b: nat, j: nat)
    requires b < j < |es| && es[b].BlockStarted? && es[j].BlockFinished? && HasBlock(c, es[j].ordinal)
  {
    var span := es[..j];
    // as many results as intents as tool calls the model declared, matched one to one
    && Declared(span, b) == Intents(span, b) == Results(span, b)
    && (forall p | b < p < j && es[p].ToolIntent? :: exists q | p < q < j :: Answers(span, p, q))
    && (forall q | b < q < j && es[q].ToolResult? :: exists p | b < p < q :: Answers(span, p, q))
    // recovery rounds, and only they, lie inside a recovery bracket that closes before the finish
    && (forall p | b < p < j && es[p].ModelRoundStarted? ::
          && (0 < es[p].attempt <==> InRecovery(span, b, p))
          && (0 < es[p].attempt ==> exists f | p < f < j :: es[f].RecoveryFinished?))
    // the latest word of every required verifier is a pass on the finish event's workspace
    && (forall v | v in RequiredVerifiers(c.blocks[es[j].ordinal]) :: exists q | b < q < j ::
          && LatestResult(span, b, q, v) && es[q].ordinal == es[j].ordinal
          && es[q].passed && es[q].workspace == es[j].workspace)
  }

  /** The guard on a verified finish, as far as the span needs it. */
  lemma FinishGuard(c: Contract, s: V.State, index: nat, e: Event)
    requires Shape(s, index) && e.BlockFinished? && e.verified && V.Step(c, s, index, e).Accept?
    ensures s.activeOrdinal == Some(e.ordinal) && s.openBatch.None? && s.pendingIntents == map[] && !s.recovery
    ensures e.ordinal < |c.blocks| && e.status == Complete
    ensures V.VerifiersPassed(s, RequiredVerifiers(c.blocks[e.ordinal]))
    ensures V.VerifiersSaw(s, RequiredVerifiers(c.blocks[e.ordinal]), e.workspace)
  {
  }

  lemma CertifiedTools(c: Contract, span: seq<Event>, b: nat)
    requires V.Accepted(c, span) && OpenSpan(span, b)
    requires V.StateOf(c, span).openBatch.None? && V.StateOf(c, span).pendingIntents == map[]
    ensures Declared(span, b) == Intents(span, b) == Results(span, b)
    ensures forall p | b < p < |span| && span[p].ToolIntent? :: exists q | p < q < |span| :: Answers(span, p, q)
    ensures forall q | b < q < |span| && span[q].ToolResult? :: exists p | b < p < q :: Answers(span, p, q)
  {
    SpanCounts(c, span, b);
    forall p | b < p < |span| && span[p].ToolIntent?
      ensures exists q | p < q < |span| :: Answers(span, p, q)
    {
      IntentPendingOrAnswered(c, span, b, p);
    }
    forall q | b < q < |span| && span[q].ToolResult?
      ensures exists p | b < p < q :: Answers(span, p, q)
    {
      var p := ResultHasIntent(c, span, b, q);
    }
  }

  lemma RoundAttempt(c: Contract, es: seq<Event>, p: nat)
    requires V.Accepted(c, es) && p < |es| && es[p].ModelRoundStarted?
    ensures V.Accepted(c, es[..p]) && (0 < es[p].attempt <==> V.StateOf(c, es[..p]).recovery)
  {
    V.StepAt(c, es, p);
    RecoveryStep(c, V.StateOf(c, es[..p]), p, es[p]);
  }

  lemma CertifiedRound(c: Contract, span: seq<Event>, b: nat, p: nat)
    requires V.Accepted(c, span) && OpenSpan(span, b) && !V.StateOf(c, span).recovery
    requires b < p < |span| && span[p].ModelRoundStarted?
    ensures 0 < span[p].attempt <==> InRecovery(span, b, p)
    ensures 0 < span[p].attempt ==> exists f | p < f < |span| :: span[f].RecoveryFinished?
  {
    RoundAttempt(c, span, p);
    RecoveryIsBracketed(c, span, b, p);
    assert span[..|span|] == span;
    RecoveryIsBracketed(c, span, b, |span|);
    if 0 < span[p].attempt {
      RecoveryCloses(span, b, p, |span|);
    }
  }

  /** Every verified `block_finished` of an accepted history certifies its whole span. */
  lemma VerifiedFinishCertifies(c: Contract, es: seq<Event>, j: nat)
    requires V.Accepted(c, es) && PayloadsValid(c, es)
    requires j < |es| && es[j].BlockFinished? && es[j].verified
    ensures exists b | 0 <= b < j ::
              && es[b].BlockStarted? && es[b].ordinal == es[j].ordinal && FinishesActivation(es, b, j)
              && HasBlock(c, es[j].ordinal) && Certified(c, es, b, j)
  {
    V.StepAt(c, es, j);
    var span := es[..j];
    var s := V.StateOf(c, span);
    ShapeHolds(c, span);
    FinishGuard(c, s, j, es[j]);
    assert PayloadValid(c, j, es[j]);
    var b := ActiveHasSpan(c, span);
    assert forall k | 0 <= k < j :: span[k] == es[k];
    CertifiedTools(c, span, b);
    forall p | b < p < j && es[p].ModelRoundStarted?
      ensures 0 < es[p].attempt <==> InRecovery(span, b, p)
      ensures 0 < es[p].attempt ==> exists f | p < f < j :: es[f].RecoveryFinished?
    {
      CertifiedRound(c, span, b, p);
    }
    forall v | v in RequiredVerifiers(c.blocks[es[j].ordinal])
      ensures exists q | b < q < j ::
        && LatestResult(span, b, q, v) && es[q].ordinal == es[j].ordinal
        && es[q].passed && es[q].workspace == es[j].workspace
    {
      EvidenceIsLatest(c, span, b, v);
    }
    assert FinishesActivation(es, b, j) && Certified(c, es, b, j);
  }
}
