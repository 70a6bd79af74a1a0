/** Accepted histories described by what they contain: for every event, a condition on the
    positions before it, with no state. */
module RunGrammar {
  import opened Options
  import opened RunEvents
  import V = RunValidator
  import opened RunAgreement
  import opened RunMutations
  import opened RunSpans

  type Kind = Event -> bool

  /** Something of kind `p` happened, and nothing of kind `q` since. */
  predicate Since(es: seq<Event>, p: Kind, q: Kind) {
    exists a | 0 <= a < |es| :: p(es[a]) && forall k | a < k < |es| :: !q(es[k])
  }

  lemma SinceSnoc(es: seq<Event>, p: Kind, q: Kind)
    requires es != []
    ensures Since(es, p, q) <==> p(es[|es| - 1]) || (Since(es[..|es| - 1], p, q) && !q(es[|es| - 1]))
  {
    var n := |es| - 1;
    var earlier := es[..n];
    if Since(es, p, q) && !p(es[n]) {
      var a :| 0 <= a <= n && p(es[a]) && forall k | a < k <= n :: !q(es[k]);
      assert p(earlier[a]) && forall k | a < k < n :: earlier[k] == es[k];
    }
    if Since(earlier, p, q) && !q(es[n]) {
      var a :| 0 <= a < n && p(earlier[a]) && forall k | a < k < n :: !q(earlier[k]);
      assert p(es[a]) && forall k | a < k < n :: earlier[k] == es[k];
    }
  }

  // ---- kinds of events ------------------------------------------------------------------

  function Never(): Kind { (e: Event) => false }
  function Edge(): Kind { (e: Event) => ActivationEdge(e) }
  function StartOf(ordinal: nat): Kind { (e: Event) => e.BlockStarted? && e.ordinal == ordinal }
  function Finish(): Kind { (e: Event) => e.RunFinished? }
  function RoundStart(ordinal: nat, round: nat, attempt: nat): Kind {
    (e: Event) => e.ModelRoundStarted? && e.ordinal == ordinal && e.round == round && e.attempt == attempt
  }
  function RoundEdge(): Kind { (e: Event) => e.ModelRoundStarted? || e.ModelRoundCompleted? }
  function Intent(step: StepId): Kind { (e: Event) => e.ToolIntent? && e.stepId == step }
  function Mention(step: StepId): Kind { (e: Event) => About(e, step) }
  function RecoveryStart(): Kind { (e: Event) => e.RecoveryStarted? }
  function RecoveryEdge(): Kind { (e: Event) => e.RecoveryFinished? || ActivationEdge(e) }
  function Pass(verifier: string, w: Workspace): Kind {
    (e: Event) => e.VerifierResult? && e.verifier == verifier && e.passed && e.workspace == w
  }
  function VerifierEdge(verifier: string): Kind {
    (e: Event) => (e.VerifierResult? && e.verifier == verifier) || ActivationEdge(e)
  }
  function Leads(ordinal: int): Kind {
    (e: Event) => (e.BlockFinished? && e.ordinal + 1 == ordinal) || (e.RunResumed? && e.nextBlockOrdinal == ordinal)
  }
  function CursorEdge(): Kind { (e: Event) => e.BlockFinished? || e.RunResumed? }
  function Unverified(): Kind { (e: Event) => e.BlockFinished? && !e.verified }
  function Resumption(): Kind { (e: Event) => e.RunResumed? }

  // ---- what a history says ----------------------------------------------------------------

  predicate Ended(es: seq<Event>) {
    exists i | 0 <= i < |es| :: es[i].RunFinished?
  }

  /** Block `ordinal` has started, and neither finished nor been abandoned by a resume. */
  predicate InBlock(es: seq<Event>, ordinal: nat) {
    Since(es, StartOf(ordinal), Edge())
  }

  predicate Idle(es: seq<Event>) {
    forall b | 0 <= b < |es| :: !OpenSpan(es, b)
  }

  /** This very round has started and not completed. */
  predicate InRound(es: seq<Event>, ordinal: nat, round: nat, attempt: nat) {
    Since(es, RoundStart(ordinal, round, attempt), RoundEdge())
  }

  /** Position `m` completed the latest model round of the active block. */
  predicate Current(es: seq<Event>, m: nat) {
    && m < |es| && es[m].ModelRoundCompleted?
    && forall k | m < k < |es| :: !es[k].ModelRoundStarted? && !es[k].ModelRoundCompleted? && !ActivationEdge(es[k])
  }

  /** Tool calls that the latest round declared still lack an intent or a result. */
  predicate Owing(es: seq<Event>) {
    exists m | 0 <= m < |es| :: Current(es, m) && Results(es, m) < es[m].toolCallCount
  }

  /** The step was announced and not mentioned since. */
  predicate Unanswered(es: seq<Event>, step: StepId) {
    Since(es, Intent(step), Mention(step))
  }

  predicate AllAnswered(es: seq<Event>) {
    forall p | 0 <= p < |es| && es[p].ToolIntent? :: !Unanswered(es, es[p].stepId)
  }

  predicate Recovering(es: seq<Event>) {
    Since(es, RecoveryStart(), RecoveryEdge())
  }

  /** The verifier's latest word in the active block is a pass on workspace `w`. */
  predicate PassedOn(es: seq<Event>, verifier: string, w: Workspace) {
    Since(es, Pass(verifier, w), VerifierEdge(verifier))
  }

  /** Where the next block starts: after the last finish, or where the last resume said. */
  predicate NextIs(es: seq<Event>, ordinal: int) {
    || Since(es, Leads(ordinal), CursorEdge())
    || (ordinal == 0 && forall k | 0 <= k < |es| :: !es[k].BlockFinished? && !es[k].RunResumed?)
  }

  /** A finish that extends the verified boundary: verified, and so was every finish since
      the last resume. */
  predicate Checkpointing(es: seq<Event>, j: nat) {
    && j < |es| && es[j].BlockFinished? && es[j].verified
    && !Since(es[..j], Unverified(), Resumption())
  }

  /** The boundary: the last checkpointing finish, and the ordinal after it. */
  predicate BoundaryIs(es: seq<Event>, next: int, last: int) {
    || (next == 0 && last == -1 && forall j | 0 <= j < |es| :: !Checkpointing(es, j))
    || (0 <= last < |es| && Checkpointing(es, last) && next == es[last].ordinal + 1
        && forall j | last < j < |es| :: !Checkpointing(es, j))
  }

  /** Every mutating intent lies in a block activation closed by a checkpointing finish. */
  predicate MutationsSettled(es: seq<Event>) {
    forall i | 0 <= i < |es| && MutatingIntent(es[i]) ::
      exists j | i < j < |es| :: FinishesActivation(es, i, j) && Checkpointing(es, j)
  }

  // ---- the grammar ----------------------------------------------------------------------------

  predicate NothingOpen(es: seq<Event>) {
    !RoundInFlight(es) && !Owing(es)
  }

  predicate AdmitsIntent(es: seq<Event>, e: Event)
    requires e.ToolIntent?
  {
    && !Unanswered(es, e.stepId)
    && exists m | 0 <= m < |es| ::
         && Current(es, m)
         && es[m].ordinal == e.ordinal && es[m].round == e.round && es[m].attempt == e.attempt
         && Results(es, m) == 0 && Intents(es, m) < es[m].toolCallCount && e.toolIndex == Intents(es, m)
  }

  /** The evidence a verified finish needs. */
  predicate Evidenced(c: Contract, es: seq<Event>, e: Event)
    requires e.BlockFinished?
  {
    && e.status == Complete && e.ordinal < |c.blocks|
    && PassedOn(es, if c.blocks[e.ordinal].role == "final" then "final_output" else "block_output", e.workspace)
    && (c.blocks[e.ordinal].requiresChange ==> PassedOn(es, "post_mutation", e.workspace))
  }

  /** May `e` come next after `es`? */
  ghost predicate Admits(c: Contract, es: seq<Event>, e: Event) {
    if e.RunStarted? then es == []
    else
      && es != [] && !Ended(es)
      && match e
         case RunStarted => true
         case RunResumed(next, last) =>
           BoundaryIs(es, next, last) && !RoundInFlight(es) && AllAnswered(es) && MutationsSettled(es)
         case ContextBound => Idle(es)
         case BlockStarted(ordinal, _) => Idle(es) && NextIs(es, ordinal)
         case ModelRoundStarted(ordinal, _, attempt, _) =>
           InBlock(es, ordinal) && NothingOpen(es) && (0 < attempt <==> Recovering(es))
         case ModelRoundCompleted(ordinal, round, attempt, _) => InRound(es, ordinal, round, attempt)
         case ToolIntent(_, _, _, _, _, _) => AdmitsIntent(es, e)
         case ToolResult(step) => Unanswered(es, step)
         case RecoveryStarted(ordinal, _, _) => InBlock(es, ordinal) && !Recovering(es) && NothingOpen(es)
         case RecoveryFinished(ordinal, _, _) => InBlock(es, ordinal) && Recovering(es) && NothingOpen(es)
         case VerifierResult(ordinal, _, _, _) => InBlock(es, ordinal) && !RoundInFlight(es) && AllAnswered(es)
         case BlockFinished(ordinal, _, status, verified, _) =>
           && InBlock(es, ordinal) && !RoundInFlight(es) && AllAnswered(es) && !Recovering(es)
           && (verified || status == Complete ==> !Owing(es))
           && (verified ==> Evidenced(c, es, e))
         case RunFinished(_, last) => Idle(es) && exists next: nat :: BoundaryIs(es, next, last)
  }

  // ---- the validator's state, observed --------------------------------------------------------

  lemma {:induction false} ObserveEnd(c: Contract, es: seq<Event>)
    requires V.Accepted(c, es)
    ensures V.StateOf(c, es).terminal <==> Ended(es)
  {
    if es != [] {
      var n := |es| - 1;
      ObserveEnd(c, es[..n]);
      EndStep(c, V.StateOf(c, es[..n]), n, es[n]);
      EndedSnoc(es);
    }
  }

  lemma EndStep(c: Contract, s: V.State, index: nat, e: Event)
    requires V.Step(c, s, index, e).Accept?
    ensures !s.terminal && (V.Step(c, s, index, e).state.terminal <==> e.RunFinished?)
  {
  }

  lemma EndedSnoc(es: seq<Event>)
    requires es != []
    ensures Ended(es) <==> Ended(es[..|es| - 1]) || es[|es| - 1].RunFinished?
  {
    var earlier := es[..|es| - 1];
    if i :| 0 <= i < |earlier| && earlier[i].RunFinished? {
      assert es[i].RunFinished?;
    }
  }

  lemma {:induction false} ObserveBlock(c: Contract, es: seq<Event>, ordinal: nat)
    requires V.Accepted(c, es)
    ensures V.StateOf(c, es).activeOrdinal == Some(ordinal) <==> InBlock(es, ordinal)
  {
    if es != [] {
      var n := |es| - 1;
      ObserveBlock(c, es[..n], ordinal);
      BlockStep(c, V.StateOf(c, es[..n]), n, es[n], ordinal);
      SinceSnoc(es, StartOf(ordinal), Edge());
    }
  }

  lemma BlockStep(c: Contract, s: V.State, index: nat, e: Event, ordinal: nat)
    requires V.Step(c, s, index, e).Accept?
    ensures V.Step(c, s, index, e).state.activeOrdinal == Some(ordinal) <==>
            StartOf(ordinal)(e) || (s.activeOrdinal == Some(ordinal) && !Edge()(e))
  {
  }

  lemma ObserveIdle(c: Contract, es: seq<Event>)
    requires V.Accepted(c, es)
    ensures V.StateOf(c, es).activeOrdinal.None? <==> Idle(es)
  {
    if V.StateOf(c, es).activeOrdinal.Some? {
      var b := ActiveHasSpan(c, es);
    } else {
      forall b | 0 <= b < |es|
        ensures !OpenSpan(es, b)
      {
        if OpenSpan(es, b) {
          SpanIsActive(c, es, b);
        }
      }
    }
  }

  lemma {:induction false} ObserveRound(c: Contract, es: seq<Event>, ordinal: nat, round: nat, attempt: nat)
    requires V.Accepted(c, es)
    ensures V.StateOf(c, es).activeRound == Some(V.Round(ordinal, round, attempt)) <==>
            InRound(es, ordinal, round, attempt)
  {
    if es != [] {
      var n := |es| - 1;
      ObserveRound(c, es[..n], ordinal, round, attempt);
      ShapeHolds(c, es[..n]);
      RoundStep(c, V.StateOf(c, es[..n]), n, es[n], ordinal, round, attempt);
      SinceSnoc(es, RoundStart(ordinal, round, attempt), RoundEdge());
    }
  }

  lemma RoundStep(c: Contract, s: V.State, index: nat, e: Event, ordinal: nat, round: nat, attempt: nat)
    requires Protocol(s) && V.Step(c, s, index, e).Accept?
    ensures V.Step(c, s, index, e).state.activeRound == Some(V.Round(ordinal, round, attempt)) <==>
            || RoundStart(ordinal, round, attempt)(e)
            || (s.activeRound == Some(V.Round(ordinal, round, attempt)) && !RoundEdge()(e))
  {
  }

  lemma {:induction false} ObserveIntent(c: Contract, es: seq<Event>, step: StepId)
    requires V.Accepted(c, es)
    ensures step in V.StateOf(c, es).pendingIntents <==> Unanswered(es, step)
  {
    if es != [] {
      PendingKeyLast(c, es, step);
      ObserveIntent(c, es[..|es| - 1], step);
      SinceSnoc(es, Intent(step), Mention(step));
    }
  }

  lemma ObserveAnswers(c: Contract, es: seq<Event>)
    requires V.Accepted(c, es)
    ensures V.StateOf(c, es).pendingIntents == map[] <==> AllAnswered(es)
  {
    var s := V.StateOf(c, es);
    if step :| step in s.pendingIntents {
      ObserveIntent(c, es, step);
      var p :| 0 <= p < |es| && Intent(step)(es[p]) && forall k | p < k < |es| :: !Mention(step)(es[k]);
      assert es[p].ToolIntent? && Unanswered(es, es[p].stepId);
    } else {
      forall p | 0 <= p < |es| && es[p].ToolIntent?
        ensures !Unanswered(es, es[p].stepId)
      {
        ObserveIntent(c, es, es[p].stepId);
      }
    }
  }

  lemma {:induction false} ObserveRecovery(c: Contract, es: seq<Event>)
    requires V.Accepted(c, es)
    ensures V.StateOf(c, es).recovery <==> Recovering(es)
  {
    if es != [] {
      var n := |es| - 1;
      ObserveRecovery(c, es[..n]);
      RecoveryFlagStep(c, V.StateOf(c, es[..n]), n, es[n]);
      SinceSnoc(es, RecoveryStart(), RecoveryEdge());
    }
  }

  lemma RecoveryFlagStep(c: Contract, s: V.State, index: nat, e: Event)
    requires V.Step(c, s, index, e).Accept?
    ensures V.Step(c, s, index, e).state.recovery <==> RecoveryStart()(e) || (s.recovery && !RecoveryEdge()(e))
  {
  }

  predicate HasPassed(s: V.State, verifier: string, w: Workspace) {
    && verifier in s.verifierPassed && s.verifierPassed[verifier]
    && verifier in s.verifierWorkspace && s.verifierWorkspace[verifier] == w
  }

  lemma {:induction false} ObserveVerifier(c: Contract, es: seq<Event>, verifier: string, w: Workspace)
    requires V.Accepted(c, es)
    ensures HasPassed(V.StateOf(c, es), verifier, w) <==> PassedOn(es, verifier, w)
  {
    if es != [] {
      var n := |es| - 1;
      ObserveVerifier(c, es[..n], verifier, w);
      PassStep(c, V.StateOf(c, es[..n]), n, es[n], verifier, w);
      SinceSnoc(es, Pass(verifier, w), VerifierEdge(verifier));
    }
  }

  lemma PassStep(c: Contract, s: V.State, index: nat, e: Event, verifier: string, w: Workspace)
    requires V.Step(c, s, index, e).Accept?
    ensures HasPassed(V.Step(c, s, index, e).state, verifier, w) <==>
            Pass(verifier, w)(e) || (HasPassed(s, verifier, w) && !VerifierEdge(verifier)(e))
  {
  }

  lemma {:induction false} ObserveCursor(c: Contract, es: seq<Event>, ordinal: int)
    requires V.Accepted(c, es)
    ensures V.StateOf(c, es).nextExecution == ordinal <==> NextIs(es, ordinal)
  {
    if es != [] {
      var n := |es| - 1;
      ObserveCursor(c, es[..n], ordinal);
      CursorMoves(c, V.StateOf(c, es[..n]), n, es[n], ordinal);
      SinceSnoc(es, Leads(ordinal), CursorEdge());
      assert forall k | 0 <= k < n :: es[..n][k] == es[k];
    }
  }

  lemma CursorMoves(c: Contract, s: V.State, index: nat, e: Event, ordinal: int)
    requires V.Step(c, s, index, e).Accept?
    ensures V.Step(c, s, index, e).state.nextExecution == ordinal <==>
            if CursorEdge()(e) then Leads(ordinal)(e) else s.nextExecution == ordinal
  {
  }

  lemma {:induction false} ObserveGap(c: Contract, es: seq<Event>)
    requires V.Accepted(c, es)
    ensures V.StateOf(c, es).gap <==> Since(es, Unverified(), Resumption())
  {
    if es != [] {
      var n := |es| - 1;
      ObserveGap(c, es[..n]);
      ShapeHolds(c, es[..n]);
      GapStep(c, V.StateOf(c, es[..n]), n, es[n]);
      SinceSnoc(es, Unverified(), Resumption());
    }
  }

  lemma GapStep(c: Contract, s: V.State, index: nat, e: Event)
    requires Boundary(s, index) && V.Step(c, s, index, e).Accept?
    ensures V.Step(c, s, index, e).state.gap <==> Unverified()(e) || (s.gap && !Resumption()(e))
  {
  }

  // ---- the verified boundary --------------------------------------------------------------------

  lemma CheckpointingPrefix(es: seq<Event>, n: nat, j: nat)
    requires j < n <= |es|
    ensures Checkpointing(es[..n], j) == Checkpointing(es, j)
  {
    assert es[..n][..j] == es[..j];
  }

  lemma BoundaryMoves(c: Contract, s: V.State, index: nat, e: Event)
    requires Boundary(s, index) && V.Step(c, s, index, e).Accept?
    ensures var s' := V.Step(c, s, index, e).state;
            if e.BlockFinished? && e.verified && !s.gap
            then |s'.completed| == e.ordinal + 1 && s'.lastVerified == index
            else |s'.completed| == |s.completed| && s'.lastVerified == s.lastVerified
  {
  }

  lemma BoundarySnoc(es: seq<Event>, next: int, last: int)
    requires es != [] && BoundaryIs(es[..|es| - 1], next, last)
    ensures var n := |es| - 1;
            if Checkpointing(es, n) then BoundaryIs(es, es[n].ordinal + 1, n) else BoundaryIs(es, next, last)
  {
    var n := |es| - 1;
    forall j | 0 <= j < n
      ensures Checkpointing(es[..n], j) == Checkpointing(es, j)
    {
      CheckpointingPrefix(es, n, j);
    }
  }

  lemma {:induction false} ObserveBoundary(c: Contract, es: seq<Event>)
    requires V.Accepted(c, es)
    ensures BoundaryIs(es, |V.StateOf(c, es).completed|, V.StateOf(c, es).lastVerified)
  {
    if es != [] {
      var n := |es| - 1;
      var s := V.StateOf(c, es[..n]);
      ObserveBoundary(c, es[..n]);
      ObserveGap(c, es[..n]);
      ShapeHolds(c, es[..n]);
      BoundaryMoves(c, s, n, es[n]);
      BoundarySnoc(es, |s.completed|, s.lastVerified);
    }
  }

  lemma BoundaryUnique(es: seq<Event>, next: int, last: int, next': int, last': int)
    requires BoundaryIs(es, next, last) && BoundaryIs(es, next', last')
    ensures next == next' && last == last'
  {
  }

  lemma BoundaryExactly(c: Contract, es: seq<Event>, next: int, last: int)
    requires V.Accepted(c, es)
    ensures BoundaryIs(es, next, last) <==>
            next == |V.StateOf(c, es).completed| && last == V.StateOf(c, es).lastVerified
  {
    ObserveBoundary(c, es);
    if BoundaryIs(es, next, last) {
      BoundaryUnique(es, next, last, |V.StateOf(c, es).completed|, V.StateOf(c, es).lastVerified);
    }
  }

  // ---- the open batch -----------------------------------------------------------------------------

  lemma {:induction false} DistinctElements(s: seq<StepId>)
    requires forall i, j | 0 <= i < j < |s| :: s[i] != s[j]
    ensures |V.Elements(s)| == |s|
  {
    if s != [] {
      var n := |s| - 1;
      DistinctElements(s[..n]);
      assert V.Elements(s) == V.Elements(s[..n]) + {s[n]};
    }
  }

  lemma SubsetOfSize<T>(a: set<T>, b: set<T>)
    requires a <= b
    ensures |a| <= |b| && (|a| == |b| ==> a == b)
  {
    assert b == a + (b - a);
  }

  /** What an open batch's counters are after one more event. */
  predicate BatchMoves(s: V.State, s': V.State, e: Event) {
    if s.openBatch.None? then s'.openBatch.None? && !e.ToolIntent? && !e.ToolResult?
    else
      var b := s.openBatch.value;
      var intents := |b.intents| + if e.ToolIntent? then 1 else 0;
      var results := |b.results| + if e.ToolResult? then 1 else 0;
      && results <= intents <= b.expected
      && (s'.openBatch.Some? <==> results < b.expected)
      && (s'.openBatch.Some? ==>
            var b' := s'.openBatch.value;
            && b'.ordinal == b.ordinal && b'.round == b.round && b'.attempt == b.attempt && b'.expected == b.expected
            && |b'.intents| == intents && |b'.results| == results
            && (b'.resultsStarted <==> b.resultsStarted || e.ToolResult?))
  }

  lemma BatchResult(s: V.State, e: Event)
    requires Protocol(s) && e.ToolResult? && V.StepResult(s, e).Accept?
    ensures BatchMoves(s, V.StepResult(s, e).state, e)
  {
    var b := s.openBatch.value;
    var all, results := V.Elements(b.intents), b.results + {e.stepId};
    DistinctElements(b.intents);
    assert e.stepId in all && e.stepId !in b.results;
    SubsetOfSize(results, all);
  }

  lemma BatchStays(c: Contract, s: V.State, index: nat, e: Event)
    requires Protocol(s) && V.Step(c, s, index, e).Accept? && !RoundEdge()(e) && !ActivationEdge(e)
    requires !e.ToolResult?
    ensures BatchMoves(s, V.Step(c, s, index, e).state, e)
  {
    if s.openBatch.Some? {
      var b := s.openBatch.value;
      DistinctElements(b.intents);
      SubsetOfSize(b.results, V.Elements(b.intents));
    }
  }

  lemma BatchStep(c: Contract, s: V.State, index: nat, e: Event)
    requires Protocol(s) && V.Step(c, s, index, e).Accept? && !RoundEdge()(e) && !ActivationEdge(e)
    ensures BatchMoves(s, V.Step(c, s, index, e).state, e)
  {
    if e.ToolResult? {
      BatchResult(s, e);
    } else {
      BatchStays(c, s, index, e);
    }
  }

  /** The open batch is what the round completed at `m` declared, as far as it was recorded. */
  predicate BatchIs(es: seq<Event>, m: nat, batch: Option<V.Batch>)
    requires m < |es| && es[m].ModelRoundCompleted?
  {
    && Results(es, m) <= Intents(es, m) <= es[m].toolCallCount
    && (batch.Some? <==> Results(es, m) < es[m].toolCallCount)
    && (batch.Some? ==>
          var b := batch.value;
          && b.ordinal == es[m].ordinal && b.round == es[m].round && b.attempt == es[m].attempt
          && b.expected == es[m].toolCallCount && |b.intents| == Intents(es, m) && |b.results| == Results(es, m)
          && (b.resultsStarted <==> 0 < Results(es, m)))
  }

  lemma BatchSnoc(es: seq<Event>, m: nat, s: V.State, s': V.State)
    requires m < |es| - 1 && es[m].ModelRoundCompleted? && BatchIs(es[..|es| - 1], m, s.openBatch)
    requires BatchMoves(s, s', es[|es| - 1])
    ensures BatchIs(es, m, s'.openBatch)
  {
  }

  lemma BatchOpens(c: Contract, es: seq<Event>)
    requires es != [] && V.Accepted(c, es) && es[|es| - 1].ModelRoundCompleted?
    ensures BatchIs(es, |es| - 1, V.StateOf(c, es).openBatch)
  {
    var m := |es| - 1;
    assert Intents(es[..m], m) == 0 && Results(es[..m], m) == 0;
  }

  lemma {:induction false} ObserveBatch(c: Contract, es: seq<Event>, m: nat)
    requires V.Accepted(c, es) && Current(es, m)
    ensures BatchIs(es, m, V.StateOf(c, es).openBatch)
    decreases |es|
  {
    var n := |es| - 1;
    if m == n {
      BatchOpens(c, es);
    } else {
      V.PrefixAccepted(c, es, n);
      assert Current(es[..n], m);
      ObserveBatch(c, es[..n], m);
      ShapeHolds(c, es[..n]);
      BatchStep(c, V.StateOf(c, es[..n]), n, es[n]);
      BatchSnoc(es, m, V.StateOf(c, es[..n]), V.StateOf(c, es));
    }
  }

  lemma BatchOrigin(c: Contract, s: V.State, index: nat, e: Event)
    requires V.Step(c, s, index, e).Accept? && V.Step(c, s, index, e).state.openBatch.Some?
    ensures e.ModelRoundCompleted? || (s.openBatch.Some? && !e.ModelRoundStarted? && !ActivationEdge(e))
  {
  }

  lemma {:induction false} BatchHasRound(c: Contract, es: seq<Event>) returns (m: nat)
    requires V.Accepted(c, es) && V.StateOf(c, es).openBatch.Some?
    ensures Current(es, m)
  {
    var n := |es| - 1;
    BatchOrigin(c, V.StateOf(c, es[..n]), n, es[n]);
    if es[n].ModelRoundCompleted? {
      m := n;
    } else {
      m := BatchHasRound(c, es[..n]);
      assert forall k | 0 <= k < n :: es[..n][k] == es[k];
    }
  }

  lemma CurrentUnique(es: seq<Event>, m: nat, m': nat)
    requires Current(es, m) && Current(es, m')
    ensures m == m'
  {
  }

  lemma ObserveOwing(c: Contract, es: seq<Event>)
    requires V.Accepted(c, es)
    ensures V.BatchClosed(V.StateOf(c, es).openBatch) <==> !Owing(es)
    ensures V.StateOf(c, es).openBatch.Some? <==> Owing(es)
  {
    ShapeHolds(c, es);
    if V.StateOf(c, es).openBatch.Some? {
      var m := BatchHasRound(c, es);
      ObserveBatch(c, es, m);
    }
    if Owing(es) {
      var m :| 0 <= m < |es| && Current(es, m) && Results(es, m) < es[m].toolCallCount;
      ObserveBatch(c, es, m);
    }
  }

  // ---- mutating intents -----------------------------------------------------------------------------

  predicate Unsettled(es: seq<Event>, i: nat) {
    && i < |es| && MutatingIntent(es[i])
    && forall j | i < j < |es| :: !(FinishesActivation(es, i, j) && Checkpointing(es, j))
  }

  lemma UnsettledSnoc(es: seq<Event>, i: nat)
    requires es != [] && Unsettled(es[..|es| - 1], i)
    requires !(FinishesActivation(es, i, |es| - 1) && Checkpointing(es, |es| - 1))
    ensures Unsettled(es, i)
  {
    var n := |es| - 1;
    assert forall k | 0 <= k < n :: es[..n][k] == es[k];
    forall j | i < j < n
      ensures !(FinishesActivation(es, i, j) && Checkpointing(es, j))
    {
      CheckpointingPrefix(es, n, j);
      assert FinishesActivation(es, i, j) ==> FinishesActivation(es[..n], i, j);
    }
  }

  /** An intent's block stays active until the next activation edge. */
  lemma IntentInBlock(c: Contract, es: seq<Event>, i: nat)
    requires V.Accepted(c, es) && i < |es| && MutatingIntent(es[i])
    requires forall k | i < k < |es| :: !ActivationEdge(es[k])
    ensures V.StateOf(c, es).activeOrdinal == Some(es[i].ordinal)
  {
    var o, head := es[i].ordinal, es[..i + 1];
    V.StepAt(c, es, i);
    ShapeHolds(c, es[..i]);
    IntentIsListed(c, V.StateOf(c, es[..i]), i, es[i]);
    ObserveBlock(c, head, o);
    var a :| 0 <= a < |head| && StartOf(o)(head[a]) && forall k | a < k < |head| :: !Edge()(head[k]);
    assert StartOf(o)(es[a]);
    forall k | a < k < |es|
      ensures !Edge()(es[k])
    {
      if k <= i {
        assert head[k] == es[k];
      }
    }
    ObserveBlock(c, es, o);
  }

  predicate IsListed(s: V.State, ordinal: nat, step: StepId) {
    ordinal in s.mutatingSteps && step in s.mutatingSteps[ordinal]
  }

  lemma ListingStep(c: Contract, s: V.State, index: nat, e: Event, ordinal: nat, step: StepId)
    requires Shape(s, index) && V.Step(c, s, index, e).Accept?
    requires IsListed(V.Step(c, s, index, e).state, ordinal, step)
    ensures || (MutatingIntent(e) && e.ordinal == ordinal && e.stepId == step)
            || (IsListed(s, ordinal, step) &&
                !(e.BlockFinished? && e.verified && !s.gap && s.activeOrdinal == Some(ordinal)))
  {
  }

  lemma {:induction false} ListedIsUnsettled(c: Contract, es: seq<Event>, ordinal: nat, step: StepId) returns (i: nat)
    requires V.Accepted(c, es) && IsListed(V.StateOf(c, es), ordinal, step)
    ensures Unsettled(es, i) && es[i].ordinal == ordinal && es[i].stepId == step
  {
    var n := |es| - 1;
    var s := V.StateOf(c, es[..n]);
    ShapeHolds(c, es[..n]);
    ListingStep(c, s, n, es[n], ordinal, step);
    if MutatingIntent(es[n]) && es[n].ordinal == ordinal && es[n].stepId == step {
      i := n;
    } else {
      i := ListedIsUnsettled(c, es[..n], ordinal, step);
      assert forall k | 0 <= k < n :: es[..n][k] == es[k];
      if FinishesActivation(es, i, n) && Checkpointing(es, n) {
        IntentInBlock(c, es[..n], i);
        ObserveGap(c, es[..n]);
      }
      UnsettledSnoc(es, i);
    }
  }

  lemma CheckpointedIsCheckpointing(c: Contract, es: seq<Event>, j: nat)
    requires V.Accepted(c, es) && j < |es|
    ensures Checkpointed(c, es, j) <==> Checkpointing(es, j)
  {
    V.PrefixAccepted(c, es, j);
    ObserveGap(c, es[..j]);
  }

  lemma ObserveMutations(c: Contract, es: seq<Event>)
    requires V.Accepted(c, es)
    ensures V.NoMutatingSteps(V.StateOf(c, es).mutatingSteps) <==> MutationsSettled(es)
  {
    var s := V.StateOf(c, es);
    if V.NoMutatingSteps(s.mutatingSteps) {
      forall i | 0 <= i < |es| && MutatingIntent(es[i])
        ensures exists j | i < j < |es| :: FinishesActivation(es, i, j) && Checkpointing(es, j)
      {
        IntentFate(c, es, i);
        assert !Listed(s, es[i]);
        var j :| 0 <= j < |es| && FinishesActivation(es, i, j) && Checkpointed(c, es, j);
        CheckpointedIsCheckpointing(c, es, j);
      }
    } else {
      var o :| o in s.mutatingSteps && s.mutatingSteps[o] != {};
      var step :| step in s.mutatingSteps[o];
      var i := ListedIsUnsettled(c, es, o, step);
      assert Unsettled(es, i);
    }
  }

  // ---- the theorem ------------------------------------------------------------------------------------

  /** The parts of the state that the guards of one event may consult, read off the history. */
  lemma ObserveProtocol(c: Contract, es: seq<Event>)
    requires V.Accepted(c, es)
    ensures var s := V.StateOf(c, es);
            && (s.activeOrdinal.None? <==> Idle(es))
            && (s.activeRound.Some? <==> RoundInFlight(es))
            && (V.BatchClosed(s.openBatch) <==> !Owing(es)) && (s.openBatch.Some? <==> Owing(es))
            && (s.pendingIntents == map[] <==> AllAnswered(es))
            && (V.RecordedIntentsClosed(s.openBatch) <==> AllAnswered(es))
            && (s.recovery <==> Recovering(es))
  {
    var s := V.StateOf(c, es);
    ShapeHolds(c, es);
    ObserveIdle(c, es);
    InFlightIsActive(c, es);
    ObserveOwing(c, es);
    ObserveAnswers(c, es);
    ObserveRecovery(c, es);
    ClosedMeansNonePending(s);
  }

  lemma ClosedMeansNonePending(s: V.State)
    requires Protocol(s)
    ensures V.RecordedIntentsClosed(s.openBatch) <==> s.pendingIntents == map[]
  {
    assert s.pendingIntents == map[] <==> s.pendingIntents.Keys == {};
    if s.openBatch.Some? {
      var b := s.openBatch.value;
      assert b.results + (V.Elements(b.intents) - b.results) == V.Elements(b.intents);
    }
  }

  lemma NextRoundEvent(c: Contract, es: seq<Event>, e: Event)
    requires V.Accepted(c, es) && es != [] && !V.StateOf(c, es).terminal
    requires e.ModelRoundStarted? || e.ModelRoundCompleted?
    ensures V.Step(c, V.StateOf(c, es), |es|, e).Accept? <==>
            if e.ModelRoundStarted?
            then InBlock(es, e.ordinal) && NothingOpen(es) && (0 < e.attempt <==> Recovering(es))
            else InRound(es, e.ordinal, e.round, e.attempt)
  {
    ObserveProtocol(c, es);
    ObserveBlock(c, es, e.ordinal);
    ObserveRound(c, es, e.ordinal, e.round, e.attempt);
  }

  lemma NextIntent(c: Contract, es: seq<Event>, e: Event)
    requires V.Accepted(c, es) && e.ToolIntent?
    ensures V.StepIntent(V.StateOf(c, es), e).Accept? <==> AdmitsIntent(es, e)
  {
    var s := V.StateOf(c, es);
    ObserveIntent(c, es, e.stepId);
    if s.openBatch.Some? {
      var m := BatchHasRound(c, es);
      ObserveBatch(c, es, m);
      forall m' | 0 <= m' < |es| && Current(es, m')
        ensures m' == m
      {
        CurrentUnique(es, m, m');
      }
    } else {
      forall m | 0 <= m < |es| && Current(es, m)
        ensures Results(es, m) == es[m].toolCallCount == Intents(es, m)
      {
        ObserveBatch(c, es, m);
      }
    }
  }

  lemma NextResult(c: Contract, es: seq<Event>, e: Event)
    requires V.Accepted(c, es) && e.ToolResult?
    ensures V.StepResult(V.StateOf(c, es), e).Accept? <==> Unanswered(es, e.stepId)
  {
    ShapeHolds(c, es);
    ObserveIntent(c, es, e.stepId);
  }

  lemma NextRecoveryOrVerifier(c: Contract, es: seq<Event>, e: Event)
    requires V.Accepted(c, es) && es != [] && !V.StateOf(c, es).terminal
    requires e.RecoveryStarted? || e.RecoveryFinished? || e.VerifierResult?
    ensures V.Step(c, V.StateOf(c, es), |es|, e).Accept? <==>
            && InBlock(es, e.ordinal)
            && (e.RecoveryStarted? ==> !Recovering(es) && NothingOpen(es))
            && (e.RecoveryFinished? ==> Recovering(es) && NothingOpen(es))
            && (e.VerifierResult? ==> !RoundInFlight(es) && AllAnswered(es))
  {
    ObserveProtocol(c, es);
    ObserveBlock(c, es, e.ordinal);
  }

  lemma ObserveEvidence(c: Contract, es: seq<Event>, e: Event)
    requires V.Accepted(c, es) && e.BlockFinished?
    ensures V.EvidenceProblem(c, V.StateOf(c, es), e).None? <==> Evidenced(c, es, e)
  {
    if e.ordinal < |c.blocks| {
      var block := c.blocks[e.ordinal];
      var output := if block.role == "final" then "final_output" else "block_output";
      ObserveVerifier(c, es, output, e.workspace);
      ObserveVerifier(c, es, "post_mutation", e.workspace);
      assert RequiredVerifiers(block) == {output} + if block.requiresChange then {"post_mutation"} else {};
      assert output in RequiredVerifiers(block);
      assert block.requiresChange ==> "post_mutation" in RequiredVerifiers(block);
    }
  }

  lemma NextFinish(c: Contract, es: seq<Event>, e: Event)
    requires V.Accepted(c, es) && e.BlockFinished?
    ensures V.StepBlockFinished(c, V.StateOf(c, es), |es|, e).Accept? <==>
            && InBlock(es, e.ordinal) && !RoundInFlight(es) && AllAnswered(es) && !Recovering(es)
            && (e.verified || e.status == Complete ==> !Owing(es))
            && (e.verified ==> Evidenced(c, es, e))
  {
    ObserveProtocol(c, es);
    ObserveBlock(c, es, e.ordinal);
    ObserveEvidence(c, es, e);
  }

  lemma NextResume(c: Contract, es: seq<Event>, e: Event)
    requires V.Accepted(c, es) && e.RunResumed?
    ensures V.StepResumed(V.StateOf(c, es), e).Accept? <==>
            && BoundaryIs(es, e.nextBlockOrdinal, e.resumeVerifiedSequence)
            && !RoundInFlight(es) && AllAnswered(es) && MutationsSettled(es)
  {
    ObserveProtocol(c, es);
    ObserveMutations(c, es);
    BoundaryExactly(c, es, e.nextBlockOrdinal, e.resumeVerifiedSequence);
  }

  lemma NextRunFinish(c: Contract, es: seq<Event>, e: Event)
    requires V.Accepted(c, es) && e.RunFinished?
    ensures V.StepRunFinished(V.StateOf(c, es), e).Accept? <==>
            Idle(es) && exists next: nat :: BoundaryIs(es, next, e.finalVerifiedSequence)
  {
    var s := V.StateOf(c, es);
    ShapeHolds(c, es);
    ObserveProtocol(c, es);
    ObserveBoundary(c, es);
    assert s.pendingIntents == map[] <==> s.pendingIntents.Keys == {};
    if next: nat :| BoundaryIs(es, next, e.finalVerifiedSequence) {
      BoundaryExactly(c, es, next, e.finalVerifiedSequence);
    }
  }

  /** What may come next after an accepted history, for every event. */
  lemma NextExactly(c: Contract, es: seq<Event>, e: Event)
    requires V.Accepted(c, es)
    ensures V.Accepted(c, es + [e]) <==> Admits(c, es, e)
  {
    V.ValidateSnoc(c, es, e);
    ObserveEnd(c, es);
    var s := V.StateOf(c, es);
    if es != [] && !s.terminal {
      match e
      case RunStarted =>
      case RunResumed(_, _) => NextResume(c, es, e);
      case ContextBound => ObserveIdle(c, es);
      case BlockStarted(ordinal, _) =>
        ObserveIdle(c, es);
        ObserveCursor(c, es, ordinal);
      case ModelRoundStarted(_, _, _, _) => NextRoundEvent(c, es, e);
      case ModelRoundCompleted(_, _, _, _) => NextRoundEvent(c, es, e);
      case ToolIntent(_, _, _, _, _, _) => NextIntent(c, es, e);
      case ToolResult(_) => NextResult(c, es, e);
      case RecoveryStarted(_, _, _) => NextRecoveryOrVerifier(c, es, e);
      case RecoveryFinished(_, _, _) => NextRecoveryOrVerifier(c, es, e);
      case VerifierResult(_, _, _, _) => NextRecoveryOrVerifier(c, es, e);
      case BlockFinished(_, _, _, _, _) => NextFinish(c, es, e);
      case RunFinished(_, _) => NextRunFinish(c, es, e);
    }
  }

  ghost predicate AllAdmitted(c: Contract, es: seq<Event>) {
    forall n | 0 <= n < |es| :: Admits(c, es[..n], es[n])
  }

  lemma AllAdmittedSnoc(c: Contract, es: seq<Event>)
    requires es != []
    ensures AllAdmitted(c, es) <==> AllAdmitted(c, es[..|es| - 1]) && Admits(c, es[..|es| - 1], es[|es| - 1])
  {
    var earlier := es[..|es| - 1];
    forall k | 0 <= k < |es| - 1
      ensures Admits(c, earlier[..k], earlier[k]) <==> Admits(c, es[..k], es[k])
    {
      assert earlier[..k] == es[..k];
    }
  }

  /** The validator accepts exactly the histories in which every event was admissible. */
  lemma {:induction false} AcceptedExactly(c: Contract, es: seq<Event>)
    ensures V.Accepted(c, es) <==> AllAdmitted(c, es)
  {
    if es != [] {
      var n := |es| - 1;
      AcceptedExactly(c, es[..n]);
      AllAdmittedSnoc(c, es);
      if V.Accepted(c, es[..n]) {
        assert es == es[..n] + [es[n]];
        NextExactly(c, es[..n], es[n]);
      }
    }
  }

  // ---- reasons ------------------------------------------------------------------------------------------

  /** The open batch of the active block, if any, belongs to the round of this event. */
  predicate SameRound(es: seq<Event>, e: Event)
    requires e.ToolIntent?
  {
    exists m | 0 <= m < |es| ::
      Current(es, m) && es[m].ordinal == e.ordinal && es[m].round == e.round && es[m].attempt == e.attempt
  }

  predicate CurrentHas(es: seq<Event>, more: bool, answers: bool) {
    exists m | 0 <= m < |es| ::
      Current(es, m) && (more ==> Intents(es, m) == es[m].toolCallCount) && (answers ==> Results(es, m) > 0)
  }

  /** What is wrong with `e` after `es`, in the words of the history, for each reason. */
  ghost predicate Explains(c: Contract, es: seq<Event>, e: Event, why: V.Reason) {
    match why
    case TerminalRunHasTrailingEvents => Ended(es)
    case RunStartedIsNotFirst => e.RunStarted? && es != []
    case JournalDoesNotBeginWithRunStarted => !e.RunStarted? && es == []
    case ResumeBoundaryDiffersFromVerifiedBlocks =>
      e.RunResumed? && forall last :: !BoundaryIs(es, e.nextBlockOrdinal, last)
    case ResumeSequenceDiffersFromVerifiedBoundary =>
      e.RunResumed? && forall next :: !BoundaryIs(es, next, e.resumeVerifiedSequence)
    case ResumeAbandonsInFlightModelRound => e.RunResumed? && RoundInFlight(es)
    case ResumeAbandonsToolIntentsWithoutResults => e.RunResumed? && !AllAnswered(es)
    case ResumeAbandonsUnverifiedMutatingAttempt => e.RunResumed? && !MutationsSettled(es)
    case ContextWasReboundDuringActiveBlock => e.ContextBound? && !Idle(es)
    case SecondBlockStartedBeforeFirstFinished => e.BlockStarted? && !Idle(es)
    case BlockDidNotStartAtNextExecutionOrdinal => e.BlockStarted? && !NextIs(es, e.ordinal)
    case ModelRoundIsOutsideActiveBlock => e.ModelRoundStarted? && !InBlock(es, e.ordinal)
    case ModelRoundOverlapsUnfinishedRound => e.ModelRoundStarted? && !NothingOpen(es)
    case PrimaryModelRoundStartedDuringRecovery => e.ModelRoundStarted? && e.attempt == 0 && Recovering(es)
    case RecoveryModelRoundLacksRecoveryStarted => e.ModelRoundStarted? && e.attempt > 0 && !Recovering(es)
    case ModelCompletionHasNoMatchingStart =>
      e.ModelRoundCompleted? && !InRound(es, e.ordinal, e.round, e.attempt)
    case ToolIntentHasNoModelToolBatch => e.ToolIntent? && !Owing(es)
    case ToolIntentCoordinatesDifferFromModelBatch => e.ToolIntent? && !SameRound(es, e)
    case ToolIntentWasAppendedAfterToolResultsBegan => e.ToolIntent? && CurrentHas(es, false, true)
    case ToolIntentsExceedModelDeclaredCount => e.ToolIntent? && CurrentHas(es, true, false)
    case ToolIntentIndicesAreNotContiguous =>
      e.ToolIntent? && forall m | 0 <= m < |es| && Current(es, m) :: e.toolIndex != Intents(es, m)
    case ToolIntentStepIsDuplicated => e.ToolIntent? && Unanswered(es, e.stepId)
    case ToolResultHasNoModelToolBatch => e.ToolResult? && !Owing(es)
    case ToolResultHasNoUnmatchedIntent => e.ToolResult? && !Unanswered(es, e.stepId)
    case ToolResultIsDuplicated => false
    case RecoveryIsOutsideActiveBlock => e.RecoveryStarted? && !InBlock(es, e.ordinal)
    case RecoveryAttemptIsDuplicated => e.RecoveryStarted? && Recovering(es)
    case RecoveryOverlapsUnfinishedModelToolRound => e.RecoveryStarted? && !NothingOpen(es)
    case RecoveryCompletionHasNoMatchingStart =>
      e.RecoveryFinished? && !(InBlock(es, e.ordinal) && Recovering(es))
    case RecoveryFinishedWithOpenModelToolRound => e.RecoveryFinished? && !NothingOpen(es)
    case VerifierIsOutsideActiveBlock => e.VerifierResult? && !InBlock(es, e.ordinal)
    case VerifierRanBeforeRecordedWorkSettled =>
      e.VerifierResult? && (RoundInFlight(es) || !AllAnswered(es))
    case BlockCompletionHasNoMatchingStart => e.BlockFinished? && !InBlock(es, e.ordinal)
    case BlockFinishedDuringInFlightModelRound => e.BlockFinished? && RoundInFlight(es)
    case BlockFinishedWithToolIntentsLackingResults => e.BlockFinished? && !AllAnswered(es)
    case BlockFinishedBeforeRecoveryFinished => e.BlockFinished? && Recovering(es)
    case VerifiedBlockHasIncompleteToolBatch =>
      e.BlockFinished? && (e.verified || e.status == Complete) && Owing(es)
    case OnlyCompleteBlocksMayBeVerified => e.BlockFinished? && e.verified && e.status != Complete
    case BlockIsOutsideRunContract => e.BlockFinished? && e.verified && e.ordinal >= |c.blocks|
    case VerifiedBlockLacksPassedVerifiers => e.BlockFinished? && e.verified && !Evidenced(c, es, e)
    case VerifiedBlockWorkspaceDiffersFromVerifierEvidence => e.BlockFinished? && e.verified && !Evidenced(c, es, e)
    case RunFinishedWithActiveBlock => e.RunFinished? && !Idle(es)
    case RunFinishedWithUnsettledToolProtocol => false
    case TerminalReceiptNamesWrongVerifiedSequence =>
      e.RunFinished? && forall next :: !BoundaryIs(es, next, e.finalVerifiedSequence)
  }

  /** The reasons that concern the latest round's tool calls. */
  lemma ExplainIntent(c: Contract, es: seq<Event>, e: Event)
    requires V.Accepted(c, es) && e.ToolIntent? && V.StepIntent(V.StateOf(c, es), e).Reject?
    ensures Explains(c, es, e, V.StepIntent(V.StateOf(c, es), e).reason)
  {
    ObserveIntent(c, es, e.stepId);
    ObserveOwing(c, es);
    if V.StateOf(c, es).openBatch.Some? {
      var m := BatchHasRound(c, es);
      ObserveBatch(c, es, m);
      forall m' | 0 <= m' < |es| && Current(es, m')
        ensures m' == m
      {
        CurrentUnique(es, m, m');
      }
    }
  }

  lemma ExplainBoundary(c: Contract, es: seq<Event>, next: int, last: int)
    requires V.Accepted(c, es)
    ensures next != |V.StateOf(c, es).completed| ==> forall l :: !BoundaryIs(es, next, l)
    ensures last != V.StateOf(c, es).lastVerified ==> forall n :: !BoundaryIs(es, n, last)
  {
    forall l
      ensures BoundaryIs(es, next, l) ==> next == |V.StateOf(c, es).completed|
    {
      BoundaryExactly(c, es, next, l);
    }
    forall n
      ensures BoundaryIs(es, n, last) ==> last == V.StateOf(c, es).lastVerified
    {
      BoundaryExactly(c, es, n, last);
    }
  }

  lemma ExplainResume(c: Contract, es: seq<Event>, e: Event)
    requires V.Accepted(c, es) && e.RunResumed? && V.StepResumed(V.StateOf(c, es), e).Reject?
    ensures Explains(c, es, e, V.StepResumed(V.StateOf(c, es), e).reason)
  {
    ObserveProtocol(c, es);
    ObserveMutations(c, es);
    ExplainBoundary(c, es, e.nextBlockOrdinal, e.resumeVerifiedSequence);
  }

  lemma ExplainFinish(c: Contract, es: seq<Event>, e: Event)
    requires V.Accepted(c, es) && e.BlockFinished? && V.StepBlockFinished(c, V.StateOf(c, es), |es|, e).Reject?
    ensures Explains(c, es, e, V.StepBlockFinished(c, V.StateOf(c, es), |es|, e).reason)
  {
    ObserveProtocol(c, es);
    ObserveBlock(c, es, e.ordinal);
    ObserveEvidence(c, es, e);
  }

  lemma ExplainRunFinish(c: Contract, es: seq<Event>, e: Event)
    requires V.Accepted(c, es) && e.RunFinished? && V.StepRunFinished(V.StateOf(c, es), e).Reject?
    ensures Explains(c, es, e, V.StepRunFinished(V.StateOf(c, es), e).reason)
  {
    var s := V.StateOf(c, es);
    ShapeHolds(c, es);
    ObserveProtocol(c, es);
    assert s.pendingIntents == map[] <==> s.pendingIntents.Keys == {};
    ExplainBoundary(c, es, 0, e.finalVerifiedSequence);
  }

  lemma ExplainRound(c: Contract, es: seq<Event>, e: Event)
    requires V.Accepted(c, es)
    ensures e.ModelRoundStarted? && V.StepRoundStarted(V.StateOf(c, es), e).Reject? ==>
              Explains(c, es, e, V.StepRoundStarted(V.StateOf(c, es), e).reason)
    ensures e.ModelRoundCompleted? && V.StepRoundCompleted(V.StateOf(c, es), e).Reject? ==>
              Explains(c, es, e, V.StepRoundCompleted(V.StateOf(c, es), e).reason)
  {
    if e.ModelRoundStarted? {
      ObserveProtocol(c, es);
      ObserveBlock(c, es, e.ordinal);
    } else if e.ModelRoundCompleted? {
      ObserveRound(c, es, e.ordinal, e.round, e.attempt);
    }
  }

  lemma ExplainResult(c: Contract, es: seq<Event>, e: Event)
    requires V.Accepted(c, es) && e.ToolResult? && V.StepResult(V.StateOf(c, es), e).Reject?
    ensures Explains(c, es, e, V.StepResult(V.StateOf(c, es), e).reason)
  {
    ShapeHolds(c, es);
    ObserveOwing(c, es);
    ObserveIntent(c, es, e.stepId);
  }

  lemma ExplainRecoveryStart(c: Contract, es: seq<Event>, e: Event)
    requires V.Accepted(c, es) && e.RecoveryStarted? && V.StepRecoveryStarted(V.StateOf(c, es), e).Reject?
    ensures Explains(c, es, e, V.StepRecoveryStarted(V.StateOf(c, es), e).reason)
  {
    ObserveProtocol(c, es);
    ObserveBlock(c, es, e.ordinal);
  }

  lemma ExplainRecoveryFinish(c: Contract, es: seq<Event>, e: Event)
    requires V.Accepted(c, es) && e.RecoveryFinished? && V.StepRecoveryFinished(V.StateOf(c, es), e).Reject?
    ensures Explains(c, es, e, V.StepRecoveryFinished(V.StateOf(c, es), e).reason)
  {
    ObserveProtocol(c, es);
    ObserveBlock(c, es, e.ordinal);
  }

  lemma ExplainVerifier(c: Contract, es: seq<Event>, e: Event)
    requires V.Accepted(c, es) && e.VerifierResult? && V.StepVerifier(V.StateOf(c, es), e).Reject?
    ensures Explains(c, es, e, V.StepVerifier(V.StateOf(c, es), e).reason)
  {
    ObserveProtocol(c, es);
    ObserveBlock(c, es, e.ordinal);
  }

  lemma ExplainStart(c: Contract, es: seq<Event>, e: Event)
    requires V.Accepted(c, es) && e.BlockStarted? && V.StepBlockStarted(V.StateOf(c, es), e).Reject?
    ensures Explains(c, es, e, V.StepBlockStarted(V.StateOf(c, es), e).reason)
  {
    ObserveIdle(c, es);
    ObserveCursor(c, es, e.ordinal);
  }

  /** The reason the validator gives is true of the history. */
  lemma ReasonIsTrue(c: Contract, es: seq<Event>, e: Event)
    requires V.Accepted(c, es) && V.Validate(c, es + [e]).Reject?
    ensures Explains(c, es, e, V.Validate(c, es + [e]).reason)
  {
    V.ValidateSnoc(c, es, e);
    ObserveEnd(c, es);
    if es != [] && !V.StateOf(c, es).terminal && !e.RunStarted? {
      if e.RunResumed? {
        ExplainResume(c, es, e);
      } else if e.ToolIntent? {
        ExplainIntent(c, es, e);
      } else if e.BlockFinished? {
        ExplainFinish(c, es, e);
      } else if e.RunFinished? {
        ExplainRunFinish(c, es, e);
      } else if e.ToolResult? {
        ExplainResult(c, es, e);
      } else if e.BlockStarted? {
        ExplainStart(c, es, e);
      } else if e.ContextBound? {
        ObserveIdle(c, es);
      } else if e.RecoveryStarted? {
        ExplainRecoveryStart(c, es, e);
      } else if e.RecoveryFinished? {
        ExplainRecoveryFinish(c, es, e);
      } else if e.VerifierResult? {
        ExplainVerifier(c, es, e);
      } else {
        ExplainRound(c, es, e);
      }
    }
  }
}
