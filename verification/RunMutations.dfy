/** Resume safety: a run resumes only over mutating work that a checkpoint covers. */
module RunMutations {
  import opened Options
  import opened RunEvents
  import V = RunValidator
  import opened RunAgreement

  predicate MutatingIntent(e: Event) {
    e.ToolIntent? && e.mutating
  }

  /** Events that end or begin a block activation. */
  predicate ActivationEdge(e: Event) {
    e.BlockStarted? || e.BlockFinished? || e.RunResumed?
  }

  /** Position `j` is the finish of the very block activation in which position `i` lies. */
  predicate FinishesActivation(es: seq<Event>, i: nat, j: nat) {
    && i < j < |es| && es[j].BlockFinished?
    && forall k | i < k < j :: !ActivationEdge(es[k])
  }

  ghost predicate Settled(c: Contract, es: seq<Event>, i: nat) {
    exists j | 0 <= j < |es| :: FinishesActivation(es, i, j) && Checkpointed(c, es, j)
  }

  predicate Listed(s: V.State, e: Event)
    requires e.ToolIntent?
  {
    e.ordinal in s.mutatingSteps && e.stepId in s.mutatingSteps[e.ordinal]
  }

  /** Everything that can have become of a mutating intent: its block is still running,
      was checkpointed, or was left behind for good. */
  ghost predicate Fate(c: Contract, es: seq<Event>, s: V.State, i: nat)
    requires i < |es| && MutatingIntent(es[i])
  {
    || Settled(c, es, i)
    || (Listed(s, es[i]) && s.activeOrdinal == Some(es[i].ordinal) &&
        forall k | i < k < |es| :: !ActivationEdge(es[k]))
    || (Listed(s, es[i]) && es[i].ordinal < s.nextExecution)
  }

  lemma SettledExtends(c: Contract, es: seq<Event>, n: nat, i: nat)
    requires i < n <= |es| && Settled(c, es[..n], i)
    ensures Settled(c, es, i)
  {
    var j :| 0 <= j < n && FinishesActivation(es[..n], i, j) && Checkpointed(c, es[..n], j);
    assert es[..n][..j] == es[..j] && es[..n][j] == es[j];
    forall k | i < k < j
      ensures !ActivationEdge(es[k])
    {
      assert es[k] == es[..n][k];
    }
    assert FinishesActivation(es, i, j) && Checkpointed(c, es, j);
  }

  /** Only a checkpoint of its own block, or a resume, can unlist a step. */
  lemma ListedStep(c: Contract, s: V.State, index: nat, e: Event, intent: Event)
    requires Shape(s, index) && V.Step(c, s, index, e).Accept?
    requires intent.ToolIntent? && Listed(s, intent)
    ensures !e.RunResumed?
    ensures var s' := V.Step(c, s, index, e).state;
            && (Listed(s', intent) ||
                (e.BlockFinished? && e.verified && !s.gap && s.activeOrdinal == Some(intent.ordinal)))
            && s.nextExecution <= s'.nextExecution
            && (e.BlockFinished? ==> s.activeOrdinal.Some? && s.activeOrdinal.value < s'.nextExecution)
            && (!ActivationEdge(e) ==> s'.activeOrdinal == s.activeOrdinal)
            && (e.BlockStarted? ==> s.activeOrdinal.None?)
  {
  }

  lemma FateStep(c: Contract, es: seq<Event>, i: nat)
    requires V.Accepted(c, es) && i < |es| - 1 && MutatingIntent(es[i])
    requires V.Accepted(c, es[..|es| - 1]) && Fate(c, es[..|es| - 1], V.StateOf(c, es[..|es| - 1]), i)
    ensures Fate(c, es, V.StateOf(c, es), i)
  {
    var n := |es| - 1;
    var earlier := es[..n];
    assert earlier[i] == es[i];
    var s := V.StateOf(c, earlier);
    if Settled(c, earlier, i) {
      SettledExtends(c, es, n, i);
    } else {
      ShapeHolds(c, earlier);
      ListedStep(c, s, n, es[n], es[i]);
      if s.activeOrdinal == Some(es[i].ordinal) && forall k | i < k < n :: !ActivationEdge(earlier[k]) {
        assert forall k | i < k < n :: es[k] == earlier[k];
        if es[n].BlockFinished? && es[n].verified && !s.gap {
          assert FinishesActivation(es, i, n) && Checkpointed(c, es, n);
        }
      } else {
        assert es[i].ordinal < s.nextExecution;
      }
    }
  }

  lemma IntentIsListed(c: Contract, s: V.State, index: nat, e: Event)
    requires Shape(s, index) && MutatingIntent(e) && V.Step(c, s, index, e).Accept?
    ensures Listed(V.Step(c, s, index, e).state, e)
    ensures V.Step(c, s, index, e).state.activeOrdinal == Some(e.ordinal)
  {
  }

  lemma {:induction false} IntentFate(c: Contract, es: seq<Event>, i: nat)
    requires V.Accepted(c, es) && i < |es| && MutatingIntent(es[i])
    ensures Fate(c, es, V.StateOf(c, es), i)
    decreases |es|
  {
    var n := |es| - 1;
    V.PrefixAccepted(c, es, n);
    if i < n {
      IntentFate(c, es[..n], i);
      FateStep(c, es, i);
    } else {
      ShapeHolds(c, es[..n]);
      IntentIsListed(c, V.StateOf(c, es[..n]), n, es[n]);
    }
  }

  /** At every resume, each earlier mutating intent lies in a block activation that was
      finished verified, and that finish advanced the checkpoint boundary. */
  lemma ResumeOnlyOverSettledMutations(c: Contract, es: seq<Event>, i: nat, k: nat)
    requires V.Accepted(c, es) && i < k < |es|
    requires MutatingIntent(es[i]) && es[k].RunResumed?
    ensures exists j | i < j < k :: FinishesActivation(es, i, j) && es[j].verified && Checkpointed(c, es, j)
  {
    V.StepAt(c, es, k);
    var earlier := es[..k];
    assert earlier[i] == es[i];
    IntentFate(c, earlier, i);
    if !Settled(c, earlier, i) {
      ShapeHolds(c, earlier);
      ListedStep(c, V.StateOf(c, earlier), k, es[k], es[i]);
    }
    var j :| 0 <= j < k && FinishesActivation(earlier, i, j) && Checkpointed(c, earlier, j);
    assert earlier[..j] == es[..j];
    assert forall m | 0 <= m < k :: earlier[m] == es[m];
    assert FinishesActivation(es, i, j) && Checkpointed(c, es, j);
  }

  /** Once a block that recorded a mutating intent finishes without advancing the boundary
      -- in particular, unverified -- the run can never be resumed. */
  lemma UnsettledMutationForbidsResume(c: Contract, es: seq<Event>, i: nat, j: nat, k: nat)
    requires V.Accepted(c, es) && j < k < |es|
    requires i < |es| && MutatingIntent(es[i]) && FinishesActivation(es, i, j)
    requires !Checkpointed(c, es, j)
    ensures !es[k].RunResumed?
  {
    if es[k].RunResumed? {
      ResumeOnlyOverSettledMutations(c, es, i, k);
    }
  }
}
