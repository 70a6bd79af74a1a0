/** The second, independently written reading of a run journal: `resume_state` and the
    `verified_blocks` view built on it.  Neither consults the validator's state. */
module RunResume {
  import opened Options
  import opened RunEvents

  datatype Resume = Resume(
    completed: seq<nat>,
    gap: bool,
    lastVerified: int,
    lastWorkspace: Option<Workspace>,
    pendingIntents: map<StepId, bool>,
    mutationSteps: map<nat, set<StepId>>,
    modelRounds: nat,
    toolCalls: nat,
    promptTokens: nat,
    terminalStatus: Option<Status>)

  datatype Corruption = IntentDuplicated | ResultWithoutIntent | CheckpointOutOfOrder | CheckpointsDiffer

  datatype ResumeVerdict = Resumable(state: Resume) | Corrupt(reason: Corruption)

  const INITIAL := Resume([], false, -1, None, map[], map[], 0, 0, 0, None)

  predicate VerifiedFinish(e: Event) {
    e.BlockFinished? && e.status == Complete && e.verified
  }

  function StepFinish(r: Resume, index: nat, e: Event): ResumeVerdict
    requires e.BlockFinished?
  {
    var expected := |r.completed|;
    if VerifiedFinish(e) then
      if e.ordinal == expected && !r.gap then
        Resumable(r.(completed := r.completed + [expected], mutationSteps := r.mutationSteps - {expected},
                     lastVerified := index, lastWorkspace := Some(e.workspace)))
      else if e.ordinal < expected then Corrupt(CheckpointOutOfOrder)
      else Resumable(r.(gap := true))
    else if e.ordinal == expected then Resumable(r.(gap := true))
    else Resumable(r)
  }

  function Step(r: Resume, index: nat, e: Event): ResumeVerdict {
    match e
    case ToolIntent(step, ordinal, _, _, _, mutating) =>
      if step in r.pendingIntents then Corrupt(IntentDuplicated)
      else
        var known := if ordinal in r.mutationSteps then r.mutationSteps[ordinal] else {};
        Resumable(r.(toolCalls := r.toolCalls + 1,
                     pendingIntents := r.pendingIntents[step := mutating],
                     mutationSteps := if mutating then r.mutationSteps[ordinal := known + {step}]
                                      else r.mutationSteps))
    case ToolResult(step) =>
      if step !in r.pendingIntents then Corrupt(ResultWithoutIntent)
      else Resumable(r.(pendingIntents := r.pendingIntents - {step}))
    case ModelRoundStarted(_, _, _, tokens) =>
      Resumable(r.(modelRounds := r.modelRounds + 1, promptTokens := r.promptTokens + tokens))
    case BlockFinished(_, _, _, _, _) => StepFinish(r, index, e)
    case RunFinished(status, _) => Resumable(r.(terminalStatus := Some(status)))
    case _ => Resumable(r)
  }

  function Fold(es: seq<Event>): ResumeVerdict {
    if es == [] then Resumable(INITIAL)
    else
      var v := Fold(es[..|es| - 1]);
      if v.Corrupt? then v else Step(v.state, |es| - 1, es[|es| - 1])
  }

  /** Mutating steps whose outcome no verified checkpoint covers. */
  function Uncertain(r: Resume): set<StepId> {
    (set s | s in r.pendingIntents && r.pendingIntents[s]) +
    (set o, s | o in r.mutationSteps && s in r.mutationSteps[o] :: s)
  }

  predicate CanResume(r: Resume) {
    r.terminalStatus.None? && Uncertain(r) == {}
  }

  datatype Checkpoint = Checkpoint(ordinal: nat, sequence: nat, workspace: Workspace)

  /** The verified finishes whose ordinals lie in `completed`, in journal order. */
  function Checkpoints(es: seq<Event>, completed: seq<nat>): seq<Checkpoint> {
    if es == [] then []
    else
      var n := |es| - 1;
      var earlier := Checkpoints(es[..n], completed);
      if VerifiedFinish(es[n]) && es[n].ordinal in completed then
        earlier + [Checkpoint(es[n].ordinal, n, es[n].workspace)]
      else earlier
  }

  function Ordinals(cs: seq<Checkpoint>): (os: seq<nat>)
    ensures |os| == |cs| && forall i | 0 <= i < |cs| :: os[i] == cs[i].ordinal
  {
    seq(|cs|, i requires 0 <= i < |cs| => cs[i].ordinal)
  }

  lemma {:induction false} CorruptionIsFinal(es: seq<Event>, k: nat)
    requires k <= |es| && Fold(es[..k]).Corrupt?
    ensures Fold(es) == Fold(es[..k])
    decreases |es|
  {
    if k == |es| {
      assert es[..k] == es;
    } else {
      assert es[..|es| - 1][..k] == es[..k];
      CorruptionIsFinal(es[..|es| - 1], k);
    }
  }

  lemma FoldSnoc(es: seq<Event>, e: Event)
    ensures Fold(es + [e]) == if Fold(es).Corrupt? then Fold(es) else Step(Fold(es).state, |es|, e)
  {
    assert (es + [e])[..|es|] == es;
  }

  /** `resume_state`: one pass that keeps its own dictionaries and counters. */
  method ResumeState(events: seq<Event>) returns (verdict: ResumeVerdict, uncertain: set<StepId>)
    ensures verdict == Fold(events)
    ensures verdict.Resumable? ==> uncertain == Uncertain(verdict.state)
  {
    var completed: seq<nat> := [];
    var gap := false;
    var lastVerified: int := -1;
    var lastWorkspace: Option<Workspace> := None;
    var pendingIntents: map<StepId, bool> := map[];
    var mutationSteps: map<nat, set<StepId>> := map[];
    var modelRounds, toolCalls, promptTokens := 0, 0, 0;
    var terminalStatus: Option<Status> := None;
    uncertain := {};
    for i := 0 to |events|
      invariant Fold(events[..i]) ==
        Resumable(Resume(completed, gap, lastVerified, lastWorkspace, pendingIntents, mutationSteps,
                         modelRounds, toolCalls, promptTokens, terminalStatus))
    {
      var e := events[i];
      assert events[..i + 1][..i] == events[..i];
      var problem: Option<Corruption> := None;
      match e {
        case ToolIntent(step, ordinal, _, _, _, mutating) =>
          toolCalls := toolCalls + 1;
          if step in pendingIntents {
            problem := Some(IntentDuplicated);
          } else {
            pendingIntents := pendingIntents[step := mutating];
            if mutating {
              var known := if ordinal in mutationSteps then mutationSteps[ordinal] else {};
              mutationSteps := mutationSteps[ordinal := known + {step}];
            }
          }
        case ToolResult(step) =>
          if step !in pendingIntents {
            problem := Some(ResultWithoutIntent);
          } else {
            pendingIntents := pendingIntents - {step};
          }
        case ModelRoundStarted(_, _, _, tokens) =>
          modelRounds := modelRounds + 1;
          promptTokens := promptTokens + tokens;
        case BlockFinished(ordinal, _, status, verified, workspace) =>
          if status == Complete && verified {
            if ordinal == |completed| && !gap {
              mutationSteps := mutationSteps - {|completed|};
              completed := completed + [|completed|];
              lastVerified := i;
              lastWorkspace := Some(workspace);
            } else if ordinal < |completed| {
              problem := Some(CheckpointOutOfOrder);
            } else {
              gap := true;
            }
          } else if ordinal == |completed| {
            gap := true;
          }
        case RunFinished(status, _) => terminalStatus := Some(status);
        case _ =>
      }
      if problem.Some? {
        assert Fold(events[..i + 1]) == Corrupt(problem.value);
        CorruptionIsFinal(events, i + 1);
        return Corrupt(problem.value), {};
      }
    }
    assert events[..|events|] == events;
    uncertain := (set s | s in pendingIntents && pendingIntents[s]) +
                 (set o, s | o in mutationSteps && s in mutationSteps[o] :: s);
    verdict := Resumable(Resume(completed, gap, lastVerified, lastWorkspace, pendingIntents, mutationSteps,
                                modelRounds, toolCalls, promptTokens, terminalStatus));
  }

  /** `verified_blocks`: collects the checkpoints, then cross-checks them against the resume state. */
  method VerifiedBlocks(events: seq<Event>) returns (checkpoints: seq<Checkpoint>, problem: Option<Corruption>)
    ensures Fold(events).Corrupt? ==> problem == Some(Fold(events).reason)
    ensures Fold(events).Resumable? ==>
              && checkpoints == Checkpoints(events, Fold(events).state.completed)
              && (problem.None? <==> Ordinals(checkpoints) == Fold(events).state.completed)
  {
    var verdict, _ := ResumeState(events);
    checkpoints := [];
    if verdict.Corrupt? { return [], Some(verdict.reason); }
    for i := 0 to |events|
      invariant checkpoints == Checkpoints(events[..i], verdict.state.completed)
    {
      var e := events[i];
      assert events[..i + 1][..i] == events[..i];
      if e.BlockFinished? && e.status == Complete && e.verified && e.ordinal in verdict.state.completed {
        checkpoints := checkpoints + [Checkpoint(e.ordinal, i, e.workspace)];
      }
    }
    assert events[..|events|] == events;
    problem := if Ordinals(checkpoints) == verdict.state.completed then None else Some(CheckpointsDiffer);
  }
}
