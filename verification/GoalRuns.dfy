/** Whole runs over the goal ledger: every operation recovers first, any may die after any
    write, and stale records can neither overwrite newer ones nor revive a cleared goal. */
module GoalRuns {
  import opened Options
  import opened StoreAnchor
  import opened GoalLedger

  datatype Op =
    | Prepare(first: Cas, second: Cas, lives: nat)
    | Save(cursor: nat, goal: Goal, first: Cas, second: Cas, lives: nat)
    | Clear(first: Cas, second: Cas, lives: nat)

  function Next(w: World, op: Op): World {
    match op
    case Prepare(first, second, lives) => At(PreparePlan(w, first, second).trace, lives)
    case Save(cursor, goal, first, second, lives) => At(SavePlan(w, cursor, goal, first, second).trace, lives)
    case Clear(first, second, lives) => At(ClearPlan(w, first, second).trace, lives)
  }

  /** `ws` are the durable states between the operations of a run. */
  ghost predicate Path(ws: seq<World>, ops: seq<Op>) {
    |ws| == |ops| + 1 && forall k | 0 <= k < |ops| :: ws[k + 1] == Next(ws[k], ops[k])
  }

  /** The operation returned normally to a process that lived to see it. */
  predicate Succeeded(w: World, op: Op) {
    match op
    case Prepare(first, second, lives) => Ends(PreparePlan(w, first, second), lives).Returned?
    case Save(cursor, goal, first, second, lives) => Ends(SavePlan(w, cursor, goal, first, second), lives).Returned?
    case Clear(first, second, lives) => Ends(ClearPlan(w, first, second), lives) == Returned(true)
  }

  /** The operation passed its checks and wrote its stage, whether or not it then finished. */
  predicate Takes(w: World, op: Op) {
    var r := RecoverPlan(w, op.first);
    && r.result.Returned? && op.lives >= |r.trace|
    && match op
       case Prepare(_, _, _) => Last(r.trace).ledger.Legacy? && Last(r.trace).anchor.None?
       case Save(cursor, _, _, _, lives) => SaveTakes(r, cursor, lives)
       case Clear(_, _, lives) => ClearTakes(r, lives)
  }

  // ---- one operation ------------------------------------------------------------------------

  lemma AtAfter<R>(first: Steps<bool>, rest: Steps<R>, lives: nat)
    requires first.trace != [] && rest.trace != [] && rest.trace[0] == Last(first.trace)
    ensures var plan := AfterRecovery(first, rest);
            At(plan.trace, lives) == if !first.result.Returned? || lives < |first.trace| then At(first.trace, lives)
                                     else At(rest.trace, lives + 1 - |first.trace|)
    ensures Ends(AfterRecovery(first, rest), lives).Returned? ==>
              first.result.Returned? && rest.result.Returned? && lives + 2 >= |first.trace| + |rest.trace|
  {
  }

  /** Operations on a settled world: what the part after recovery does. */
  lemma PrepareRestIsSafe(w: World, recovered: bool, cas: Cas, lives: nat)
    requires Settled(w)
    ensures var w' := At(PrepareRest(w, recovered, cas).trace, lives);
            && Healthy(w') && (w.anchor.Some? ==> w' == w)
            && (Tip(w') == Tip(w) || (Tip(w').Some? && BuildsOn(Tip(w), Tip(w').value)))
  {
    if w.ledger.Legacy? && w.anchor.None? {
      PublishIsSafe(w, Seal(1, NoReceipt, Some(Projected(w.ledger.goal))), cas, lives);
    }
  }

  lemma SaveRestIsSafe(w: World, cursor: nat, goal: Goal, cas: Cas, lives: nat)
    requires Settled(w)
    ensures var plan := SaveRest(w, cursor, goal, cas);
            var w' := At(plan.trace, lives);
            var base := SaveBase(w, cursor);
            && Healthy(w') && (w.anchor.Some? ==> w'.anchor.Some?) && !base.Died?
            && Tip(w') == (if base.Returned? && lives > 0 then Some(Seal(base.value.0 + 1, base.value.1, Some(goal)))
                           else Tip(w))
            && (base.Returned? && w.anchor.Some? ==>
                  && Tip(w).Some? && base.value == (Tip(w).value.sequence, Tip(w).value.receipt)
                  && (cursor != 0 ==> Tip(w).value.sequence == cursor && Tip(w).value.content.Some?))
            && (plan.result.Returned? ==> base.Returned? && |plan.trace| == 4)
  {
    var base := SaveBase(w, cursor);
    if base.Returned? {
      PublishIsSafe(w, Seal(base.value.0 + 1, base.value.1, Some(goal)), cas, lives);
    }
  }

  lemma ClearRestIsSafe(w: World, cas: Cas, lives: nat)
    requires Settled(w)
    ensures var plan := ClearRest(w, cas);
            var w' := At(plan.trace, lives);
            && Healthy(w') && (w.anchor.Some? ==> w'.anchor.Some?)
            && (Clears(w) ==> Tip(w).Some?)
            && Tip(w') == (if Clears(w) && lives > 0
                           then Some(Seal(Tip(w).value.sequence + 1, Tip(w).value.receipt, None))
                           else Tip(w))
            && (plan.result == Returned(true) ==> Clears(w) && |plan.trace| == 4)
  {
    if Clears(w) {
      var p := w.ledger.entry;
      PublishIsSafe(w, Seal(p.sequence + 1, p.receipt, None), cas, lives);
    }
  }

  /** `q` is signed on top of `t`, or is a first entry. */
  predicate BuildsOn(t: Option<Entry>, q: Entry) {
    match t
    case None => q.sequence == 1
    case Some(p) => Follows(q, p)
  }

  /** The one state whose stage recovery throws away: a first stage, never anchored, over a
      surviving legacy ledger. */
  predicate Discards(w: World) {
    w.anchor.None? && w.ledger.Legacy? && w.pending.Some?
  }

  /** A tip stays, or an entry is signed on top of it; only a discarded first stage may
      vanish or be replaced, by another first entry. */
  predicate TipMoves(before: World, after: World) {
    && (before.anchor.Some? ==> after.anchor.Some? && Tip(before).Some? && Tip(after).Some?)
    && (|| Tip(after) == Tip(before)
        || (Tip(after).Some? && BuildsOn(Tip(before), Tip(after).value))
        || (Discards(before) && (Tip(after).Some? ==> Tip(after).value.sequence == 1)))
  }

  /** What every operation may rely on about the recovery it begins with. */
  ghost predicate RecoversFrom(w: World, r: Steps<bool>, lives: nat) {
    && r.trace != [] && !r.result.Died?
    && Healthy(At(r.trace, lives)) && TipMoves(w, At(r.trace, lives))
    && (w.anchor.Some? ==> Tip(At(r.trace, lives)) == Tip(w))
    && (r.result.Returned? ==>
          && Settled(Last(r.trace)) && (w.anchor.Some? ==> Last(r.trace).anchor.Some?)
          && (Tip(Last(r.trace)) == Tip(w) || (Discards(w) && Tip(Last(r.trace)).None?)))
  }

  lemma RecoveryRecovers(w: World, cas: Cas, lives: nat)
    requires Healthy(w)
    ensures RecoversFrom(w, RecoverPlan(w, cas), lives)
  {
    RecoverIsSafe(w, cas, lives);
    RecoverIsSafe(w, cas, |RecoverPlan(w, cas).trace|);
  }

  lemma PrepareAfter(w: World, r: Steps<bool>, second: Cas, lives: nat)
    requires RecoversFrom(w, r, lives)
    ensures var rest := PrepareRest(Last(r.trace), r.result.Returned? && r.result.value, second);
            var w' := At(AfterRecovery(r, rest).trace, lives);
            Healthy(w') && TipMoves(w, w')
  {
    var rest := PrepareRest(Last(r.trace), r.result.Returned? && r.result.value, second);
    AtAfter(r, rest, lives);
    if r.result.Returned? && lives >= |r.trace| {
      PrepareRestIsSafe(Last(r.trace), r.result.value, second, lives + 1 - |r.trace|);
    }
  }

  predicate SaveTakes(r: Steps<bool>, cursor: nat, lives: nat)
    requires r.trace != []
  {
    r.result.Returned? && lives >= |r.trace| && SaveBase(Last(r.trace), cursor).Returned?
  }

  lemma SaveAfter(w: World, r: Steps<bool>, cursor: nat, goal: Goal, second: Cas, lives: nat)
    requires RecoversFrom(w, r, lives)
    ensures var plan := AfterRecovery(r, SaveRest(Last(r.trace), cursor, goal, second));
            var w' := At(plan.trace, lives);
            && Healthy(w') && TipMoves(w, w')
            && (Ends(plan, lives).Returned? ==> SaveTakes(r, cursor, lives))
            && (w.anchor.Some? && !SaveTakes(r, cursor, lives) ==> Tip(w') == Tip(w))
            && (w.anchor.Some? && SaveTakes(r, cursor, lives) ==>
                  && Tip(w').value == Seal(Tip(w).value.sequence + 1, Tip(w).value.receipt, Some(goal))
                  && (cursor != 0 ==> Tip(w).value.sequence == cursor && Tip(w).value.content.Some?))
  {
    AtAfter(r, SaveRest(Last(r.trace), cursor, goal, second), lives);
    if r.result.Returned? {
      SaveRestIsSafe(Last(r.trace), cursor, goal, second, if lives < |r.trace| then 0 else lives + 1 - |r.trace|);
    }
  }

  predicate ClearTakes(r: Steps<bool>, lives: nat)
    requires r.trace != []
  {
    r.result.Returned? && lives >= |r.trace| && Clears(Last(r.trace))
  }

  lemma ClearAfter(w: World, r: Steps<bool>, second: Cas, lives: nat)
    requires RecoversFrom(w, r, lives)
    ensures var plan := AfterRecovery(r, ClearRest(Last(r.trace), second));
            var w' := At(plan.trace, lives);
            && Healthy(w') && TipMoves(w, w')
            && (Ends(plan, lives) == Returned(true) ==> ClearTakes(r, lives))
            && (w.anchor.Some? && !ClearTakes(r, lives) ==> Tip(w') == Tip(w))
            && (w.anchor.Some? && ClearTakes(r, lives) ==>
                  Tip(w').value == Seal(Tip(w).value.sequence + 1, Tip(w).value.receipt, None))
  {
    AtAfter(r, ClearRest(Last(r.trace), second), lives);
    if r.result.Returned? {
      ClearRestIsSafe(Last(r.trace), second, if lives < |r.trace| then 0 else lives + 1 - |r.trace|);
    }
  }

  lemma PrepareStep(w: World, first: Cas, second: Cas, lives: nat)
    requires Healthy(w)
    ensures var w' := Next(w, Prepare(first, second, lives));
            Healthy(w') && TipMoves(w, w')
  {
    RecoveryRecovers(w, first, lives);
    PrepareAfter(w, RecoverPlan(w, first), second, lives);
  }

  lemma SaveStep(w: World, cursor: nat, goal: Goal, first: Cas, second: Cas, lives: nat)
    requires Healthy(w)
    ensures var op := Save(cursor, goal, first, second, lives);
            var w' := Next(w, op);
            && Healthy(w') && TipMoves(w, w')
            && (Succeeded(w, op) ==> Takes(w, op))
            && (w.anchor.Some? && !Takes(w, op) ==> Tip(w') == Tip(w))
            && (w.anchor.Some? && Takes(w, op) ==>
                  && Tip(w').value == Seal(Tip(w).value.sequence + 1, Tip(w).value.receipt, Some(goal))
                  && (cursor != 0 ==> Tip(w).value.sequence == cursor && Tip(w).value.content.Some?))
  {
    RecoveryRecovers(w, first, lives);
    SaveAfter(w, RecoverPlan(w, first), cursor, goal, second, lives);
  }

  lemma ClearStep(w: World, first: Cas, second: Cas, lives: nat)
    requires Healthy(w)
    ensures var op := Clear(first, second, lives);
            var w' := Next(w, op);
            && Healthy(w') && TipMoves(w, w')
            && (Succeeded(w, op) ==> Takes(w, op))
            && (w.anchor.Some? && !Takes(w, op) ==> Tip(w') == Tip(w))
            && (w.anchor.Some? && Takes(w, op) ==>
                  Tip(w').value == Seal(Tip(w).value.sequence + 1, Tip(w).value.receipt, None))
  {
    if !(w.ledger.Missing? && w.pending.None?) {
      RecoveryRecovers(w, first, lives);
      ClearAfter(w, RecoverPlan(w, first), second, lives);
    }
  }

  lemma OpStep(w: World, op: Op)
    requires Healthy(w)
    ensures Healthy(Next(w, op)) && TipMoves(w, Next(w, op))
  {
    match op
    case Prepare(first, second, lives) => PrepareStep(w, first, second, lives);
    case Save(cursor, goal, first, second, lives) => SaveStep(w, cursor, goal, first, second, lives);
    case Clear(first, second, lives) => ClearStep(w, first, second, lives);
  }

  // ---- whole runs ---------------------------------------------------------------------------

  /** `after` holds `before`'s tip, or one signed later. */
  predicate TipKept(before: World, after: World) {
    before.anchor.Some? ==>
      && after.anchor.Some? && Tip(before).Some? && Tip(after).Some?
      && (Tip(after) == Tip(before) || Tip(after).value.sequence > Tip(before).value.sequence)
  }

  ghost predicate TipsMove(ws: seq<World>) {
    && (forall k | 0 <= k < |ws| :: Healthy(ws[k]))
    && (forall k | 0 <= k < |ws| - 1 :: TipMoves(ws[k], ws[k + 1]))
  }

  /** Every run from a healthy ledger stays healthy, however often processes die. */
  lemma {:induction false} RunIsSafe(ws: seq<World>, ops: seq<Op>)
    requires Path(ws, ops) && Healthy(ws[0])
    ensures TipsMove(ws)
  {
    if ops != [] {
      var n := |ops| - 1;
      assert Path(ws[..n + 1], ops[..n]);
      RunIsSafe(ws[..n + 1], ops[..n]);
      assert ws[n + 1] == Next(ws[n], ops[n]);
      var before, after := ws[n], ws[n + 1];
      SafeSnoc(ws, n, before, after, ops[n]);
    }
  }

  lemma SafeSnoc(ws: seq<World>, n: nat, before: World, after: World, op: Op)
    requires |ws| == n + 2 && TipsMove(ws[..n + 1]) && before == ws[n] && after == ws[n + 1] == Next(before, op)
    ensures TipsMove(ws)
  {
    assert Healthy(ws[..n + 1][n]);
    OpStep(before, op);
    forall k | 0 <= k < |ws| - 1
      ensures Healthy(ws[k]) && TipMoves(ws[k], ws[k + 1])
    {
      if k < n {
        assert TipMoves(ws[..n + 1][k], ws[..n + 1][k + 1]) && Healthy(ws[..n + 1][k]);
      }
    }
  }

  lemma KeptThenMoved(a: World, b: World, c: World)
    requires TipKept(a, b) && TipMoves(b, c)
    ensures TipKept(a, c)
  {
  }

  lemma KeptAtOnce(w: World)
    requires Healthy(w)
    ensures TipKept(w, w)
  {
  }

  lemma {:induction false} TipOnlyGrows(ws: seq<World>, i: nat, j: nat)
    requires TipsMove(ws) && i <= j < |ws|
    ensures TipKept(ws[i], ws[j])
    decreases j
  {
    if i == j {
      KeptAtOnce(ws[i]);
    } else {
      TipOnlyGrows(ws, i, j - 1);
      assert TipMoves(ws[j - 1], ws[j - 1 + 1]);
      KeptThenMoved(ws[i], ws[j - 1], ws[j]);
    }
  }

  /** Of all saves of records loaded at one sequence, at most one is ever staged -- so at
      most one succeeds, and at most one is ever committed. */
  lemma AtMostOneSaveTakes(ws: seq<World>, ops: seq<Op>, i: nat, j: nat)
    requires Path(ws, ops) && Healthy(ws[0]) && ws[0].anchor.Some? && i < j < |ops|
    requires ops[i].Save? && ops[j].Save? && ops[i].cursor == ops[j].cursor != 0
    requires Takes(ws[i], ops[i])
    ensures !Takes(ws[j], ops[j]) && !Succeeded(ws[j], ops[j])
  {
    RunIsSafe(ws, ops);
    TipOnlyGrows(ws, 0, i);
    TipOnlyGrows(ws, i + 1, j);
    SaveAgain(ws[i], ops[i], ws[j], ops[j]);
  }

  lemma SaveAgain(a: World, first: Op, b: World, second: Op)
    requires Healthy(a) && Healthy(b) && a.anchor.Some? && TipKept(Next(a, first), b)
    requires first.Save? && second.Save? && first.cursor == second.cursor != 0 && Takes(a, first)
    ensures !Takes(b, second) && !Succeeded(b, second)
  {
    SaveStep(a, first.cursor, first.goal, first.first, first.second, first.lives);
    SaveStep(b, second.cursor, second.goal, second.first, second.second, second.lives);
  }

  /** Once a clear has buried a goal at sequence `t`, no record loaded at or before `t` can
      ever be saved again. */
  lemma ClearedGoalStaysCleared(ws: seq<World>, ops: seq<Op>, i: nat, j: nat)
    requires Path(ws, ops) && Healthy(ws[0]) && ws[0].anchor.Some? && i < j < |ops|
    requires ops[i].Clear? && Takes(ws[i], ops[i]) && ops[j].Save?
    ensures var buried := Tip(ws[i + 1]);
            && buried.Some? && buried.value.content.None?
            && (0 < ops[j].cursor <= buried.value.sequence ==>
                  !Takes(ws[j], ops[j]) && !Succeeded(ws[j], ops[j]))
  {
    RunIsSafe(ws, ops);
    TipOnlyGrows(ws, 0, i);
    TipOnlyGrows(ws, i + 1, j);
    SaveAfterClear(ws[i], ops[i], ws[j], ops[j]);
  }

  lemma SaveAfterClear(a: World, clear: Op, b: World, save: Op)
    requires Healthy(a) && Healthy(b) && a.anchor.Some? && TipKept(Next(a, clear), b)
    requires clear.Clear? && save.Save? && Takes(a, clear)
    ensures var buried := Tip(Next(a, clear));
            && buried.Some? && buried.value.content.None?
            && (0 < save.cursor <= buried.value.sequence ==> !Takes(b, save) && !Succeeded(b, save))
  {
    ClearStep(a, clear.first, clear.second, clear.lives);
    SaveStep(b, save.cursor, save.goal, save.first, save.second, save.lives);
  }

  // ---- failed saves that are committed later ------------------------------------------------------

  /** One completed recovery leaves an anchored ledger on its tip. */
  lemma RecoverySettlesOnTip(w: World)
    requires Healthy(w) && w.anchor.Some?
    ensures Tip(w).Some?
    ensures Last(RecoverPlan(w, Lands).trace) == World(None, Some(HeadOf(Tip(w).value)), Protected(Tip(w).value))
  {
    RecoveryRollsForward(w);
  }

  /** The next completed recovery commits what a save wrote, however the save ended. */
  ghost predicate CommittedByRecovery(w: World, op: Op)
    requires op.Save? && Tip(w).Some?
  {
    var p := Seal(Tip(w).value.sequence + 1, Tip(w).value.receipt, Some(op.goal));
    Last(RecoverPlan(Next(w, op), Lands).trace) == World(None, Some(HeadOf(p)), Protected(p))
  }

  /** Exactly when a save is committed by the next recovery: when it got as far as its
      stage, whether it then returned, raised or died. */
  lemma SaveCommitsExactly(w: World, cursor: nat, goal: Goal, first: Cas, second: Cas, lives: nat)
    requires Healthy(w) && w.anchor.Some?
    ensures Tip(w).Some?
    ensures var op := Save(cursor, goal, first, second, lives);
            CommittedByRecovery(w, op) <==> Takes(w, op)
  {
    var op := Save(cursor, goal, first, second, lives);
    var w' := Next(w, op);
    AnchoredHasTip(w);
    SaveStep(w, cursor, goal, first, second, lives);
    RecoverySettlesOnTip(w');
  }

  lemma AnchoredHasTip(w: World)
    requires Healthy(w) && w.anchor.Some?
    ensures Tip(w).Some?
  {
  }

  /** The condition in terms a caller can check, on a ledger with nothing pending: the save
      is new or carries the current sequence of a goal that was not cleared.  It is
      committed although it failed exactly when, besides, the compare-and-set did not
      report success or the process died before the move. */
  lemma FailedSaveCommitsExactly(w: World, cursor: nat, goal: Goal, first: Cas, second: Cas, lives: nat)
    requires LedgerAnchored(w) && w.pending.None?
    ensures Tip(w).Some?
    ensures var op := Save(cursor, goal, first, second, lives);
            var current := w.ledger.entry;
            var admitted := cursor == 0 || (cursor == current.sequence && current.content.Some?);
            && (CommittedByRecovery(w, op) <==> admitted && lives >= 1)
            && (CommittedByRecovery(w, op) && !Succeeded(w, op) <==>
                admitted && lives >= 1 && !(second.Lands? && lives >= 3))
  {
    var op := Save(cursor, goal, first, second, lives);
    SaveCommitsExactly(w, cursor, goal, first, second, lives);
    SettledSave(w, cursor, goal, first, second, lives);
  }

  lemma SettledSave(w: World, cursor: nat, goal: Goal, first: Cas, second: Cas, lives: nat)
    requires LedgerAnchored(w) && w.pending.None?
    ensures var op := Save(cursor, goal, first, second, lives);
            var current := w.ledger.entry;
            var admitted := cursor == 0 || (cursor == current.sequence && current.content.Some?);
            && (Takes(w, op) <==> admitted && lives >= 1)
            && (Succeeded(w, op) <==> admitted && second.Lands? && lives >= 3)
  {
  }

  /** Such inputs exist: a refused compare-and-set raises, and the save is committed. */
  lemma RefusedSaveCommitsLater(w: World, goal: Goal, first: Cas, lives: nat)
    requires LedgerAnchored(w) && w.pending.None? && lives >= 1
    ensures Tip(w).Some? && CommittedByRecovery(w, Save(0, goal, first, Refused, lives))
    ensures Ends(SavePlan(w, 0, goal, first, Refused), lives) == Raised(AdvanceFailed)
  {
    FailedSaveCommitsExactly(w, 0, goal, first, Refused, lives);
  }
}
