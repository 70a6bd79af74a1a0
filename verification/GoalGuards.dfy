/** Exactly when each operation on the goal ledger returns, in every world, and what it then
    leaves. */
module GoalGuards {
  import opened Options
  import opened StoreAnchor
  import opened GoalLedger

  /** The ledger is protected and the anchor names it. */
  predicate Vouched(w: World) {
    w.ledger.Protected? && Authentic(w.ledger.entry) && Anchors(w.anchor, w.ledger.entry)
  }

  /** There is no protected history yet. */
  predicate Unprotected(w: World) {
    w.anchor.None? && (w.ledger.Missing? || w.ledger.Legacy?)
  }

  /** Recovery returns exactly when there is no stage, the anchor names the stage already, the
      stage is its successor and the compare-and-set succeeds, or the stage is a first one
      over a legacy ledger, to be discarded. */
  lemma RecoverReturnsExactly(w: World, cas: Cas)
    ensures RecoverPlan(w, cas).result.Returned? <==>
            w.pending.None? ||
            (var q := w.pending.value;
             && Authentic(q)
             && (|| Anchors(w.anchor, q)
                 || (w.anchor.Some? && q.sequence == w.anchor.value.sequence + 1
                     && q.previous == w.anchor.value.receipt && cas.Lands?)
                 || (w.anchor.None? && q.sequence == 1 && (w.ledger.Legacy? || (w.ledger.Missing? && cas.Lands?)))))
  {
  }

  /** And then nothing is pending: the stage is the anchored ledger, or was discarded. */
  lemma RecoveredIsVouched(w: World, cas: Cas)
    requires RecoverPlan(w, cas).result.Returned?
    ensures var w' := Last(RecoverPlan(w, cas).trace);
            && w'.pending.None?
            && (w.pending.None? ==> w' == w)
            && (w.pending.Some? ==>
                  if w.anchor.None? && w.ledger.Legacy? then w'.ledger == w.ledger && w'.anchor.None?
                  else Vouched(w') && w'.ledger.entry == w.pending.value)
  {
  }

  /** With nothing pending, preparation returns exactly when the ledger is vouched for or is
      unprotected; a legacy goal is migrated, blocked, as the first entry. */
  lemma PrepareReturnsExactly(w: World, recovered: bool, cas: Cas)
    requires w.pending.None?
    ensures var plan := PrepareRest(w, recovered, cas);
            var w' := Last(plan.trace);
            && (plan.result.Returned? <==> Vouched(w) || (Unprotected(w) && (w.ledger.Legacy? ==> cas.Lands?)))
            && (plan.result.Returned? ==> plan.result.value == (recovered || w.ledger.Legacy?))
            && (plan.result.Returned? && w.ledger.Legacy? ==>
                  && Vouched(w') && w'.ledger.entry.sequence == 1 && w'.ledger.entry.content.Some?
                  && w'.ledger.entry.content.value.text == w.ledger.goal.text
                  && w'.ledger.entry.content.value.blocked)
            && (plan.result.Returned? && !w.ledger.Legacy? ==> w' == w)
  {
  }

  /** With nothing pending, a save returns exactly when the ledger is unprotected, or vouched
      for and -- unless the record is new -- still holds the entry the record was loaded
      from; and the compare-and-set succeeds. */
  lemma SaveReturnsExactly(w: World, cursor: nat, goal: Goal, cas: Cas)
    requires w.pending.None?
    ensures var plan := SaveRest(w, cursor, goal, cas);
            var w' := Last(plan.trace);
            && (plan.result.Returned? <==>
                && cas.Lands?
                && (|| Unprotected(w)
                    || (Vouched(w) &&
                        (cursor == 0 || (cursor == w.ledger.entry.sequence && w.ledger.entry.content.Some?)))))
            && (plan.result.Returned? ==>
                  && Vouched(w') && w'.pending.None? && w'.ledger.entry.content == Some(goal)
                  && w'.ledger.entry.sequence == plan.result.value
                  && (if Vouched(w) then Follows(w'.ledger.entry, w.ledger.entry) else plan.result.value == 1))
  {
  }

  /** With nothing pending, a clear reports that it cleared exactly when a vouched ledger held
      a goal and the compare-and-set succeeds, and that there was nothing to clear exactly
      when the ledger is missing or a vouched tombstone. */
  lemma ClearReturnsExactly(w: World, cas: Cas)
    requires w.pending.None?
    ensures var plan := ClearRest(w, cas);
            var w' := Last(plan.trace);
            && (plan.result == Returned(true) <==> Vouched(w) && w.ledger.entry.content.Some? && cas.Lands?)
            && (plan.result == Returned(false) <==> w.ledger.Missing? || (Vouched(w) && w.ledger.entry.content.None?))
            && (plan.result == Returned(true) ==>
                  Vouched(w') && Follows(w'.ledger.entry, w.ledger.entry) && w'.ledger.entry.content.None?)
            && (plan.result == Returned(false) ==> w' == w)
  {
  }

  /** The reason recovery raises is true. */
  lemma RecoverProblemIsTrue(w: World, cas: Cas)
    requires RecoverPlan(w, cas).result.Raised?
    ensures w.pending.Some?
    ensures match RecoverPlan(w, cas).result.problem
            case Unauthentic => !Authentic(w.pending.value)
            case MissingAnchorConflict => w.anchor.None? && (w.ledger.Protected? || w.ledger.Unsupported?)
            case SequenceInvalid => !Anchors(w.anchor, w.pending.value) && !Succeeds(w.anchor, w.pending.value)
            case AdvanceFailed => !cas.Lands?
            case _ => false
  {
  }

  /** The reason a save is refused, with nothing pending, is true. */
  lemma SaveProblemIsTrue(w: World, cursor: nat, goal: Goal, cas: Cas)
    requires SaveRest(w, cursor, goal, cas).result.Raised?
    ensures match SaveRest(w, cursor, goal, cas).result.problem
            case LedgerMissing => w.ledger.Missing? && w.anchor.Some?
            case StoreConflict => w.ledger.Legacy? && w.anchor.Some?
            case UnsupportedSchema => w.ledger.Unsupported?
            case Unauthentic => w.ledger.Protected? && !Authentic(w.ledger.entry)
            case RolledBack => w.ledger.Protected? && !Anchors(w.anchor, w.ledger.entry)
            case Stale => w.ledger.Protected? && cursor != 0 && cursor != w.ledger.entry.sequence
            case AlreadyCleared => w.ledger.Protected? && cursor != 0 && w.ledger.entry.content.None?
            case AdvanceFailed => !cas.Lands?
            case _ => false
  {
  }
}
