/** The goal ledger's operations as they run: one durable write after another, in a process
    that may die before any of them. */
module GoalFiles {
  import opened Options
  import opened StoreAnchor
  import opened GoalLedger
  import R = GoalRuns

  /** Recovery and what follows it, in a process with `lives` writes left. */
  lemma Compose<T>(first: Steps<bool>, rest: Steps<T>, lives: nat)
    requires first.trace != [] && rest.trace != [] && rest.trace[0] == Last(first.trace)
    ensures var plan := AfterRecovery(first, rest);
            match Ends(first, lives)
            case Returned(_) => Ends(plan, lives) == Ends(rest, Left(first, lives))
                                && At(plan.trace, lives) == At(rest.trace, Left(first, lives))
            case Raised(problem) => Ends(plan, lives) == Raised(problem)
                                    && At(plan.trace, lives) == At(first.trace, lives)
            case Died => Ends(plan, lives) == Died && At(plan.trace, lives) == At(first.trace, lives)
  {
  }

  class ProtectedLedger {
    var pending: Option<Entry>
    var anchor: Option<Head<Option<Goal>>>
    var ledger: Ledger
    /** How many more durable writes this process completes before it dies. */
    var lives: nat

    constructor (w: World, lives: nat)
      ensures Durable() == w && this.lives == lives
    {
      pending, anchor, ledger, this.lives := w.pending, w.anchor, w.ledger, lives;
    }

    function Durable(): World
      reads this
    {
      World(pending, anchor, ledger)
    }

    method WritePending(p: Option<Entry>) returns (alive: bool)
      modifies this
      ensures alive <==> old(lives) > 0
      ensures Durable() == if alive then old(Durable()).(pending := p) else old(Durable())
      ensures lives == if alive then old(lives) - 1 else 0
    {
      if lives == 0 { return false; }
      pending, lives := p, lives - 1;
      return true;
    }

    /** The atomic move of the stage over the ledger. */
    method MoveStage(p: Entry) returns (alive: bool)
      modifies this
      ensures alive <==> old(lives) > 0
      ensures Durable() == if alive then Moved(old(Durable()), p) else old(Durable())
      ensures lives == if alive then old(lives) - 1 else 0
    {
      if lives == 0 { return false; }
      pending, ledger, lives := None, Protected(p), lives - 1;
      return true;
    }

    method Commit(p: Entry, cas: Cas) returns (result: Outcome<(), Problem>)
      modifies this
      ensures var plan := CommitPlan(old(Durable()), p, cas);
              && Durable() == At(plan.trace, old(lives))
              && result == Ends(plan, old(lives)) && lives == Left(plan, old(lives))
    {
      if !Succeeds(anchor, p) || cas.Refused? || cas.Unreachable? { return Raised(AdvanceFailed); }
      if lives == 0 { return Died; }
      anchor, lives := Some(HeadOf(p)), lives - 1;
      if !cas.Lands? { return Raised(AdvanceFailed); }
      var alive := MoveStage(p);
      return if alive then Returned(()) else Died;
    }

    method Publish(p: Entry, cas: Cas) returns (result: Outcome<(), Problem>)
      modifies this
      ensures var plan := PublishPlan(old(Durable()), p, cas);
              && Durable() == At(plan.trace, old(lives))
              && result == Ends(plan, old(lives)) && lives == Left(plan, old(lives))
    {
      var alive := WritePending(Some(p));
      if !alive { return Died; }
      result := Commit(p, cas);
    }

    method Recover(cas: Cas) returns (result: Outcome<bool, Problem>)
      modifies this
      ensures var plan := RecoverPlan(old(Durable()), cas);
              && Durable() == At(plan.trace, old(lives))
              && result == Ends(plan, old(lives)) && lives == Left(plan, old(lives))
    {
      if pending.None? { return Returned(false); }
      var p := pending.value;
      if !Authentic(p) { return Raised(Unauthentic); }
      var alive;
      if Anchors(anchor, p) {
        alive := MoveStage(p);
        return if alive then Returned(true) else Died;
      }
      if !Succeeds(anchor, p) { return Raised(SequenceInvalid); }
      if anchor.None? && !ledger.Missing? {
        if !ledger.Legacy? { return Raised(MissingAnchorConflict); }
        alive := WritePending(None);
        return if alive then Returned(true) else Died;
      }
      var committed := Commit(p, cas);
      match committed {
        case Died => return Died;
        case Raised(problem) => return Raised(problem);
        case Returned(_) => return Returned(true);
      }
    }

    method PrepareRecovered(recovered: bool, cas: Cas) returns (result: Outcome<bool, Problem>)
      modifies this
      ensures var plan := PrepareRest(old(Durable()), recovered, cas);
              && Durable() == At(plan.trace, old(lives)) && result == Ends(plan, old(lives))
    {
      match ledger {
        case Missing => return if anchor.Some? then Raised(LedgerMissing) else Returned(recovered);
        case Unsupported => return Raised(UnsupportedSchema);
        case Protected(p) =>
          var problem := Check(Durable(), p);
          return if problem.Some? then Raised(problem.value) else Returned(recovered);
        case Legacy(goal) =>
          if anchor.Some? { return Raised(StoreConflict); }
          var published := Publish(Seal(1, NoReceipt, Some(Projected(goal))), cas);
          match published {
            case Died => return Died;
            case Raised(problem) => return Raised(problem);
            case Returned(_) => return Returned(true);
          }
      }
    }

    method Prepare(first: Cas, second: Cas) returns (result: Outcome<bool, Problem>)
      modifies this
      ensures Durable() == R.Next(old(Durable()), R.Prepare(first, second, old(lives)))
      ensures Healthy(old(Durable())) ==> Healthy(Durable()) && R.TipMoves(old(Durable()), Durable())
      ensures result == Ends(PreparePlan(old(Durable()), first, second), old(lives))
    {
      if Healthy(Durable()) { R.OpStep(Durable(), R.Prepare(first, second, lives)); }
      ghost var r := RecoverPlan(Durable(), first);
      Compose(r, PrepareRest(Last(r.trace), r.result.Returned? && r.result.value, second), lives);
      var recovered := Recover(first);
      match recovered {
        case Died => return Died;
        case Raised(problem) => return Raised(problem);
        case Returned(v) => result := PrepareRecovered(v, second);
      }
    }

    method SaveRecovered(cursor: nat, goal: Goal, cas: Cas) returns (result: Outcome<nat, Problem>)
      modifies this
      ensures var plan := SaveRest(old(Durable()), cursor, goal, cas);
              && Durable() == At(plan.trace, old(lives)) && result == Ends(plan, old(lives))
    {
      var base := SaveBase(Durable(), cursor);
      match base {
        case Died => return Died;
        case Raised(problem) => return Raised(problem);
        case Returned(b) =>
          var published := Publish(Seal(b.0 + 1, b.1, Some(goal)), cas);
          match published {
            case Died => return Died;
            case Raised(problem) => return Raised(problem);
            case Returned(_) => return Returned(b.0 + 1);
          }
      }
    }

    /** `save_goal`: returns the cursor the record carries from now on. */
    method Save(cursor: nat, goal: Goal, first: Cas, second: Cas) returns (result: Outcome<nat, Problem>)
      modifies this
      ensures Durable() == R.Next(old(Durable()), R.Save(cursor, goal, first, second, old(lives)))
      ensures Healthy(old(Durable())) ==> Healthy(Durable()) && R.TipMoves(old(Durable()), Durable())
      ensures result == Ends(SavePlan(old(Durable()), cursor, goal, first, second), old(lives))
    {
      if Healthy(Durable()) { R.OpStep(Durable(), R.Save(cursor, goal, first, second, lives)); }
      ghost var r := RecoverPlan(Durable(), first);
      Compose(r, SaveRest(Last(r.trace), cursor, goal, second), lives);
      var recovered := Recover(first);
      match recovered {
        case Died => return Died;
        case Raised(problem) => return Raised(problem);
        case Returned(_) => result := SaveRecovered(cursor, goal, second);
      }
    }

    method ClearRecovered(cas: Cas) returns (result: Outcome<bool, Problem>)
      modifies this
      ensures var plan := ClearRest(old(Durable()), cas);
              && Durable() == At(plan.trace, old(lives)) && result == Ends(plan, old(lives))
    {
      if ledger.Missing? { return Returned(false); }
      if !ledger.Protected? { return Raised(LedgerMalformed); }
      var p := ledger.entry;
      var problem := Check(Durable(), p);
      if problem.Some? { return Raised(problem.value); }
      if p.content.None? { return Returned(false); }
      var published := Publish(Seal(p.sequence + 1, p.receipt, None), cas);
      match published {
        case Died => return Died;
        case Raised(problem) => return Raised(problem);
        case Returned(_) => return Returned(true);
      }
    }

    method Clear(first: Cas, second: Cas) returns (result: Outcome<bool, Problem>)
      modifies this
      ensures Durable() == R.Next(old(Durable()), R.Clear(first, second, old(lives)))
      ensures Healthy(old(Durable())) ==> Healthy(Durable()) && R.TipMoves(old(Durable()), Durable())
      ensures result == Ends(ClearPlan(old(Durable()), first, second), old(lives))
    {
      if Healthy(Durable()) { R.OpStep(Durable(), R.Clear(first, second, lives)); }
      if ledger.Missing? && pending.None? { return Returned(false); }
      ghost var r := RecoverPlan(Durable(), first);
      Compose(r, ClearRest(Last(r.trace), second), lives);
      var recovered := Recover(first);
      match recovered {
        case Died => return Died;
        case Raised(problem) => return Raised(problem);
        case Returned(_) => result := ClearRecovered(second);
      }
    }
  }
}
