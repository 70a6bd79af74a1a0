/** The thread store's operations as they run: one durable write after another, in a
    process that may die before any of them. */
module ThreadFiles {
  import opened Options
  import opened StoreAnchor
  import opened ThreadStore

  /** What a prepare leaves of a healthy store: nothing committed is touched, and a process
      that lives to the end settles whatever was anchored. */
  predicate Reconciled(before: World, after: World, result: Outcome<bool, Problem>) {
    && Healthy(after)
    && (before.anchor.Some? ==> after.anchor == before.anchor && Committed(after) == Committed(before))
    && (before.anchor.Some? && !result.Died? ==> Settled(after) && result.Returned?)
  }

  lemma PrepareReconciles(w: World, cas: Cas, lives: nat)
    ensures Healthy(w) ==>
              Reconciled(w, Next(w, Op.Prepare(cas, lives)), Ends(PreparePlan(w, cas), lives))
  {
    if Healthy(w) {
      RecoverIsSafe(w, cas, lives);
      PrepareSettles(w, cas);
    }
  }

  class ProtectedThreads {
    var pending: Option<Store>
    var anchor: Option<Head<Records>>
    var target: Target
    /** How many more durable writes this process completes before it dies. */
    var lives: nat

    constructor (w: World, lives: nat)
      ensures Durable() == w && this.lives == lives
    {
      pending, anchor, target, this.lives := w.pending, w.anchor, w.target, lives;
    }

    function Durable(): World
      reads this
    {
      World(pending, anchor, target)
    }

    method WritePending(p: Option<Store>) returns (alive: bool)
      modifies this
      ensures alive <==> old(lives) > 0
      ensures Durable() == if alive then old(Durable()).(pending := p) else old(Durable())
      ensures lives == if alive then old(lives) - 1 else 0
    {
      if lives == 0 { return false; }
      pending, lives := p, lives - 1;
      return true;
    }

    method WriteTarget(t: Target) returns (alive: bool)
      modifies this
      ensures alive <==> old(lives) > 0
      ensures Durable() == if alive then old(Durable()).(target := t) else old(Durable())
      ensures lives == if alive then old(lives) - 1 else 0
    {
      if lives == 0 { return false; }
      target, lives := t, lives - 1;
      return true;
    }

    /** The compare-and-set: `changed` is what it reports, which may differ from what it did. */
    method AdvanceAnchor(p: Store, cas: Cas) returns (alive: bool, changed: bool)
      modifies this
      ensures var lands := Landed(old(anchor), p, cas);
              && (alive <==> !lands || old(lives) > 0)
              && Durable() == (if lands && alive then old(Durable()).(anchor := Some(HeadOf(p))) else old(Durable()))
              && lives == (if lands && alive then old(lives) - 1 else old(lives))
              && (changed <==> alive && lands && cas.Lands?)
    {
      if !Succeeds(anchor, p) || cas.Refused? || cas.Unreachable? { return true, false; }
      if lives == 0 { return false, false; }
      anchor, lives := Some(HeadOf(p)), lives - 1;
      return true, cas.Lands?;
    }

    method Publish(records: Records, sequence: nat, receipt: Receipt<Records>, cas: Cas)
      returns (result: Outcome<(), Problem>)
      modifies this
      ensures var plan := PublishPlan(old(Durable()), records, sequence, receipt, cas);
              && Durable() == At(plan.trace, old(lives))
              && result == Ends(plan, old(lives)) && lives == Left(plan, old(lives))
    {
      var p := Seal(sequence + 1, receipt, records);
      var alive := WritePending(Some(p));
      if !alive { return Died; }
      var changed;
      alive, changed := AdvanceAnchor(p, cas);
      if !alive { return Died; }
      if !changed {
        if cas.Unreachable? { return Raised(AdvanceFailed); }
        var landed := anchor == Some(HeadOf(p));
        var retained := if anchor.None? then sequence == 0 && receipt.NoReceipt?
                        else anchor == Some(Head(sequence, receipt));
        if retained && !landed {
          alive := WritePending(None);
          if !alive { return Died; }
        }
        return Raised(AdvanceFailed);
      }
      alive := WriteTarget(Protected(p));
      if !alive { return Died; }
      alive := WritePending(None);
      return if alive then Returned(()) else Died;
    }

    method Recover(sequence: nat, receipt: Receipt<Records>, current: Option<Store>)
      returns (result: Outcome<Recovery, Problem>)
      modifies this
      ensures var plan := RecoverPlan(old(Durable()), sequence, receipt, current);
              && Durable() == At(plan.trace, old(lives))
              && result == Ends(plan, old(lives)) && lives == Left(plan, old(lives))
    {
      if pending.None? { return Returned(Recovery(None, false)); }
      var p := pending.value;
      if !Authentic(p) { return Raised(Unauthentic); }
      var alive;
      if current.Some? && p.sequence == sequence && p.receipt == receipt {
        if current.value != p { return Raised(PayloadInconsistent); }
        if !Anchors(anchor, p) { return Raised(RolledBack); }
        alive := WritePending(None);
        return if alive then Returned(Recovery(None, true)) else Died;
      }
      if p.sequence != sequence + 1 || p.previous != receipt { return Raised(SequenceInvalid); }
      if anchor.None? && (sequence != 0 || receipt.Signed?) { return Raised(AnchorMissing); }
      if anchor.None? || anchor == Some(Head(sequence, receipt)) {
        alive := WritePending(None);
        return if alive then Returned(Recovery(None, true)) else Died;
      }
      if !Anchors(anchor, p) { return Raised(AnchorInconsistent); }
      alive := WriteTarget(Protected(p));
      if !alive { return Died; }
      alive := WritePending(None);
      return if alive then Returned(Recovery(Some(p), true)) else Died;
    }

    method LoadProtected(p: Store, allowRecovery: bool) returns (result: Outcome<Loaded, Problem>)
      modifies this
      ensures var plan := LoadProtectedPlan(old(Durable()), p, allowRecovery);
              && Durable() == At(plan.trace, old(lives))
              && result == Ends(plan, old(lives)) && lives == Left(plan, old(lives))
    {
      if p.content == [] { return Raised(MarkerInconsistent); }
      if !Authentic(p) { return Raised(Unauthentic); }
      var staged, anchored := pending.Some?, Anchors(anchor, p);
      if !allowRecovery {
        if staged { return Raised(RecoveryRequired); }
        return if anchored then Returned(Opened(p, false)) else Raised(RolledBack);
      }
      if anchored && !staged { return Returned(Opened(p, false)); }
      var r := Recover(p.sequence, p.receipt, Some(p));
      match r {
        case Died => return Died;
        case Raised(problem) => return Raised(problem);
        case Returned(v) =>
          if v.recovered.Some? { return Returned(Opened(v.recovered.value, v.handled)); }
          return if anchored then Returned(Opened(p, v.handled)) else Raised(RolledBack);
      }
    }

    method LoadPlain(records: Records, allowFirst: bool, allowRecovery: bool) returns (result: Outcome<Loaded, Problem>)
      modifies this
      ensures var plan := LoadPlainPlan(old(Durable()), records, allowFirst, allowRecovery);
              && Durable() == At(plan.trace, old(lives))
              && result == Ends(plan, old(lives)) && lives == Left(plan, old(lives))
    {
      var staged := pending.Some?;
      if records == [] && !allowFirst && !staged {
        return if anchor.Some? then Raised(MissingOrRolledBack) else Returned(Loaded([], 0, NoReceipt, false, false));
      }
      if allowRecovery {
        var r := Recover(0, NoReceipt, None);
        match r {
          case Died => return Died;
          case Raised(problem) => return Raised(problem);
          case Returned(v) =>
            if v.recovered.Some? { return Returned(Opened(v.recovered.value, v.handled)); }
        }
      }
      if staged { return Raised(RecoveryRequired); }
      return if anchor.Some? then Raised(LegacyConflict) else Returned(Loaded(records, 0, NoReceipt, false, false));
    }

    method Load(allowFirst: bool, allowRecovery: bool) returns (result: Outcome<Loaded, Problem>)
      modifies this
      ensures var plan := LoadPlan(old(Durable()), allowFirst, allowRecovery);
              && Durable() == At(plan.trace, old(lives))
              && result == Ends(plan, old(lives)) && lives == Left(plan, old(lives))
    {
      match target {
        case Protected(p) => result := LoadProtected(p, allowRecovery);
        case Plain(records) => result := LoadPlain(records, allowFirst, allowRecovery);
        case Missing => result := LoadPlain([], allowFirst, allowRecovery);
      }
    }

    /** `prepare_protected_thread_store`; see `PrepareSettles` for what it achieves. */
    method Prepare(cas: Cas) returns (result: Outcome<bool, Problem>)
      modifies this
      ensures Durable() == Next(old(Durable()), Op.Prepare(cas, old(lives)))
      ensures result == Ends(PreparePlan(old(Durable()), cas), old(lives))
      ensures Healthy(old(Durable())) ==> Reconciled(old(Durable()), Durable(), result)
    {
      PrepareReconciles(Durable(), cas, lives);
      if target.Missing? && pending.None? {
        return if anchor.Some? then Raised(MissingOrRolledBack) else Returned(false);
      }
      var load := Load(false, true);
      match load {
        case Died => return Died;
        case Raised(problem) => return Raised(problem);
        case Returned(l) =>
          if l.records == [] || l.isProtected { return Returned(l.recovered); }
          var published := Publish(l.records, l.sequence, l.receipt, cas);
          match published {
            case Died => return Died;
            case Raised(problem) => return Raised(problem);
            case Returned(_) => return Returned(true);
          }
      }
    }

    method Mutate(update: Records -> Records, cas: Cas) returns (result: Outcome<(), Problem>)
      modifies this
      ensures Durable() == Next(old(Durable()), Op.Mutate(update, cas, old(lives)))
      ensures result == Ends(MutatePlan(old(Durable()), update, cas), old(lives))
      ensures Healthy(old(Durable())) && NeverEmpties(Op.Mutate(update, cas, old(lives))) ==>
                Healthy(Durable()) && Preserves(old(Durable()), Durable())
    {
      if Healthy(Durable()) && NeverEmpties(Op.Mutate(update, cas, lives)) {
        MutateIsSafe(Durable(), update, cas, lives);
      }
      var load := Load(true, false);
      match load {
        case Died => return Died;
        case Raised(problem) => return Raised(problem);
        case Returned(l) =>
          var records := Kept(update(l.records));
          if records == [] {
            var alive := WriteTarget(Plain([]));
            return if alive then Returned(()) else Died;
          }
          result := Publish(records, l.sequence, l.receipt, cas);
      }
    }
  }
}
