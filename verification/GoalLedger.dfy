/** The protected goal ledger: stage, anchor, publish by atomic move; and the recovery that
    rolls a staged transaction forward.  Saves carry the sequence they were loaded at. */
module GoalLedger {
  import opened Options
  import opened StoreAnchor

  datatype Goal = Goal(text: nat, blocked: bool)
  /** A ledger without a goal is a tombstone. */
  type Entry = Payload<Option<Goal>>
  type Link = Receipt<Option<Goal>>

  datatype Ledger = Missing | Legacy(goal: Goal) | Unsupported | Protected(entry: Entry)

  datatype World = World(pending: Option<Entry>, anchor: Option<Head<Option<Goal>>>, ledger: Ledger)

  datatype Problem =
    | Unauthentic | RolledBack | SequenceInvalid | MissingAnchorConflict | LedgerMissing | LedgerMalformed
    | StoreConflict | UnsupportedSchema | Stale | AlreadyCleared | AdvanceFailed

  type Steps<R> = Plan<World, R, Problem>

  function Stays<R>(w: World, result: Outcome<R, Problem>): Steps<R> {
    Plan([w], result)
  }

  function Moved(w: World, p: Entry): World {
    w.(pending := None, ledger := Protected(p))
  }

  /** Anchor a staged entry and move it into place. */
  function CommitPlan(w: World, p: Entry, cas: Cas): (plan: Steps<()>)
    ensures plan.trace != [] && plan.trace[0] == w
  {
    if Landed(w.anchor, p, cas) then
      var anchored := w.(anchor := Some(HeadOf(p)));
      if cas.Lands? then Plan([w, anchored, Moved(anchored, p)], Returned(()))
      else Plan([w, anchored], Raised(AdvanceFailed))
    else Stays(w, Raised(AdvanceFailed))
  }

  /** `_publish_protected_goal_payload_unlocked` */
  function PublishPlan(w: World, p: Entry, cas: Cas): (plan: Steps<()>)
    ensures plan.trace != [] && plan.trace[0] == w
  {
    var commit := CommitPlan(w.(pending := Some(p)), p, cas);
    Plan([w] + commit.trace, commit.result)
  }

  function Then<A, B>(first: Steps<A>, value: B): Steps<B> {
    Plan(first.trace, match first.result
                      case Returned(_) => Returned(value)
                      case Raised(problem) => Raised(problem)
                      case Died => Died)
  }

  /** `_recover_protected_goal_store_unlocked` */
  function RecoverPlan(w: World, cas: Cas): (plan: Steps<bool>)
    ensures plan.trace != [] && plan.trace[0] == w
  {
    if w.pending.None? then Stays(w, Returned(false))
    else
      var p := w.pending.value;
      if !Authentic(p) then Stays(w, Raised(Unauthentic))
      else if Anchors(w.anchor, p) then Plan([w, Moved(w, p)], Returned(true))
      else if w.anchor.None? && p.sequence == 1 && p.previous.NoReceipt? && !w.ledger.Missing? then
        if w.ledger.Legacy? then Plan([w, w.(pending := None)], Returned(true))
        else Stays(w, Raised(MissingAnchorConflict))
      else if !Succeeds(w.anchor, p) then Stays(w, Raised(SequenceInvalid))
      else Then(CommitPlan(w, p, cas), true)
  }

  /** Recovery first, then an operation on what it leaves. */
  function AfterRecovery<R>(first: Steps<bool>, rest: Steps<R>): (plan: Steps<R>)
    requires first.trace != [] && rest.trace != []
    ensures plan.trace != [] && plan.trace[0] == first.trace[0]
  {
    match first.result
    case Returned(_) => Plan(first.trace + rest.trace[1..], rest.result)
    case Raised(problem) => Plan(first.trace, Raised(problem))
    case Died => Plan(first.trace, Died)
  }

  /** `_validate_protected_ledger` against the anchor. */
  function Check(w: World, p: Entry): Option<Problem> {
    if !Authentic(p) then Some(Unauthentic)
    else if !Anchors(w.anchor, p) then Some(RolledBack)
    else None
  }

  function Projected(g: Goal): Goal {
    g.(blocked := true)
  }

  /** What `prepare_protected_goal_store` does after recovery. */
  function PrepareRest(w: World, recovered: bool, cas: Cas): (plan: Steps<bool>)
    ensures plan.trace != [] && plan.trace[0] == w
  {
    match w.ledger
    case Missing => Stays(w, if w.anchor.Some? then Raised(LedgerMissing) else Returned(recovered))
    case Unsupported => Stays(w, Raised(UnsupportedSchema))
    case Legacy(goal) =>
      if w.anchor.Some? then Stays(w, Raised(StoreConflict))
      else Then(PublishPlan(w, Seal(1, NoReceipt, Some(Projected(goal))), cas), true)
    case Protected(p) =>
      Stays(w, match Check(w, p) case Some(problem) => Raised(problem) case None => Returned(recovered))
  }

  function PreparePlan(w: World, first: Cas, second: Cas): (plan: Steps<bool>)
    ensures plan.trace != [] && plan.trace[0] == w
  {
    var r := RecoverPlan(w, first);
    AfterRecovery(r, PrepareRest(Last(r.trace), r.result.Returned? && r.result.value, second))
  }

  /** The entry a save builds on, or why it is refused.  A zero cursor is a new record. */
  function SaveBase(w: World, cursor: nat): Outcome<(nat, Link), Problem> {
    match w.ledger
    case Missing => if w.anchor.Some? then Raised(LedgerMissing) else Returned((0, NoReceipt))
    case Unsupported => Raised(UnsupportedSchema)
    case Legacy(_) => if w.anchor.Some? then Raised(StoreConflict) else Returned((0, NoReceipt))
    case Protected(p) =>
      if Check(w, p).Some? then Raised(Check(w, p).value)
      else if cursor != 0 && cursor != p.sequence then Raised(Stale)
      else if p.content.None? && cursor != 0 then Raised(AlreadyCleared)
      else Returned((p.sequence, p.receipt))
  }

  /** What a save does after recovery; it returns the record's new cursor. */
  function SaveRest(w: World, cursor: nat, goal: Goal, cas: Cas): (plan: Steps<nat>)
    ensures plan.trace != [] && plan.trace[0] == w
  {
    match SaveBase(w, cursor)
    case Returned(base) => Then(PublishPlan(w, Seal(base.0 + 1, base.1, Some(goal)), cas), base.0 + 1)
    case Raised(problem) => Stays(w, Raised(problem))
    case Died => Stays(w, Died)
  }

  function SavePlan(w: World, cursor: nat, goal: Goal, first: Cas, second: Cas): (plan: Steps<nat>)
    ensures plan.trace != [] && plan.trace[0] == w
  {
    var r := RecoverPlan(w, first);
    AfterRecovery(r, SaveRest(Last(r.trace), cursor, goal, second))
  }

  /** The goal a clear would bury. */
  predicate Clears(w: World) {
    w.ledger.Protected? && Check(w, w.ledger.entry).None? && w.ledger.entry.content.Some?
  }

  function ClearRest(w: World, cas: Cas): (plan: Steps<bool>)
    ensures plan.trace != [] && plan.trace[0] == w
  {
    match w.ledger
    case Missing => Stays(w, Returned(false))
    case Unsupported => Stays(w, Raised(LedgerMalformed))
    case Legacy(_) => Stays(w, Raised(LedgerMalformed))
    case Protected(p) =>
      if Check(w, p).Some? then Stays(w, Raised(Check(w, p).value))
      else if p.content.None? then Stays(w, Returned(false))
      else Then(PublishPlan(w, Seal(p.sequence + 1, p.receipt, None), cas), true)
  }

  function ClearPlan(w: World, first: Cas, second: Cas): (plan: Steps<bool>)
    ensures plan.trace != [] && plan.trace[0] == w
  {
    if w.ledger.Missing? && w.pending.None? then Stays(w, Returned(false))
    else
      var r := RecoverPlan(w, first);
      AfterRecovery(r, ClearRest(Last(r.trace), second))
  }

  // ---- what every crash leaves --------------------------------------------------------------

  /** Never anchored: at most an unanchored first stage. */
  predicate Fresh(w: World) {
    && w.anchor.None? && !w.ledger.Protected?
    && (w.pending.Some? ==> Authentic(w.pending.value) && w.pending.value.sequence == 1)
  }

  /** The ledger is anchored; a stage, if any, is its successor. */
  predicate LedgerAnchored(w: World) {
    && w.ledger.Protected? && Authentic(w.ledger.entry) && Anchors(w.anchor, w.ledger.entry)
    && (w.pending.Some? ==> Authentic(w.pending.value) && Follows(w.pending.value, w.ledger.entry))
  }

  /** The stage is anchored and the ledger is its predecessor. */
  predicate StageAnchored(w: World) {
    && w.pending.Some? && Authentic(w.pending.value) && Anchors(w.anchor, w.pending.value)
    && if w.ledger.Protected? then Authentic(w.ledger.entry) && Follows(w.pending.value, w.ledger.entry)
       else w.pending.value.sequence == 1
  }

  predicate Healthy(w: World) {
    Fresh(w) || LedgerAnchored(w) || StageAnchored(w)
  }

  /** The newest entry that recovery will settle on. */
  function Tip(w: World): Option<Entry> {
    if w.pending.Some? then w.pending
    else if w.ledger.Protected? then Some(w.ledger.entry)
    else None
  }

  predicate Settled(w: World) {
    Healthy(w) && w.pending.None?
  }

  /** Recovery commits a staged successor, whatever instant the process died at -- except
      that a first stage over a surviving unprotected ledger is not committed. */
  lemma RecoveryRollsForward(w: World)
    requires Healthy(w)
    ensures var plan := RecoverPlan(w, Lands);
            var w' := Last(plan.trace);
            if w.pending.None? then plan == Plan([w], Returned(false))
            else if w.anchor.None? && !w.ledger.Missing? then
              if w.ledger.Legacy? then plan.result == Returned(true) && w' == w.(pending := None)
              else plan == Plan([w], Raised(MissingAnchorConflict))
            else
              && plan.result == Returned(true)
              && w' == World(None, Some(HeadOf(w.pending.value)), Protected(w.pending.value))
              && Settled(w')
  {
  }

  /** Dying inside recovery, or a refused or unreported compare-and-set, moves no target. */
  lemma RecoverIsSafe(w: World, cas: Cas, lives: nat)
    requires Healthy(w)
    ensures var plan := RecoverPlan(w, cas);
            var w' := At(plan.trace, lives);
            && Healthy(w') && !plan.result.Died? && (w.anchor.Some? ==> w'.anchor.Some?)
            && (Tip(w') == Tip(w) || (w.anchor.None? && w.ledger.Legacy? && w' == w.(pending := None)))
            && (w'.anchor.None? ==> w'.ledger == w.ledger)
            && (w.anchor.None? && w.ledger.Legacy? ==> w'.anchor.None?)
            && (plan.result.Returned? && |plan.trace| <= lives + 1 ==> w'.pending.None?)
  {
  }

  datatype Attempt = Attempt(cas: Cas, lives: nat)

  function Recoveries(w: World, tries: seq<Attempt>): World {
    if tries == [] then w
    else
      var n := |tries| - 1;
      At(RecoverPlan(Recoveries(w, tries[..n]), tries[n].cas).trace, tries[n].lives)
  }

  lemma {:induction false} RecoveriesAreSafe(w: World, tries: seq<Attempt>)
    requires Healthy(w) && !(w.anchor.None? && !w.ledger.Missing?)
    ensures var w' := Recoveries(w, tries);
            Healthy(w') && Tip(w') == Tip(w) && !(w'.anchor.None? && !w'.ledger.Missing?)
  {
    if tries != [] {
      var n := |tries| - 1;
      RecoveriesAreSafe(w, tries[..n]);
      RecoverIsSafe(Recoveries(w, tries[..n]), tries[n].cas, tries[n].lives);
    }
  }

  /** Publishing over an anchored or empty store, dying anywhere after the stage is written,
      then recovering with any number of interruptions: one completed recovery commits the
      staged entry, with ledger equal to anchor and nothing pending. */
  lemma InterruptedPublishCommits(w: World, content: Option<Goal>, cas: Cas, lives: nat, tries: seq<Attempt>)
    requires Settled(w) && (w.anchor.Some? || w.ledger.Missing?) && lives >= 1
    ensures var p := match Tip(w)
                     case None => Seal(1, NoReceipt, content)
                     case Some(t) => Seal(t.sequence + 1, t.receipt, content);
            var crashed := At(PublishPlan(w, p, cas).trace, lives);
            Last(RecoverPlan(Recoveries(crashed, tries), Lands).trace)
              == World(None, Some(HeadOf(p)), Protected(p))
  {
    var p := match Tip(w)
             case None => Seal(1, NoReceipt, content)
             case Some(t) => Seal(t.sequence + 1, t.receipt, content);
    PublishIsSafe(w, p, cas, lives);
    var crashed := At(PublishPlan(w, p, cas).trace, lives);
    RecoveriesAreSafe(crashed, tries);
    RecoveryRollsForward(Recoveries(crashed, tries));
  }

  lemma PublishIsSafe(w: World, p: Entry, cas: Cas, lives: nat)
    requires Settled(w) && Authentic(p)
    requires match Tip(w) case None => p.sequence == 1 case Some(t) => Follows(p, t)
    ensures var w' := At(PublishPlan(w, p, cas).trace, lives);
            && Healthy(w') && (w.anchor.Some? ==> w'.anchor.Some?)
            && Tip(w') == (if lives == 0 then Tip(w) else Some(p))
            && (w'.anchor.None? ==> w'.ledger == w.ledger)
  {
  }
}
