/** The protected agent-thread store: stage a pending file, advance the anchor, write the
    target, discard the stage; and the recovery that rolls an unanchored stage back. */
module ThreadStore {
  import opened Options
  import opened StoreAnchor

  type Records = seq<nat>
  type Store = Payload<Records>

  /** A missing file, a file without protected records, or one with them. */
  datatype Target = Missing | Plain(records: Records) | Protected(store: Store)

  datatype World = World(pending: Option<Store>, anchor: Option<Head<Records>>, target: Target)

  datatype Problem =
    | MarkerInconsistent | Unauthentic | RolledBack | RecoveryRequired | MissingOrRolledBack
    | LegacyConflict | PayloadInconsistent | SequenceInvalid | AnchorMissing | AnchorInconsistent
    | AdvanceFailed

  const MAX_THREAD_RECORDS := 100

  type Steps<R> = Plan<World, R, Problem>

  function Stays<R>(w: World, result: Outcome<R, Problem>): Steps<R> {
    Plan([w], result)
  }

  function Discarded(w: World): World {
    w.(pending := None)
  }

  /** `_publish_protected_store` */
  function PublishPlan(w: World, records: Records, sequence: nat, receipt: Receipt<Records>, cas: Cas)
    : (plan: Steps<()>)
    ensures plan.trace != [] && plan.trace[0] == w
  {
    var p := Seal(sequence + 1, receipt, records);
    var staged := w.(pending := Some(p));
    if Landed(w.anchor, p, cas) then
      var anchored := staged.(anchor := Some(HeadOf(p)));
      var written := anchored.(target := Protected(p));
      if cas.Lands? then Plan([w, staged, anchored, written, Discarded(written)], Returned(()))
      else Plan([w, staged, anchored], Raised(AdvanceFailed))
    else
      var retained := if w.anchor.None? then sequence == 0 && receipt.NoReceipt?
                      else w.anchor == Some(Head(sequence, receipt));
      if retained && !cas.Unreachable? then Plan([w, staged, Discarded(w)], Raised(AdvanceFailed))
      else Plan([w, staged], Raised(AdvanceFailed))
  }

  datatype Recovery = Recovery(recovered: Option<Store>, handled: bool)

  /** `_recover_pending_store` */
  function RecoverPlan(w: World, sequence: nat, receipt: Receipt<Records>, current: Option<Store>)
    : (plan: Steps<Recovery>)
    ensures plan.trace != [] && plan.trace[0] == w
  {
    if w.pending.None? then Stays(w, Returned(Recovery(None, false)))
    else
      var p := w.pending.value;
      if !Authentic(p) then Stays(w, Raised(Unauthentic))
      else if current.Some? && p.sequence == sequence && p.receipt == receipt then
        if current.value != p then Stays(w, Raised(PayloadInconsistent))
        else if !Anchors(w.anchor, p) then Stays(w, Raised(RolledBack))
        else Plan([w, Discarded(w)], Returned(Recovery(None, true)))
      else if p.sequence != sequence + 1 || p.previous != receipt then Stays(w, Raised(SequenceInvalid))
      else if w.anchor.None? then
        if sequence != 0 || receipt.Signed? then Stays(w, Raised(AnchorMissing))
        else Plan([w, Discarded(w)], Returned(Recovery(None, true)))
      else if w.anchor == Some(Head(sequence, receipt)) then
        Plan([w, Discarded(w)], Returned(Recovery(None, true)))
      else if !Anchors(w.anchor, p) then Stays(w, Raised(AnchorInconsistent))
      else
        var written := w.(target := Protected(p));
        Plan([w, written, Discarded(written)], Returned(Recovery(Some(p), true)))
  }

  datatype Loaded = Loaded(records: Records, sequence: nat, receipt: Receipt<Records>,
                           isProtected: bool, recovered: bool)

  function Opened(p: Store, recovered: bool): Loaded {
    Loaded(p.content, p.sequence, p.receipt, true, recovered)
  }

  /** `_load_threads_unlocked` in protected mode with an available key. */
  function LoadPlan(w: World, allowFirst: bool, allowRecovery: bool): (plan: Steps<Loaded>)
    ensures plan.trace != [] && plan.trace[0] == w
  {
    match w.target
    case Protected(p) => LoadProtectedPlan(w, p, allowRecovery)
    case Plain(records) => LoadPlainPlan(w, records, allowFirst, allowRecovery)
    case Missing => LoadPlainPlan(w, [], allowFirst, allowRecovery)
  }

  function LoadProtectedPlan(w: World, p: Store, allowRecovery: bool): (plan: Steps<Loaded>)
    ensures plan.trace != [] && plan.trace[0] == w
  {
    if p.content == [] then Stays(w, Raised(MarkerInconsistent))
    else if !Authentic(p) then Stays(w, Raised(Unauthentic))
    else if !allowRecovery then
      if w.pending.Some? then Stays(w, Raised(RecoveryRequired))
      else if !Anchors(w.anchor, p) then Stays(w, Raised(RolledBack))
      else Stays(w, Returned(Opened(p, false)))
    else
      var r := RecoverPlan(w, p.sequence, p.receipt, Some(p));
      Plan(r.trace,
           match r.result
           case Raised(problem) => Raised(problem)
           case Died => Died
           case Returned(v) =>
             if v.recovered.Some? then Returned(Opened(v.recovered.value, v.handled))
             else if !Anchors(w.anchor, p) then Raised(RolledBack)
             else Returned(Opened(p, v.handled)))
  }

  function LoadPlainPlan(w: World, records: Records, allowFirst: bool, allowRecovery: bool): (plan: Steps<Loaded>)
    ensures plan.trace != [] && plan.trace[0] == w
  {
    if records == [] && !allowFirst && w.pending.None? then
      Stays(w, if w.anchor.Some? then Raised(MissingOrRolledBack)
               else Returned(Loaded([], 0, NoReceipt, false, false)))
    else
      var r := if allowRecovery then RecoverPlan(w, 0, NoReceipt, None)
               else Stays(w, Returned(Recovery(None, false)));
      Plan(r.trace,
           match r.result
           case Raised(problem) => Raised(problem)
           case Died => Died
           case Returned(v) =>
             if v.recovered.Some? then Returned(Opened(v.recovered.value, v.handled))
             else if w.pending.Some? then Raised(RecoveryRequired)
             else if w.anchor.Some? then Raised(LegacyConflict)
             else Returned(Loaded(records, 0, NoReceipt, false, false)))
  }

  /** `prepare_protected_thread_store` */
  function PreparePlan(w: World, cas: Cas): (plan: Steps<bool>)
    ensures plan.trace != [] && plan.trace[0] == w
  {
    if w.target.Missing? && w.pending.None? then
      Stays(w, if w.anchor.Some? then Raised(MissingOrRolledBack) else Returned(false))
    else
      var load := LoadPlan(w, false, true);
      match load.result
      case Raised(problem) => Plan(load.trace, Raised(problem))
      case Died => Plan(load.trace, Died)
      case Returned(l) =>
        if l.records != [] && !l.isProtected then
          var p := PublishPlan(w, l.records, l.sequence, l.receipt, cas);
          Plan(p.trace, match p.result
                        case Returned(_) => Returned(true)
                        case Raised(problem) => Raised(problem)
                        case Died => Died)
        else Plan(load.trace, Returned(l.recovered))
  }

  function Kept(records: Records): Records {
    if |records| <= MAX_THREAD_RECORDS then records else records[..MAX_THREAD_RECORDS]
  }

  /** `_mutate`: `update` is the callback followed by the sort. */
  function MutatePlan(w: World, update: Records -> Records, cas: Cas): (plan: Steps<()>)
    ensures plan.trace != [] && plan.trace[0] == w
  {
    var load := LoadPlan(w, true, false);
    match load.result
    case Raised(problem) => Plan(load.trace, Raised(problem))
    case Died => Plan(load.trace, Died)
    case Returned(l) =>
      var records := Kept(update(l.records));
      if records == [] then Plan([w, w.(target := Plain([]))], Returned(()))
      else PublishPlan(w, records, l.sequence, l.receipt, cas)
  }

  // ---- what every crash leaves ------------------------------------------------------------

  predicate ValidStore(p: Store) {
    Authentic(p) && p.content != []
  }

  /** Never anchored: at most an unanchored first stage. */
  predicate Fresh(w: World) {
    && w.anchor.None? && !w.target.Protected?
    && (w.pending.Some? ==> ValidStore(w.pending.value) && w.pending.value.sequence == 1)
  }

  /** The target is anchored; a stage, if any, is its copy or its successor. */
  predicate TargetAnchored(w: World) {
    && w.target.Protected? && ValidStore(w.target.store) && Anchors(w.anchor, w.target.store)
    && (w.pending.Some? ==>
          ValidStore(w.pending.value) &&
          (w.pending.value == w.target.store || Follows(w.pending.value, w.target.store)))
  }

  /** The stage is anchored and the target is its predecessor. */
  predicate StageAnchored(w: World) {
    && w.pending.Some? && ValidStore(w.pending.value) && Anchors(w.anchor, w.pending.value)
    && if w.target.Protected? then ValidStore(w.target.store) && Follows(w.pending.value, w.target.store)
       else w.pending.value.sequence == 1
  }

  predicate Healthy(w: World) {
    Fresh(w) || TargetAnchored(w) || StageAnchored(w)
  }

  /** What the anchor says the store holds. */
  function Committed(w: World): Option<Store> {
    if StageAnchored(w) then w.pending
    else if TargetAnchored(w) then Some(w.target.store)
    else None
  }

  /** Nothing left to reconcile. */
  predicate Settled(w: World) {
    Healthy(w) && w.pending.None?
  }

  /** From every crash point, one call to prepare settles an anchored store on exactly what
      the anchor names; a never-anchored stage is discarded, but the call raises. */
  lemma PrepareSettles(w: World, cas: Cas)
    requires Healthy(w)
    ensures var plan := PreparePlan(w, cas);
            var w' := Last(plan.trace);
            && (w.anchor.Some? ==>
                  && plan.result == Returned(w.pending.Some?)
                  && w'.pending.None? && w'.anchor == w.anchor
                  && w'.target == Protected(Committed(w).value)
                  && Settled(w'))
            && (w.anchor.None? && w.pending.Some? ==>
                  plan.result == Raised(RecoveryRequired) && w' == Discarded(w))
  {
  }

  /** The second call succeeds: it migrates the legacy records, or finds nothing to do. */
  lemma SecondPrepareSettles(w: World)
    requires Fresh(w) && w.pending.None?
    ensures var plan := PreparePlan(w, Lands);
            var w' := Last(plan.trace);
            && Settled(w')
            && if w.target.Plain? && w.target.records != []
               then plan.result == Returned(true) && w'.target == Protected(Seal(1, NoReceipt, w.target.records))
                    && Committed(w') == Some(w'.target.store)
               else plan.result == Returned(false) && w' == w
  {
  }

  /** One call suffices exactly when there is no unanchored first stage. */
  lemma OneCallSufficesExactly(w: World)
    requires Healthy(w)
    ensures PreparePlan(w, Lands).result.Returned? <==> w.anchor.Some? || w.pending.None?
  {
    PrepareSettles(w, Lands);
    if w.anchor.None? && w.pending.None? {
      SecondPrepareSettles(w);
    }
  }

  // ---- every world, healthy or not ------------------------------------------------------------

  /** What the anchor vouches for: a protected target it names, or no protection at all. */
  predicate Vouched(w: World) {
    if w.target.Protected? then ValidStore(w.target.store) && Anchors(w.anchor, w.target.store) else w.anchor.None?
  }

  function RecordsIn(w: World): Records {
    match w.target
    case Missing => []
    case Plain(records) => records
    case Protected(p) => p.content
  }

  /** An update returns exactly when nothing is staged, the anchor vouches for the target, and
      the new records are committed -- or there are none. */
  lemma MutateReturnsExactly(w: World, update: Records -> Records, cas: Cas)
    ensures MutatePlan(w, update, cas).result.Returned? <==>
            w.pending.None? && Vouched(w) && (update(RecordsIn(w)) == [] || cas.Lands?)
  {
  }

  /** What a publish that raises leaves behind: nothing when the anchor store refused and still
      names the predecessor; the stage alone when that is not known; stage and anchor when
      the update landed unreported.  The target is never touched. */
  lemma FailedPublishLeaves(w: World, records: Records, sequence: nat, receipt: Receipt<Records>, cas: Cas)
    requires PublishPlan(w, records, sequence, receipt, cas).result.Raised?
    ensures var p := Seal(sequence + 1, receipt, records);
            var w' := Last(PublishPlan(w, records, sequence, receipt, cas).trace);
            var named := if w.anchor.None? then sequence == 0 && receipt == NoReceipt
                         else w.anchor.value == Head(sequence, receipt);
            && w'.target == w.target
            && (if Succeeds(w.anchor, p) && cas.LandsUnreported?
                then w'.anchor == Some(HeadOf(p)) && w'.pending == Some(p)
                else
                  && w'.anchor == w.anchor
                  && w'.pending == if named && !cas.Unreachable? then None else Some(p))
  {
  }

  /** The stage that recovery can use beside a protected target: its copy, or its successor
      with the anchor on either of the two. */
  predicate StageUsable(w: World, q: Store) {
    && Authentic(q)
    && match w.target
       case Protected(p) =>
         ValidStore(p) && ((q == p && Anchors(w.anchor, p)) ||
                           (Follows(q, p) && (Anchors(w.anchor, p) || Anchors(w.anchor, q))))
       case _ => q.sequence == 1 && Anchors(w.anchor, q)
  }

  /** Preparation returns exactly when the anchor vouches for what is there, a stage
      included. */
  lemma PrepareReturnsExactly(w: World, cas: Cas)
    ensures PreparePlan(w, cas).result.Returned? <==>
            if w.pending.Some? then StageUsable(w, w.pending.value)
            else Vouched(w) && (w.target.Plain? && w.target.records != [] ==> cas.Lands?)
  {
  }

  /** What is wrong with the store, for each reason to raise. */
  predicate Explains(w: World, cas: Cas, problem: Problem) {
    match problem
    case MarkerInconsistent => w.target.Protected? && w.target.store.content == []
    case Unauthentic =>
      || (w.target.Protected? && !Authentic(w.target.store))
      || (w.pending.Some? && !Authentic(w.pending.value))
    case RolledBack => w.target.Protected? && !Anchors(w.anchor, w.target.store)
    case RecoveryRequired => w.pending.Some? && !w.target.Protected? && !Anchors(w.anchor, w.pending.value)
    case MissingOrRolledBack => w.pending.None? && !w.target.Protected? && w.anchor.Some?
    case LegacyConflict => w.pending.None? && w.target.Plain? && w.anchor.Some?
    case SequenceInvalid =>
      && w.pending.Some?
      && (w.target.Protected? ==> !Follows(w.pending.value, w.target.store))
      && (!w.target.Protected? ==> w.pending.value.sequence != 1)
    case AnchorMissing => w.pending.Some? && w.target.Protected? && w.anchor.None?
    case AnchorInconsistent => w.pending.Some? && w.anchor.Some? && !Anchors(w.anchor, w.pending.value)
    case AdvanceFailed => !cas.Lands?
    case PayloadInconsistent => false
  }

  lemma ProtectedProblemIsTrue(w: World, cas: Cas)
    requires w.target.Protected? && LoadProtectedPlan(w, w.target.store, true).result.Raised?
    ensures Explains(w, cas, LoadProtectedPlan(w, w.target.store, true).result.problem)
  {
  }

  lemma PlainProblemIsTrue(w: World, cas: Cas)
    requires !w.target.Protected? && LoadPlainPlan(w, RecordsIn(w), false, true).result.Raised?
    requires w.target.Missing? ==> w.pending.Some?
    ensures Explains(w, cas, LoadPlainPlan(w, RecordsIn(w), false, true).result.problem)
  {
  }

  /** The reason preparation raises is true. */
  lemma PrepareProblemIsTrue(w: World, cas: Cas)
    requires PreparePlan(w, cas).result.Raised?
    ensures Explains(w, cas, PreparePlan(w, cas).result.problem)
  {
    if w.target.Protected? {
      if LoadProtectedPlan(w, w.target.store, true).result.Raised? {
        ProtectedProblemIsTrue(w, cas);
      }
    } else if w.target.Plain? || w.pending.Some? {
      if LoadPlainPlan(w, RecordsIn(w), false, true).result.Raised? {
        PlainProblemIsTrue(w, cas);
      }
    }
  }

  /** Whatever was tampered with: when preparation returns, the store is settled and what it
      holds is what the anchor names, if there is an anchor. */
  lemma PreparedIsVouched(w: World, cas: Cas)
    requires PreparePlan(w, cas).result.Returned?
    ensures var w' := Last(PreparePlan(w, cas).trace);
            && w'.pending.None? && (w'.anchor.Some? ==> w'.target.Protected? && Anchors(w'.anchor, w'.target.store))
            && (w.anchor.Some? ==> w'.anchor == w.anchor)
  {
  }

  // ---- whole runs ---------------------------------------------------------------------------

  /** One locked operation of one process, which may die after any of its writes. */
  datatype Op =
    | Prepare(cas: Cas, lives: nat)
    | Mutate(update: Records -> Records, cas: Cas, lives: nat)

  function Next(w: World, op: Op): World {
    match op
    case Prepare(cas, lives) => At(PreparePlan(w, cas).trace, lives)
    case Mutate(update, cas, lives) => At(MutatePlan(w, update, cas).trace, lives)
  }

  function Run(w: World, ops: seq<Op>): World {
    if ops == [] then w else Next(Run(w, ops[..|ops| - 1]), ops[|ops| - 1])
  }

  /** Callbacks add and edit records; none empties a store. */
  ghost predicate NeverEmpties(op: Op) {
    op.Mutate? ==> forall rs :: rs != [] ==> op.update(rs) != []
  }

  /** `newer` was reached from `older` by signing successors. */
  predicate Descends(newer: Receipt<Records>, older: Receipt<Records>) {
    newer == older || (newer.Signed? && Descends(newer.previous, older))
  }

  lemma {:induction false} DescendsTransitive(a: Receipt<Records>, b: Receipt<Records>, c: Receipt<Records>)
    requires Descends(a, b) && Descends(b, c)
    ensures Descends(a, c)
    decreases a
  {
    if a != b {
      DescendsTransitive(a.previous, b, c);
    }
  }

  predicate Preserves(before: World, after: World) {
    Committed(before).Some? ==>
      Committed(after).Some? && Descends(Committed(after).value.receipt, Committed(before).value.receipt)
  }

  /** Publishing on top of a settled store, dying anywhere. */
  lemma PublishIsSafe(w: World, records: Records, cas: Cas, lives: nat)
    requires Settled(w) && records != []
    ensures var current := Committed(w);
            var sequence := if current.Some? then current.value.sequence else 0;
            var receipt := if current.Some? then current.value.receipt else NoReceipt;
            var landed := lives >= 2 && (cas.Lands? || cas.LandsUnreported?);
            var w' := At(PublishPlan(w, records, sequence, receipt, cas).trace, lives);
            && Healthy(w')
            && Committed(w') == (if landed then Some(Seal(sequence + 1, receipt, records)) else current)
            && (w'.anchor != w.anchor <==> landed)
  {
  }

  lemma RecoverIsSafe(w: World, cas: Cas, lives: nat)
    requires Healthy(w)
    ensures var w' := Next(w, Prepare(cas, lives));
            Healthy(w') && (w.anchor.Some? ==> Committed(w') == Committed(w) && w'.anchor == w.anchor)
  {
    if w.anchor.None? && w.pending.None? && w.target.Plain? && w.target.records != [] {
      PublishIsSafe(w, w.target.records, cas, lives);
    }
  }

  lemma MutateIsSafe(w: World, update: Records -> Records, cas: Cas, lives: nat)
    requires Healthy(w) && NeverEmpties(Mutate(update, cas, lives))
    ensures var w' := Next(w, Mutate(update, cas, lives));
            Healthy(w') && Preserves(w, w')
  {
    var load := LoadPlan(w, true, false);
    if load.result.Returned? {
      var records := Kept(update(load.result.value.records));
      if records != [] {
        PublishIsSafe(w, records, cas, lives);
      }
    }
  }

  /** Over every run of operations and crashes the store stays recoverable, and what was
      once committed is never lost: later commits are signed on top of it. */
  lemma {:induction false} RunIsSafe(w: World, ops: seq<Op>)
    requires Healthy(w) && forall i | 0 <= i < |ops| :: NeverEmpties(ops[i])
    ensures Healthy(Run(w, ops)) && Preserves(w, Run(w, ops))
  {
    if ops != [] {
      var n := |ops| - 1;
      RunIsSafe(w, ops[..n]);
      var mid := Run(w, ops[..n]);
      assert NeverEmpties(ops[n]);
      match ops[n] {
        case Prepare(cas, lives) => RecoverIsSafe(mid, cas, lives);
        case Mutate(update, cas, lives) => MutateIsSafe(mid, update, cas, lives);
      }
      if Committed(w).Some? {
        DescendsTransitive(Committed(Next(mid, ops[n])).value.receipt, Committed(mid).value.receipt,
                           Committed(w).value.receipt);
      }
    }
  }

  /** Interrupted recoveries change nothing that is committed. */
  lemma {:induction false} RetriesAreSafe(w: World, ops: seq<Op>)
    requires Healthy(w) && w.anchor.Some? && forall i | 0 <= i < |ops| :: ops[i].Prepare?
    ensures Healthy(Run(w, ops)) && Run(w, ops).anchor == w.anchor && Committed(Run(w, ops)) == Committed(w)
  {
    if ops != [] {
      var n := |ops| - 1;
      RetriesAreSafe(w, ops[..n]);
      assert ops[n].Prepare?;
      RecoverIsSafe(Run(w, ops[..n]), ops[n].cas, ops[n].lives);
    }
  }

  /** Publishing over a protected store, dying anywhere, then recovering with any number of
      interruptions: one completed prepare leaves no stage and target equal to anchor, on
      the new records exactly when the compare-and-set had landed. */
  lemma InterruptedPublishRecovers(w: World, update: Records -> Records, cas: Cas, lives: nat,
                                   retries: seq<Op>, last: Cas)
    requires TargetAnchored(w) && w.pending.None? && update(w.target.store.content) != []
    requires forall i | 0 <= i < |retries| :: retries[i].Prepare?
    ensures var before := w.target.store;
            var landed := lives >= 2 && (cas.Lands? || cas.LandsUnreported?);
            var crashed := Next(w, Mutate(update, cas, lives));
            var plan := PreparePlan(Run(crashed, retries), last);
            var w' := Last(plan.trace);
            && plan.result.Returned? && w'.pending.None?
            && w'.target.Protected? && Anchors(w'.anchor, w'.target.store)
            && (w'.anchor != w.anchor <==> landed)
            && (if landed then IsUpdateOf(w'.target.store, before, update) else w'.target.store == before)
  {
    var crashed := Next(w, Mutate(update, cas, lives));
    CrashedUpdate(w, update, cas, lives, crashed);
    RetriesSettle(crashed, retries, last);
  }

  /** `after` is signed on top of `before` and holds what the callback made of its records:
      all of them, or the first hundred. */
  predicate IsUpdateOf(after: Store, before: Store, update: Records -> Records) {
    var all := update(before.content);
    && Authentic(after) && Follows(after, before)
    && after.content <= all && |after.content| == if |all| <= 100 then |all| else 100
  }

  /** An update of a settled, anchored store that dies after `lives` writes. */
  lemma CrashedUpdate(w: World, update: Records -> Records, cas: Cas, lives: nat, crashed: World)
    requires TargetAnchored(w) && w.pending.None? && update(w.target.store.content) != []
    requires crashed == Next(w, Mutate(update, cas, lives))
    ensures var before := w.target.store;
            var landed := lives >= 2 && (cas.Lands? || cas.LandsUnreported?);
            && Healthy(crashed) && crashed.anchor.Some? && (crashed.anchor != w.anchor <==> landed)
            && Committed(crashed).Some?
            && (if landed then IsUpdateOf(Committed(crashed).value, before, update)
                else Committed(crashed).value == before)
  {
    PublishIsSafe(w, Kept(update(w.target.store.content)), cas, lives);
  }

  /** A completed update that lands commits what the callback made of the records, on top of
      the protected store or as its first entry. */
  lemma UpdateCommits(w: World, update: Records -> Records)
    requires w.pending.None? && Vouched(w) && update(RecordsIn(w)) != []
    ensures var plan, all := MutatePlan(w, update, Lands), update(RecordsIn(w));
            var w' := Last(plan.trace);
            && plan.result == Returned(()) && TargetAnchored(w') && w'.pending.None?
            && (if w.target.Protected? then Follows(w'.target.store, w.target.store) else w'.target.store.sequence == 1)
            && w'.target.store.content <= all
            && |w'.target.store.content| == if |all| <= 100 then |all| else 100
  {
  }

  /** Recovery, interrupted any number of times and then completed. */
  lemma RetriesSettle(w: World, retries: seq<Op>, last: Cas)
    requires Healthy(w) && w.anchor.Some? && forall i | 0 <= i < |retries| :: retries[i].Prepare?
    ensures var plan := PreparePlan(Run(w, retries), last);
            var w' := Last(plan.trace);
            && plan.result.Returned? && w'.pending.None? && w'.anchor == w.anchor
            && Committed(w).Some? && w'.target == Protected(Committed(w).value)
            && Anchors(w'.anchor, Committed(w).value)
  {
    RetriesAreSafe(w, retries);
    PrepareSettles(Run(w, retries), last);
  }

  /** An update of a settled, anchored store that completes leaves the store healthy exactly
      when the callback leaves it a record. */
  lemma UpdateKeepsHealthExactly(w: World, update: Records -> Records, cas: Cas)
    requires TargetAnchored(w) && w.pending.None?
    ensures Healthy(Last(MutatePlan(w, update, cas).trace)) <==> update(w.target.store.content) != []
  {
    var records := Kept(update(w.target.store.content));
    if records != [] {
      PublishIsSafe(w, records, cas, 4);
    }
  }

  /** Otherwise, which no callback of the source brings about, it is refused for good. */
  lemma EmptyingIsFatal(w: World, update: Records -> Records, cas: Cas, later: Cas)
    requires TargetAnchored(w) && w.pending.None? && update(w.target.store.content) == []
    ensures var w' := Last(MutatePlan(w, update, cas).trace);
            PreparePlan(w', later) == Plan([w'], Raised(MissingOrRolledBack))
  {
  }
}
