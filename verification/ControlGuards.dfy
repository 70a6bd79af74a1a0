/** Exactly when each transaction of the control journal is admitted, what it then records,
    and what that says about time over every run. */
module ControlGuards {
  import opened Options
  import opened ControlTables
  import opened ControlInvariants
  import opened ControlHistory
  import opened ControlReceipts

  // ---- claims ---------------------------------------------------------------------------

  predicate RequestInOrder(q: ClaimRequest) {
    && q.authorized
    && 1 <= q.grant.maximum <= 64 && 1 <= q.sequence && 1 <= q.target.epoch && 1 <= q.target.fence
    && 0 < q.grant.expires && q.now < q.grant.expires
    && q.permit.issued <= q.now < q.permit.expires
  }

  /** The grant and the permit can still be used, and the grant is the one on record. */
  predicate BudgetLeft(t: Tables, q: ClaimRequest) {
    && (GrantRevocation, q.grant.grantId) !in t.revoked && (PermitRevocation, q.permit.permitId) !in t.revoked
    && q.permit.permitId !in t.permits
    && (q.grant.grantId in t.grants ==>
          var row := t.grants[q.grant.grantId];
          row.binding == q.grant && row.maximum == q.grant.maximum && row.expires == q.grant.expires
          && row.used < row.maximum)
  }

  predicate NextInSession(t: Tables, q: ClaimRequest) {
    if q.sessionId in t.sessions
    then q.sequence == t.sessions[q.sessionId].last + 1 && t.sessions[q.sessionId].updated <= q.now
    else q.sequence == 1
  }

  /** The target is new, or is seen in the same epoch and revision under no older fence, or
      in a later epoch under a newer fence. */
  predicate TargetAdvances(t: Tables, q: ClaimRequest) {
    q.target.targetId in t.targets ==>
      var row := t.targets[q.target.targetId];
      && row.kind == q.target.kind && row.updated <= q.now
      && (|| (row.epoch == q.target.epoch && row.revision == q.target.revision && row.fence <= q.target.fence)
          || (row.epoch < q.target.epoch && row.fence < q.target.fence))
  }

  predicate ClaimAdmissible(t: Tables, q: ClaimRequest) {
    RequestInOrder(q) && BudgetLeft(t, q) && NextInSession(t, q) && TargetAdvances(t, q) && q.effectId !in t.effects
  }

  lemma ClaimExactly(t: Tables, q: ClaimRequest)
    ensures ClaimProblem(t, q).None? <==> ClaimAdmissible(t, q)
  {
  }

  /** The reason a claim is refused for is true. */
  predicate ClaimReasonHolds(t: Tables, q: ClaimRequest, reason: Rejection) {
    var g, p, s, x := q.grant.grantId, q.permit.permitId, q.sessionId, q.target.targetId;
    match reason
    case InvalidEnvelope =>
      || q.grant.maximum < 1 || q.grant.maximum > 64 || q.grant.expires < 1
      || q.sequence < 1 || q.target.epoch < 1 || q.target.fence < 1
    case AuthorityRejected => !q.authorized
    case GrantExpired => q.grant.expires <= q.now
    case PermitExpired => q.now < q.permit.issued || q.permit.expires <= q.now
    case GrantRevoked => (GrantRevocation, g) in t.revoked
    case PermitRevoked => (PermitRevocation, p) in t.revoked
    case GrantBinding =>
      g in t.grants && !(t.grants[g].binding == q.grant && t.grants[g].maximum == q.grant.maximum
                         && t.grants[g].expires == q.grant.expires)
    case GrantExhausted => g in t.grants && q.grant.maximum <= t.grants[g].used
    case PermitReplayed => p in t.permits
    case SessionSequenceStart => s !in t.sessions && q.sequence != 1
    case SessionSequence => s in t.sessions && q.sequence != t.sessions[s].last + 1
    case ClockRegression =>
      (s in t.sessions && q.now < t.sessions[s].updated) || (x in t.targets && q.now < t.targets[x].updated)
    case TargetKindChanged => x in t.targets && t.targets[x].kind != q.target.kind
    case TargetEpochStale => x in t.targets && q.target.epoch < t.targets[x].epoch
    case TargetFenceStale => x in t.targets && q.target.fence < t.targets[x].fence
    case TargetRevisionChanged =>
      x in t.targets && q.target.epoch == t.targets[x].epoch && q.target.revision != t.targets[x].revision
    case TargetFenceNotAdvanced =>
      x in t.targets && t.targets[x].epoch < q.target.epoch && q.target.fence == t.targets[x].fence
    case JournalUnavailable => q.effectId in t.effects
    case _ => false
  }

  lemma TargetReasonIsTrue(t: Tables, q: ClaimRequest)
    ensures TargetProblem(t, q).Some? ==> ClaimReasonHolds(t, q, TargetProblem(t, q).value)
    ensures SessionProblem(t, q).Some? ==> ClaimReasonHolds(t, q, SessionProblem(t, q).value)
  {
  }

  lemma GrantReasonIsTrue(t: Tables, q: ClaimRequest)
    ensures GrantProblem(t, q).Some? ==> ClaimReasonHolds(t, q, GrantProblem(t, q).value)
    ensures EnvelopeProblem(q).Some? ==> ClaimReasonHolds(t, q, EnvelopeProblem(q).value)
  {
  }

  lemma ClaimReasonIsTrue(t: Tables, q: ClaimRequest)
    requires ClaimProblem(t, q).Some?
    ensures ClaimReasonHolds(t, q, ClaimProblem(t, q).value)
  {
    TargetReasonIsTrue(t, q);
    GrantReasonIsTrue(t, q);
  }

  /** Everything an admitted claim records, row by row. */
  predicate ClaimRecorded(t: Tables, q: ClaimRequest, t': Tables) {
    && t'.effects.Keys == t.effects.Keys + {q.effectId} && (forall x | x in t.effects :: t'.effects[x] == t.effects[x])
    && (var e := t'.effects[q.effectId];
        && e.permitId == q.permit.permitId && e.grantId == q.grant.grantId && e.sessionId == q.sessionId
        && e.requestDigest == q.requestDigest && e.sequence == q.sequence && e.key == q.permit.key
        && e.targetId == q.target.targetId && e.kind == q.target.kind && e.epoch == q.target.epoch
        && e.revision == q.target.revision && e.fence == q.target.fence
        && e.state == Prepared && e.version == 1 && e.prepared == q.now && e.updated == q.now
        && e.reason == "none" && e.evidence == "")
    && t'.permits.Keys == t.permits.Keys + {q.permit.permitId}
    && (forall x | x in t.permits :: t'.permits[x] == t.permits[x])
    && (var p := t'.permits[q.permit.permitId];
        p.grantId == q.grant.grantId && p.binding == q.permit && p.requestDigest == q.requestDigest
        && p.consumed == q.now && p.expires == q.permit.expires)
    && t'.grants.Keys == t.grants.Keys + {q.grant.grantId}
    && (forall x | x in t.grants && x != q.grant.grantId :: t'.grants[x] == t.grants[x])
    && (var g := t'.grants[q.grant.grantId];
        && g.binding == q.grant && g.maximum == q.grant.maximum && g.expires == q.grant.expires
        && g.used == 1 + if q.grant.grantId in t.grants then t.grants[q.grant.grantId].used else 0)
    && q.sessionId in t'.sessions && q.target.targetId in t'.targets
    && t'.sessions == t.sessions[q.sessionId := t'.sessions[q.sessionId]]
    && t'.sessions[q.sessionId].last == q.sequence && t'.sessions[q.sessionId].updated == q.now
    && t'.targets == t.targets[q.target.targetId := t'.targets[q.target.targetId]]
    && (var row := t'.targets[q.target.targetId];
        row.kind == q.target.kind && row.epoch == q.target.epoch && row.revision == q.target.revision
        && row.fence == q.target.fence && row.updated == q.now)
    && t'.revoked == t.revoked && t'.receipts == t.receipts
  }

  lemma ClaimRecords(t: Tables, q: ClaimRequest)
    requires ClaimAdmissible(t, q)
    ensures ClaimRecorded(t, q, Apply(t, Claim(q)))
  {
    ClaimExactly(t, q);
  }

  // ---- transitions ------------------------------------------------------------------------

  /** The transition table, pair by pair. */
  predicate MayFollow(from: EffectState, to: EffectState) {
    || (from == Prepared && (to == Started || to == Failed))
    || (from == Started && (to == Applied || to == Failed || to == Unknown))
    || (from == Applied && (to == Verified || to == Failed || to == Unknown))
    || (from == Unknown && (to == Verified || to == Failed))
  }

  /** Nothing about the effect was revoked, its permit has not expired, and its target is
      still exactly as it was claimed. */
  predicate StartAdmissible(t: Tables, e: Effect, now: nat) {
    && (GrantRevocation, e.grantId) !in t.revoked && (PermitRevocation, e.permitId) !in t.revoked
    && e.permitId in t.permits && now < t.permits[e.permitId].expires
    && e.targetId in t.targets
    && var row := t.targets[e.targetId];
       row.kind == e.kind && row.epoch == e.epoch && row.revision == e.revision && row.fence == e.fence
  }

  predicate TransitionAdmissible(t: Tables, id: Id, next: EffectState, now: nat, reason: string) {
    && id in t.effects && MayFollow(t.effects[id].state, next) && t.effects[id].updated <= now
    && (reason == "none" <==> next == Started || next == Applied)
    && (next == Started ==> StartAdmissible(t, t.effects[id], now))
  }

  lemma TransitionExactly(t: Tables, id: Id, next: EffectState, now: nat, reason: string)
    ensures TransitionProblem(t, id, next, now, reason).None? <==> TransitionAdmissible(t, id, next, now, reason)
  {
  }

  /** The reason a transition is refused for is true. */
  predicate TransitionReasonHolds(t: Tables, id: Id, next: EffectState, now: nat, reason: string, why: Rejection) {
    match why
    case TransitionReason => reason == "none" <==> next == Verified || next == Failed || next == Unknown
    case EffectMissing => id !in t.effects
    case EffectTransition => id in t.effects && !MayFollow(t.effects[id].state, next)
    case ClockRegression => id in t.effects && now < t.effects[id].updated
    case GrantRevoked => id in t.effects && (GrantRevocation, t.effects[id].grantId) in t.revoked
    case PermitRevoked => id in t.effects && (PermitRevocation, t.effects[id].permitId) in t.revoked
    case PermitExpired =>
      id in t.effects && t.effects[id].permitId in t.permits && t.permits[t.effects[id].permitId].expires <= now
    case TargetFenceStale =>
      && id in t.effects && t.effects[id].targetId in t.targets
      && var e, row := t.effects[id], t.targets[t.effects[id].targetId];
         !(row.kind == e.kind && row.epoch == e.epoch && row.revision == e.revision && row.fence == e.fence)
    case JournalUnavailable =>
      id in t.effects && (t.effects[id].permitId !in t.permits || t.effects[id].targetId !in t.targets)
    case _ => false
  }

  lemma TransitionReasonIsTrue(t: Tables, id: Id, next: EffectState, now: nat, reason: string)
    requires TransitionProblem(t, id, next, now, reason).Some?
    ensures TransitionReasonHolds(t, id, next, now, reason, TransitionProblem(t, id, next, now, reason).value)
  {
  }

  /** A transition touches the progress of one effect and counts a version. */
  predicate TransitionRecorded(t: Tables, id: Id, next: EffectState, now: nat, reason: string, evidence: string,
                               t': Tables)
    requires id in t.effects
  {
    && t' == t.(effects := t'.effects) && t'.effects.Keys == t.effects.Keys
    && (forall x | x in t.effects && x != id :: t'.effects[x] == t.effects[x])
    && var e, e' := t.effects[id], t'.effects[id];
       && SameEffect(e, e') && e'.state == next && e'.reason == reason && e'.evidence == evidence
       && e'.version == e.version + 1 && e'.updated == now
  }

  lemma TransitionRecords(t: Tables, id: Id, next: EffectState, now: nat, reason: string, evidence: string)
    requires TransitionAdmissible(t, id, next, now, reason)
    ensures TransitionRecorded(t, id, next, now, reason, evidence,
                               Apply(t, Transition(id, next, now, reason, evidence)))
  {
    TransitionExactly(t, id, next, now, reason);
  }

  // ---- receipts -----------------------------------------------------------------------------

  predicate HasReceipt(t: Tables, id: Id) {
    id in t.effects &&
    exists i | 0 <= i < |t.receipts| :: t.receipts[i].effectId == id && t.receipts[i].version == t.effects[id].version
  }

  /** On a sound journal a receipt is issued, or found, exactly when the effect's outcome is
      known to be one of the three, its own key asks, and -- for a new one -- the chain is in
      that key and has room. */
  lemma FinalizeExactly(t: Tables, id: Id, key: Id, completed: nat)
    requires ReceiptInv(t)
    ensures Finalize(t, id, key, completed).Finalized? <==>
            && id in t.effects
            && (t.effects[id].state == Verified || t.effects[id].state == Failed || t.effects[id].state == Unknown)
            && t.effects[id].key == key
            && (HasReceipt(t, id) ||
                ((t.receipts != [] ==> t.receipts[0].key == key) && |t.receipts| < 0x1F_FFFF_FFFF_FFFF))
  {
    if id in t.effects && Receiptable(t.effects[id].state) && t.effects[id].key == key {
      FindReceiptMeaning(t.receipts, id, t.effects[id].version);
      if FindReceipt(t.receipts, id, t.effects[id].version).Some? {
        var i :| 0 <= i < |t.receipts| && t.receipts[i] == FindReceipt(t.receipts, id, t.effects[id].version).value
                 && t.receipts[i].effectId == id && t.receipts[i].version == t.effects[id].version;
        assert Describes(t.receipts[i], t.effects);
      } else {
        LinkExactly(t.receipts, key);
      }
    }
  }

  lemma LinkExactly(rs: seq<Receipt>, key: Id)
    requires GlobalChain(rs)
    ensures NextLink(rs, key).Link? <==> (rs != [] ==> rs[0].key == key) && |rs| < 0x1F_FFFF_FFFF_FFFF
    ensures NextLink(rs, key).Link? ==>
              NextLink(rs, key) == Link(|rs| + 1, if rs == [] then EmptyHead else DigestOf(rs[|rs| - 1]))
  {
    if rs != [] {
      forall i | 0 <= i < |rs|
        ensures rs[i].sequence == i + 1 && rs[i].key == rs[0].key
      {
        assert Linked(rs, i, rs[0].key);
      }
      Extremes(rs);
    }
  }

  /** What the receipt says: the effect's transition, its outcome, and when it completed. */
  lemma ReceiptSays(t: Tables, id: Id, key: Id, completed: nat)
    requires ReceiptInv(t) && Finalize(t, id, key, completed).Finalized?
    ensures var f, e := Finalize(t, id, key, completed), t.effects[id];
            && f.receipt.effectId == id && f.receipt.version == e.version && f.receipt.state == e.state
            && f.receipt.key == key
            && (if HasReceipt(t, id) then f.tables == t && f.receipt in t.receipts
                else
                  && f.tables == t.(receipts := t.receipts + [f.receipt])
                  && f.receipt.sequence == |t.receipts| + 1
                  && f.receipt.previous == (if t.receipts == [] then EmptyHead
                                            else DigestOf(t.receipts[|t.receipts| - 1]))
                  && f.receipt.reason == e.reason && f.receipt.evidence == e.evidence
                  && f.receipt.completed >= completed && f.receipt.completed >= e.updated
                  && (f.receipt.completed == completed || f.receipt.completed == e.updated))
  {
    FindReceiptMeaning(t.receipts, id, t.effects[id].version);
    if FindReceipt(t.receipts, id, t.effects[id].version).None? {
      LinkExactly(t.receipts, key);
    }
  }

  // ---- time -----------------------------------------------------------------------------------

  /** Every effect was claimed while its grant and its permit were valid. */
  predicate ClaimedInTime(t: Tables, e: Effect) {
    && e.grantId in t.grants && e.prepared < t.grants[e.grantId].expires
    && e.permitId in t.permits
    && t.permits[e.permitId].binding.issued <= e.prepared < t.permits[e.permitId].expires
    && t.permits[e.permitId].grantId == e.grantId
    && t.permits[e.permitId].expires == t.permits[e.permitId].binding.expires
    && e.prepared <= e.updated
  }

  predicate Timely(t: Tables) {
    forall e | e in t.effects :: ClaimedInTime(t, t.effects[e])
  }

  lemma TimelyClaim(t: Tables, q: ClaimRequest)
    requires Timely(t) && ClaimAdmissible(t, q)
    ensures Timely(Apply(t, Claim(q)))
  {
    var t' := Apply(t, Claim(q));
    ClaimRecords(t, q);
    forall e | e in t'.effects
      ensures ClaimedInTime(t', t'.effects[e])
    {
      if e in t.effects {
        assert ClaimedInTime(t, t.effects[e]);
      }
    }
  }

  lemma TimelyTransition(t: Tables, id: Id, next: EffectState, now: nat, reason: string, evidence: string)
    requires Timely(t) && TransitionAdmissible(t, id, next, now, reason)
    ensures Timely(Apply(t, Transition(id, next, now, reason, evidence)))
  {
    var t' := Apply(t, Transition(id, next, now, reason, evidence));
    TransitionRecords(t, id, next, now, reason, evidence);
    forall e | e in t'.effects
      ensures ClaimedInTime(t', t'.effects[e])
    {
      assert ClaimedInTime(t, t.effects[e]);
    }
  }

  lemma TimelyApply(t: Tables, op: Op)
    requires Timely(t)
    ensures Timely(Apply(t, op))
  {
    if Problem(t, op).None? {
      match op
      case Claim(q) =>
        ClaimExactly(t, q);
        TimelyClaim(t, q);
      case Transition(id, next, now, reason, evidence) =>
        TransitionExactly(t, id, next, now, reason);
        TimelyTransition(t, id, next, now, reason, evidence);
      case Revoke(_, _) =>
        assert forall e | e in t.effects :: ClaimedInTime(t, t.effects[e]);
      case FinalizeReceipt(id, key, completed) =>
        FinalizeKeepsOtherTables(t, id, key, completed);
        assert forall e | e in t.effects :: ClaimedInTime(t, t.effects[e]);
    }
  }

  /** Over every run each effect was claimed before its grant and its permit expired. */
  lemma {:induction false} ClaimsAreTimely(ops: seq<Op>)
    ensures Timely(Run(ops))
  {
    if ops != [] {
      ClaimsAreTimely(ops[..|ops| - 1]);
      TimelyApply(Run(ops[..|ops| - 1]), ops[|ops| - 1]);
    }
  }

  lemma PermitsStay(t: Tables, op: Op, p: Id)
    requires p in t.permits
    ensures p in Apply(t, op).permits && Apply(t, op).permits[p] == t.permits[p]
  {
    if Problem(t, op).None? {
      match op
      case Claim(q) =>
        ClaimExactly(t, q);
        ClaimRecords(t, q);
      case Transition(_, _, _, _, _) =>
      case Revoke(_, _) =>
      case FinalizeReceipt(id, key, completed) => FinalizeKeepsOtherTables(t, id, key, completed);
    }
  }

  lemma {:induction false} PermitsStayOverRun(ops: seq<Op>, k: nat, p: Id)
    requires k <= |ops| && p in Run(ops[..k]).permits
    ensures p in Run(ops).permits && Run(ops).permits[p] == Run(ops[..k]).permits[p]
    decreases |ops|
  {
    if k == |ops| {
      assert ops[..k] == ops;
    } else {
      var n := |ops| - 1;
      assert ops[..n][..k] == ops[..k];
      PermitsStayOverRun(ops[..n], k, p);
      PermitsStay(Run(ops[..n]), ops[n], p);
    }
  }

  /** No effect starts at or after its permit's expiry. */
  lemma NoStartAfterExpiry(ops: seq<Op>, k: nat, id: Id)
    requires StartsAt(ops, k, id)
    ensures id in Run(ops).effects && Run(ops).effects[id].permitId in Run(ops).permits
    ensures ops[k].now < Run(ops).permits[Run(ops).effects[id].permitId].expires
  {
    var t := Run(ops[..k]);
    TransitionExactly(t, id, Started, ops[k].now, ops[k].reason);
    StartedEffect(ops, k, id);
    PermitsStayOverRun(ops, k, t.effects[id].permitId);
  }
}
