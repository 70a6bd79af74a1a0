/** The control journal as its callers use it: every method is one immediate transaction
    that edits the tables row by row and rolls all of them back when a policy check fails
    part of the way through. */
module ControlJournal {
  import opened Options
  import opened ControlTables
  import I = ControlInvariants
  import R = ControlReceipts
  import G = ControlGuards

  /** Everything proved of the tables of a run: budgets, sessions, fences and receipts. */
  ghost predicate Sound(t: Tables) {
    I.Inv(t) && R.ReceiptInv(t)
  }

  lemma SoundApply(t: Tables, op: Op)
    ensures Sound(t) ==> Sound(Apply(t, op))
  {
    if Sound(t) {
      I.InvApply(t, op);
      R.ReceiptInvApply(t, op);
    }
  }

  class Journal {
    var grants: map<Id, GrantRow>
    var permits: map<Id, PermitRow>
    var sessions: map<Id, SessionRow>
    var targets: map<Id, TargetRow>
    var effects: map<Id, Effect>
    var revoked: set<(RevocationKind, Id)>
    var receipts: seq<Receipt>

    function View(): Tables
      reads this
    {
      Tables(grants, permits, sessions, targets, effects, revoked, receipts)
    }

    constructor ()
      ensures View() == EMPTY && Sound(View())
    {
      grants, permits, sessions, targets, effects := map[], map[], map[], map[], map[];
      revoked, receipts := {}, [];
    }

    method Revoke(kind: RevocationKind, objectId: Id)
      modifies `revoked
      ensures View() == Apply(old(View()), Op.Revoke(kind, objectId))
      ensures Sound(old(View())) ==> Sound(View())
    {
      ghost var before := View();
      revoked := revoked + {(kind, objectId)};
      SoundApply(before, Op.Revoke(kind, objectId));
    }

    // ---- claim ------------------------------------------------------------------------

    method ClaimGrant(q: ClaimRequest) returns (problem: Option<Rejection>)
      requires 1 <= q.grant.maximum
      modifies `grants
      ensures problem == GrantProblem(old(View()), q)
      ensures problem.None? ==>
                var after := GrantAfter(old(View()), q);
                grants == old(grants)[q.grant.grantId := after.(used := after.used - 1)]
    {
      var g := q.grant.grantId;
      if (GrantRevocation, g) in revoked { return Some(GrantRevoked); }
      if (PermitRevocation, q.permit.permitId) in revoked { return Some(PermitRevoked); }
      if g !in grants {
        grants := grants[g := GrantRow(q.grant, q.grant.maximum, 0, q.grant.expires)];
      } else if grants[g].binding != q.grant || grants[g].maximum != q.grant.maximum
                || grants[g].expires != q.grant.expires {
        return Some(GrantBinding);
      }
      if grants[g].used >= q.grant.maximum { return Some(GrantExhausted); }
      if q.permit.permitId in permits { return Some(PermitReplayed); }
      return None;
    }

    method ClaimSession(q: ClaimRequest) returns (problem: Option<Rejection>)
      modifies `sessions
      ensures problem == SessionProblem(old(View()), q)
      ensures problem.None? ==> sessions == old(sessions)[q.sessionId := SessionRow(q.sequence, q.now)]
    {
      if q.sessionId !in sessions {
        if q.sequence != 1 { return Some(SessionSequenceStart); }
      } else {
        if q.sequence != sessions[q.sessionId].last + 1 { return Some(SessionSequence); }
        if q.now < sessions[q.sessionId].updated { return Some(ClockRegression); }
      }
      sessions := sessions[q.sessionId := SessionRow(q.sequence, q.now)];
      return None;
    }

    method ClaimTarget(q: ClaimRequest) returns (problem: Option<Rejection>)
      modifies `targets
      ensures problem == TargetProblem(old(View()), q)
      ensures problem.None? ==>
                targets == old(targets)[q.target.targetId :=
                  TargetRow(q.target.kind, q.target.epoch, q.target.revision, q.target.fence, q.now)]
    {
      if q.target.targetId in targets {
        var row := targets[q.target.targetId];
        if row.kind != q.target.kind { return Some(TargetKindChanged); }
        if q.target.epoch < row.epoch { return Some(TargetEpochStale); }
        if q.target.fence < row.fence { return Some(TargetFenceStale); }
        if q.target.epoch == row.epoch {
          if q.target.revision != row.revision { return Some(TargetRevisionChanged); }
        } else if q.target.fence <= row.fence {
          return Some(TargetFenceNotAdvanced);
        }
        if q.now < row.updated { return Some(ClockRegression); }
      }
      targets := targets[q.target.targetId :=
        TargetRow(q.target.kind, q.target.epoch, q.target.revision, q.target.fence, q.now)];
      return None;
    }

    /** Spend one use of the grant on the permit and insert the effect. */
    method ConsumePermit(q: ClaimRequest) returns (problem: Option<Rejection>)
      requires q.grant.grantId in grants
      modifies `grants, `permits, `effects
      ensures problem == if q.effectId in old(effects) then Some(JournalUnavailable) else None
      ensures var row := old(grants)[q.grant.grantId];
              grants == old(grants)[q.grant.grantId := row.(used := row.used + 1)]
      ensures permits == old(permits)[q.permit.permitId :=
                PermitRow(q.grant.grantId, q.permit, q.requestDigest, q.now, q.permit.expires)]
      ensures problem.None? ==> effects == old(effects)[q.effectId := NewEffect(q)]
    {
      var g := q.grant.grantId;
      permits := permits[q.permit.permitId :=
        PermitRow(g, q.permit, q.requestDigest, q.now, q.permit.expires)];
      grants := grants[g := grants[g].(used := grants[g].used + 1)];
      if q.effectId in effects { return Some(JournalUnavailable); }
      effects := effects[q.effectId := NewEffect(q)];
      return None;
    }

    /** The transaction body.  On a rejection the tables may hold a partial claim. */
    method ClaimRows(q: ClaimRequest) returns (problem: Option<Rejection>)
      requires EnvelopeProblem(q).None?
      modifies `grants, `permits, `sessions, `targets, `effects
      ensures problem == ClaimProblem(old(View()), q)
      ensures problem.None? ==> View() == Claimed(old(View()), q)
    {
      problem := ClaimGrant(q);
      if problem.Some? { return; }
      problem := ClaimSession(q);
      if problem.Some? { return; }
      problem := ClaimTarget(q);
      if problem.Some? { return; }
      problem := ConsumePermit(q);
    }

    /** Consume one permit of a grant and prepare its effect, or change nothing. */
    method Claim(q: ClaimRequest) returns (problem: Option<Rejection>)
      modifies this
      ensures problem == Problem(old(View()), Op.Claim(q))
      ensures View() == Apply(old(View()), Op.Claim(q))
      ensures problem.Some? ==> View() == old(View())
      ensures problem.None? <==> G.ClaimAdmissible(old(View()), q)
      ensures problem.None? ==> G.ClaimRecorded(old(View()), q, View())
      ensures Sound(old(View())) ==> Sound(View())
    {
      ghost var before := View();
      G.ClaimExactly(before, q);
      problem := EnvelopeProblem(q);
      if problem.Some? { return; }
      var grants0, permits0, sessions0, targets0, effects0 := grants, permits, sessions, targets, effects;
      problem := ClaimRows(q);
      if problem.Some? {
        grants, permits, sessions, targets, effects := grants0, permits0, sessions0, targets0, effects0;
      }
      SoundApply(before, Op.Claim(q));
      if problem.None? {
        G.ClaimRecords(before, q);
      }
    }

    // ---- transition -------------------------------------------------------------------

    /** Move one effect along the transition table, or change nothing. */
    method Transition(id: Id, next: EffectState, now: nat, reason: string, evidence: string)
      returns (problem: Option<Rejection>)
      modifies `effects
      ensures problem == TransitionProblem(old(View()), id, next, now, reason)
      ensures View() == Apply(old(View()), Op.Transition(id, next, now, reason, evidence))
      ensures problem.None? <==> G.TransitionAdmissible(old(View()), id, next, now, reason)
      ensures problem.None? ==> G.TransitionRecorded(old(View()), id, next, now, reason, evidence, View())
      ensures Sound(old(View())) ==> Sound(View())
    {
      ghost var before := View();
      problem := TransitionRow(id, next, now, reason, evidence);
      SoundApply(before, Op.Transition(id, next, now, reason, evidence));
      G.TransitionExactly(before, id, next, now, reason);
      if problem.None? {
        G.TransitionRecords(before, id, next, now, reason, evidence);
      }
    }

    method TransitionRow(id: Id, next: EffectState, now: nat, reason: string, evidence: string)
      returns (problem: Option<Rejection>)
      modifies `effects
      ensures problem == TransitionProblem(old(View()), id, next, now, reason)
      ensures View() == Apply(old(View()), Op.Transition(id, next, now, reason, evidence))
    {
      if next in {Started, Applied} && reason != "none" { return Some(TransitionReason); }
      if next in {Verified, Failed, Unknown} && reason == "none" { return Some(TransitionReason); }
      if id !in effects { return Some(EffectMissing); }
      var current := effects[id];
      if next !in AllowedTransitions(current.state) { return Some(EffectTransition); }
      if now < current.updated { return Some(ClockRegression); }
      if next == Started {
        problem := StartProblem(View(), current, now);
        if problem.Some? { return; }
      }
      effects := effects[id := current.(state := next, reason := reason, evidence := evidence,
                                        version := current.version + 1, updated := now)];
      return None;
    }

    // ---- finalize_receipt -------------------------------------------------------------

    /** The aggregate query: least and greatest receipt sequence. */
    method SequenceRange() returns (least: nat, greatest: nat)
      requires receipts != []
      ensures least == MinSequence(receipts) && greatest == MaxSequence(receipts)
    {
      least, greatest := receipts[0].sequence, receipts[0].sequence;
      assert receipts[..1] == [receipts[0]];
      for i := 1 to |receipts|
        invariant least == MinSequence(receipts[..i]) && greatest == MaxSequence(receipts[..i])
      {
        assert receipts[..i + 1][..i] == receipts[..i];
        if receipts[i].sequence < least { least := receipts[i].sequence; }
        if receipts[i].sequence > greatest { greatest := receipts[i].sequence; }
      }
      assert receipts[..|receipts|] == receipts;
    }

    method NextReceiptLink(key: Id) returns (link: Link)
      ensures link == NextLink(receipts, key)
    {
      if receipts == [] { return Link(1, EmptyHead); }
      var least, greatest := SequenceRange();
      if least != 1 || greatest != |receipts| { return Broken(ReceiptSequence); }
      var latest := FindSequence(receipts, greatest);
      if latest.None? { return Broken(ReceiptSequence); }
      if latest.value.key != key { return Broken(ReceiptKey); }
      if latest.value.sequence + 1 > MAX_SAFE_INTEGER { return Broken(ReceiptSequenceExhausted); }
      return Link(latest.value.sequence + 1, DigestOf(latest.value));
    }

    /** Issue the receipt of an effect's current transition, or return the one it has. */
    method FinalizeReceipt(id: Id, key: Id, completed: nat) returns (result: Finalized)
      modifies `receipts
      ensures result == Finalize(old(View()), id, key, completed)
      ensures View() == Apply(old(View()), Op.FinalizeReceipt(id, key, completed))
      ensures Sound(old(View())) ==> Sound(View())
    {
      ghost var before := View();
      result := IssueReceipt(id, key, completed);
      SoundApply(before, Op.FinalizeReceipt(id, key, completed));
    }

    method IssueReceipt(id: Id, key: Id, completed: nat) returns (result: Finalized)
      modifies `receipts
      ensures result == Finalize(old(View()), id, key, completed)
      ensures View() == Apply(old(View()), Op.FinalizeReceipt(id, key, completed))
    {
      if id !in effects { return NotFinalized(EffectMissing); }
      var e := effects[id];
      if !Receiptable(e.state) { return NotFinalized(EffectNotReceiptable); }
      if key != e.key { return NotFinalized(ReceiptKey); }
      var existing := FindReceipt(receipts, id, e.version);
      if existing.Some? {
        if existing.value.key != key { return NotFinalized(ReceiptKey); }
        if existing.value.state != e.state { return NotFinalized(ReceiptBinding); }
        return Finalized(View(), existing.value);
      }
      var link := NextReceiptLink(key);
      if link.Broken? { return NotFinalized(link.reason); }
      var receipt := Receipt(link.sequence, link.previous, id, e.version, e.state, e.reason, e.evidence,
                             if completed < e.updated then e.updated else completed, key);
      receipts := receipts + [receipt];
      return Finalized(View(), receipt);
    }
  }
}
