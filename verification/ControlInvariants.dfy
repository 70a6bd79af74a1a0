/** What every run of claims, transitions, revocations and receipts keeps true of the tables. */
module ControlInvariants {
  import opened ControlTables

  // ---- budgets ----------------------------------------------------------------------

  function PermitsOf(permits: map<Id, PermitRow>, g: Id): set<Id> {
    set p | p in permits && permits[p].grantId == g
  }

  function EffectsOf(effects: map<Id, Effect>, g: Id): set<Id> {
    set e | e in effects && effects[e].grantId == g
  }

  /** The used count is the number of the grant's permits and of its effects. */
  predicate BudgetOf(row: GrantRow, permits: map<Id, PermitRow>, effects: map<Id, Effect>, g: Id) {
    row.used == |PermitsOf(permits, g)| == |EffectsOf(effects, g)| && row.used <= row.maximum
  }

  predicate Budgets(t: Tables) {
    && (forall p | p in t.permits :: t.permits[p].grantId in t.grants)
    && (forall e | e in t.effects :: t.effects[e].grantId in t.grants)
    && (forall g | g in t.grants :: BudgetOf(t.grants[g], t.permits, t.effects, g))
  }

  lemma PermitAdded(permits: map<Id, PermitRow>, p: Id, row: PermitRow, g: Id)
    requires p !in permits
    ensures |PermitsOf(permits[p := row], g)| == |PermitsOf(permits, g)| + if row.grantId == g then 1 else 0
  {
    assert PermitsOf(permits[p := row], g) == PermitsOf(permits, g) + if row.grantId == g then {p} else {};
  }

  lemma EffectAdded(effects: map<Id, Effect>, e: Id, row: Effect, g: Id)
    requires e !in effects
    ensures |EffectsOf(effects[e := row], g)| == |EffectsOf(effects, g)| + if row.grantId == g then 1 else 0
  {
    assert EffectsOf(effects[e := row], g) == EffectsOf(effects, g) + if row.grantId == g then {e} else {};
  }

  /** The claim's own grant gains one permit and one effect; no other grant changes. */
  lemma BudgetsClaim(t: Tables, q: ClaimRequest)
    requires Budgets(t) && GrantProblem(t, q).None? && 1 <= q.grant.maximum && q.effectId !in t.effects
    ensures Budgets(Claimed(t, q))
  {
    var t' := Claimed(t, q);
    var g0 := q.grant.grantId;
    if g0 !in t.grants {
      assert PermitsOf(t.permits, g0) == {} && EffectsOf(t.effects, g0) == {};
    }
    forall g | g in t'.grants
      ensures BudgetOf(t'.grants[g], t'.permits, t'.effects, g)
    {
      PermitAdded(t.permits, q.permit.permitId, t'.permits[q.permit.permitId], g);
      EffectAdded(t.effects, q.effectId, NewEffect(q), g);
    }
  }

  lemma BudgetsTransition(t: Tables, id: Id, next: EffectState, now: nat, reason: string, evidence: string)
    requires Budgets(t) && id in t.effects
    ensures Budgets(Transitioned(t, id, next, now, reason, evidence))
  {
    var t' := Transitioned(t, id, next, now, reason, evidence);
    forall g | g in t'.grants
      ensures BudgetOf(t'.grants[g], t'.permits, t'.effects, g)
    {
      assert EffectsOf(t'.effects, g) == EffectsOf(t.effects, g);
    }
  }

  // ---- sessions ---------------------------------------------------------------------

  predicate HasSequence(effects: map<Id, Effect>, s: Id, n: nat) {
    exists e | e in effects :: effects[e].sessionId == s && effects[e].sequence == n
  }

  predicate Bounded(effects: map<Id, Effect>, sessions: map<Id, SessionRow>) {
    forall e | e in effects ::
      effects[e].sessionId in sessions && 1 <= effects[e].sequence <= sessions[effects[e].sessionId].last
  }

  predicate Distinct(effects: map<Id, Effect>) {
    forall e, f | e in effects && f in effects && e != f ::
      effects[e].sessionId != effects[f].sessionId || effects[e].sequence != effects[f].sequence
  }

  predicate Full(effects: map<Id, Effect>, sessions: map<Id, SessionRow>) {
    forall s, n | s in sessions && 1 <= n <= sessions[s].last :: HasSequence(effects, s, n)
  }

  /** A session's effects carry exactly the sequences 1..last, each once. */
  predicate Sessions(t: Tables) {
    Bounded(t.effects, t.sessions) && Distinct(t.effects) && Full(t.effects, t.sessions)
  }

  lemma HasSequenceKept(effects: map<Id, Effect>, effects': map<Id, Effect>, s: Id, n: nat)
    requires HasSequence(effects, s, n)
    requires forall e | e in effects :: e in effects' && effects'[e].sessionId == effects[e].sessionId
                                        && effects'[e].sequence == effects[e].sequence
    ensures HasSequence(effects', s, n)
  {
    var e :| e in effects && effects[e].sessionId == s && effects[e].sequence == n;
    assert e in effects';
  }

  lemma DistinctClaim(effects: map<Id, Effect>, sessions: map<Id, SessionRow>, id: Id, e: Effect)
    requires Bounded(effects, sessions) && Distinct(effects)
    requires e.sessionId in sessions ==> sessions[e.sessionId].last < e.sequence
    ensures Distinct(effects[id := e])
  {
  }

  lemma FullClaim(effects: map<Id, Effect>, sessions: map<Id, SessionRow>, id: Id, e: Effect, row: SessionRow)
    requires Full(effects, sessions) && id !in effects && row.last == e.sequence
    requires e.sequence == if e.sessionId in sessions then sessions[e.sessionId].last + 1 else 1
    ensures Full(effects[id := e], sessions[e.sessionId := row])
  {
    var effects', sessions' := effects[id := e], sessions[e.sessionId := row];
    forall s, n | s in sessions' && 1 <= n <= sessions'[s].last
      ensures HasSequence(effects', s, n)
    {
      if s == e.sessionId && n == e.sequence {
        assert id in effects';
      } else {
        HasSequenceKept(effects, effects', s, n);
      }
    }
  }

  lemma SessionsClaim(t: Tables, q: ClaimRequest)
    requires Sessions(t) && SessionProblem(t, q).None? && 1 <= q.sequence && q.effectId !in t.effects
    ensures Sessions(Claimed(t, q))
  {
    DistinctClaim(t.effects, t.sessions, q.effectId, NewEffect(q));
    FullClaim(t.effects, t.sessions, q.effectId, NewEffect(q), SessionRow(q.sequence, q.now));
  }

  lemma SessionsTransition(t: Tables, id: Id, next: EffectState, now: nat, reason: string, evidence: string)
    requires Sessions(t) && id in t.effects
    ensures Sessions(Transitioned(t, id, next, now, reason, evidence))
  {
    var t' := Transitioned(t, id, next, now, reason, evidence);
    forall s, n | s in t'.sessions && 1 <= n <= t'.sessions[s].last
      ensures HasSequence(t'.effects, s, n)
    {
      HasSequenceKept(t.effects, t'.effects, s, n);
    }
  }

  // ---- targets ----------------------------------------------------------------------

  /** `x` was claimed no later than the target reached `row`: the fencing order. */
  predicate FencedBy(x: Effect, epoch: nat, revision: string, fence: nat) {
    && x.epoch <= epoch && x.fence <= fence
    && (x.epoch == epoch ==> x.revision == revision)
    && (x.epoch < epoch ==> x.fence < fence)
  }

  predicate Fenced(t: Tables) {
    && (forall e | e in t.effects ::
          && t.effects[e].targetId in t.targets
          && var row := t.targets[t.effects[e].targetId];
             t.effects[e].kind == row.kind && FencedBy(t.effects[e], row.epoch, row.revision, row.fence))
    && (forall e, f | e in t.effects && f in t.effects && t.effects[e].targetId == t.effects[f].targetId ::
          && (t.effects[e].epoch == t.effects[f].epoch ==> t.effects[e].revision == t.effects[f].revision)
          && (t.effects[e].epoch < t.effects[f].epoch ==> t.effects[e].fence < t.effects[f].fence))
  }

  lemma FencedClaim(t: Tables, q: ClaimRequest)
    requires Fenced(t) && TargetProblem(t, q).None? && q.effectId !in t.effects
    ensures Fenced(Claimed(t, q))
  {
  }

  lemma FencedTransition(t: Tables, id: Id, next: EffectState, now: nat, reason: string, evidence: string)
    requires Fenced(t) && id in t.effects
    ensures Fenced(Transitioned(t, id, next, now, reason, evidence))
  {
  }

  // ---- all together -----------------------------------------------------------------

  predicate Inv(t: Tables) {
    Budgets(t) && Sessions(t) && Fenced(t)
  }

  lemma FinalizeKeepsOtherTables(t: Tables, id: Id, key: Id, completed: nat)
    requires Finalize(t, id, key, completed).Finalized?
    ensures Finalize(t, id, key, completed).tables == t.(receipts := Finalize(t, id, key, completed).tables.receipts)
  {
  }

  lemma ClaimGuards(t: Tables, q: ClaimRequest)
    requires ClaimProblem(t, q).None?
    ensures WellFormed(q) && q.effectId !in t.effects
    ensures GrantProblem(t, q).None? && SessionProblem(t, q).None? && TargetProblem(t, q).None?
  {
  }

  lemma InvClaim(t: Tables, q: ClaimRequest)
    requires Inv(t) && ClaimProblem(t, q).None?
    ensures Inv(Claimed(t, q))
  {
    ClaimGuards(t, q);
    BudgetsClaim(t, q);
    SessionsClaim(t, q);
    FencedClaim(t, q);
  }

  lemma InvTransition(t: Tables, id: Id, next: EffectState, now: nat, reason: string, evidence: string)
    requires Inv(t) && id in t.effects
    ensures Inv(Transitioned(t, id, next, now, reason, evidence))
  {
    BudgetsTransition(t, id, next, now, reason, evidence);
    SessionsTransition(t, id, next, now, reason, evidence);
    FencedTransition(t, id, next, now, reason, evidence);
  }

  lemma InvFrame(t: Tables, t': Tables)
    requires Inv(t) && t' == t.(revoked := t'.revoked, receipts := t'.receipts)
    ensures Inv(t')
  {
  }

  lemma InvApply(t: Tables, op: Op)
    requires Inv(t)
    ensures Inv(Apply(t, op))
  {
    if Problem(t, op).None? {
      match op
      case Claim(q) => InvClaim(t, q);
      case Transition(id, next, now, reason, evidence) => InvTransition(t, id, next, now, reason, evidence);
      case Revoke(kind, id) => InvFrame(t, Apply(t, op));
      case FinalizeReceipt(id, key, completed) =>
        FinalizeKeepsOtherTables(t, id, key, completed);
        InvFrame(t, Apply(t, op));
    }
  }

  /** Over every run: budgets, session sequences and the fencing order. */
  lemma {:induction false} InvHolds(ops: seq<Op>)
    ensures Inv(Run(ops))
  {
    if ops != [] {
      InvHolds(ops[..|ops| - 1]);
      InvApply(Run(ops[..|ops| - 1]), ops[|ops| - 1]);
    }
  }
}
