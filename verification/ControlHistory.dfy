/** Safety of effect starts over whole runs: at most once, within budget, fenced, and
    never after a revocation. */
module ControlHistory {
  import opened ControlTables
  import opened ControlInvariants

  /** Only the progress fields of an effect ever change, and none returns to PREPARED. */
  predicate SameEffect(e: Effect, e': Effect) {
    && e' == e.(state := e'.state, reason := e'.reason, evidence := e'.evidence,
                version := e'.version, updated := e'.updated)
    && (e.state != Prepared ==> e'.state != Prepared)
  }

  /** How the tables may change over any stretch of a run. */
  predicate Extends(t: Tables, t': Tables) {
    && (forall g | g in t.grants :: g in t'.grants && t'.grants[g].maximum == t.grants[g].maximum)
    && (forall e | e in t.effects :: e in t'.effects && SameEffect(t.effects[e], t'.effects[e]))
    && (forall x | x in t.targets :: x in t'.targets && t.targets[x].fence <= t'.targets[x].fence)
    && t.revoked <= t'.revoked
  }

  lemma ExtendsClaim(t: Tables, q: ClaimRequest)
    requires ClaimProblem(t, q).None?
    ensures Extends(t, Claimed(t, q))
  {
    ClaimGuards(t, q);
  }

  lemma ExtendsApply(t: Tables, op: Op)
    ensures Extends(t, Apply(t, op))
  {
    if Problem(t, op).None? {
      match op
      case Claim(q) => ExtendsClaim(t, q);
      case Transition(_, _, _, _, _) =>
      case Revoke(_, _) =>
      case FinalizeReceipt(id, key, completed) => FinalizeKeepsOtherTables(t, id, key, completed);
    }
  }

  lemma ExtendsTransitive(a: Tables, b: Tables, c: Tables)
    requires Extends(a, b) && Extends(b, c)
    ensures Extends(a, c)
  {
    forall e | e in a.effects
      ensures SameEffect(a.effects[e], c.effects[e])
    {
      assert SameEffect(b.effects[e], c.effects[e]);
    }
  }

  lemma {:induction false} RunExtends(ops: seq<Op>, i: nat, j: nat)
    requires i <= j <= |ops|
    ensures Extends(Run(ops[..i]), Run(ops[..j]))
    decreases j
  {
    if i < j {
      RunExtends(ops, i, j - 1);
      assert ops[..j][..j - 1] == ops[..j - 1];
      ExtendsApply(Run(ops[..j - 1]), ops[j - 1]);
      ExtendsTransitive(Run(ops[..i]), Run(ops[..j - 1]), Run(ops[..j]));
    }
  }

  /** Operation `k` of the run moves effect `id` to STARTED. */
  predicate StartsAt(ops: seq<Op>, k: nat, id: Id) {
    && k < |ops| && ops[k].Transition? && ops[k].effectId == id && ops[k].next == Started
    && Problem(Run(ops[..k]), ops[k]).None?
  }

  lemma StartFacts(ops: seq<Op>, k: nat, id: Id)
    requires StartsAt(ops, k, id)
    ensures var t := Run(ops[..k]);
            && id in t.effects && t.effects[id].state == Prepared
            && t.effects[id].targetId in t.targets
            && t.targets[t.effects[id].targetId].fence == t.effects[id].fence
            && (GrantRevocation, t.effects[id].grantId) !in t.revoked
            && (PermitRevocation, t.effects[id].permitId) !in t.revoked
    ensures id in Run(ops[..k + 1]).effects && Run(ops[..k + 1]).effects[id].state == Started
  {
    assert ops[..k + 1][..k] == ops[..k];
  }

  /** An effect's row as the whole run leaves it has the identity it had when it started. */
  lemma StartedEffect(ops: seq<Op>, k: nat, id: Id)
    requires StartsAt(ops, k, id)
    ensures id in Run(ops).effects && id in Run(ops[..k]).effects
    ensures SameEffect(Run(ops[..k]).effects[id], Run(ops).effects[id])
  {
    StartFacts(ops, k, id);
    RunExtends(ops, k, |ops|);
    assert ops[..|ops|] == ops;
  }

  /** No effect enters STARTED twice. */
  lemma StartsAtMostOnce(ops: seq<Op>, i: nat, j: nat, id: Id)
    requires StartsAt(ops, i, id) && StartsAt(ops, j, id)
    ensures i == j
  {
    var lo, hi := if i < j then i else j, if i < j then j else i;
    StartFacts(ops, lo, id);
    StartFacts(ops, hi, id);
    if lo < hi {
      RunExtends(ops, lo + 1, hi);
    }
  }

  /** Starts on one target happen in non-decreasing fencing-token order. */
  lemma StartsInFenceOrder(ops: seq<Op>, i: nat, j: nat, first: Id, second: Id)
    requires i <= j && StartsAt(ops, i, first) && StartsAt(ops, j, second)
    requires first in Run(ops).effects && second in Run(ops).effects
    requires Run(ops).effects[first].targetId == Run(ops).effects[second].targetId
    ensures Run(ops).effects[first].fence <= Run(ops).effects[second].fence
  {
    StartFacts(ops, i, first);
    StartFacts(ops, j, second);
    StartedEffect(ops, i, first);
    StartedEffect(ops, j, second);
    RunExtends(ops, i, j);
  }

  /** Once any claim has raised a target's fence, effects claimed under an older fence can
      never start. */
  lemma StaleFenceNeverStarts(ops: seq<Op>, i: nat, j: nat, id: Id, newer: Id)
    requires i <= j < |ops|
    requires id in Run(ops[..i]).effects && newer in Run(ops[..i]).effects
    requires Run(ops[..i]).effects[newer].targetId == Run(ops[..i]).effects[id].targetId
    requires Run(ops[..i]).effects[id].fence < Run(ops[..i]).effects[newer].fence
    ensures !StartsAt(ops, j, id)
  {
    InvHolds(ops[..i]);
    RunExtends(ops, i, j);
    if StartsAt(ops, j, id) {
      StartFacts(ops, j, id);
    }
  }

  lemma RevocationRecorded(ops: seq<Op>, i: nat)
    requires i < |ops| && ops[i].Revoke?
    ensures (ops[i].kind, ops[i].objectId) in Run(ops[..i + 1]).revoked
  {
    assert ops[..i + 1][..i] == ops[..i];
  }

  /** No effect starts after its grant or its permit is revoked. */
  lemma NoStartAfterRevocation(ops: seq<Op>, i: nat, j: nat, id: Id)
    requires i < j && StartsAt(ops, j, id) && ops[i].Revoke?
    ensures id in Run(ops).effects
    ensures ops[i].kind == GrantRevocation ==> ops[i].objectId != Run(ops).effects[id].grantId
    ensures ops[i].kind == PermitRevocation ==> ops[i].objectId != Run(ops).effects[id].permitId
  {
    StartFacts(ops, j, id);
    StartedEffect(ops, j, id);
    RevocationRecorded(ops, i);
    RunExtends(ops, i + 1, j);
  }

  // ---- starts under a grant -----------------------------------------------------------

  /** The effects that some operation of the run started. */
  function StartedEffects(ops: seq<Op>): set<Id> {
    if ops == [] then {}
    else
      var n := |ops| - 1;
      StartedEffects(ops[..n]) + if LastStarts(ops) then {ops[n].effectId} else {}
  }

  predicate LastStarts(ops: seq<Op>) {
    ops != [] && ops[|ops| - 1].Transition? && StartsAt(ops, |ops| - 1, ops[|ops| - 1].effectId)
  }

  /** The effect of grant `g` that the last operation started, if it did. */
  function LastStartOf(ops: seq<Op>, g: Id): set<Id>
    requires ops != []
  {
    set e | LastStarts(ops) && e == ops[|ops| - 1].effectId && e in Run(ops).effects && Run(ops).effects[e].grantId == g
  }

  /** How many operations of the run started an effect of grant `g`. */
  function StartsUnder(ops: seq<Op>, g: Id): nat {
    if ops == [] then 0
    else StartsUnder(ops[..|ops| - 1], g) + if LastStartOf(ops, g) == {} then 0 else 1
  }

  lemma StartsAtPrefix(ops: seq<Op>, n: nat, k: nat, id: Id)
    requires k < n <= |ops|
    ensures StartsAt(ops[..n], k, id) <==> StartsAt(ops, k, id)
  {
    assert ops[..n][..k] == ops[..k];
  }

  lemma {:induction false} StartedEffectsMeaning(ops: seq<Op>, id: Id)
    requires id in StartedEffects(ops)
    ensures id in Run(ops).effects && exists k | 0 <= k < |ops| :: StartsAt(ops, k, id)
  {
    var n := |ops| - 1;
    if id in StartedEffects(ops[..n]) {
      StartedEffectsMeaning(ops[..n], id);
      var k :| 0 <= k < n && StartsAt(ops[..n], k, id);
      StartsAtPrefix(ops, n, k, id);
      StartedEffect(ops, k, id);
    } else {
      StartedEffect(ops, n, id);
    }
  }

  function StartedOf(ops: seq<Op>, g: Id): set<Id> {
    set e | e in StartedEffects(ops) && e in Run(ops).effects && Run(ops).effects[e].grantId == g
  }

  /** The last operation never starts an effect that an earlier one started. */
  lemma LastStartIsNew(ops: seq<Op>)
    requires LastStarts(ops)
    ensures ops[|ops| - 1].effectId !in StartedEffects(ops[..|ops| - 1])
  {
    var n := |ops| - 1;
    var id := ops[n].effectId;
    if id in StartedEffects(ops[..n]) {
      StartedEffectsMeaning(ops[..n], id);
      var k :| 0 <= k < n && StartsAt(ops[..n], k, id);
      StartsAtPrefix(ops, n, k, id);
      StartsAtMostOnce(ops, k, n, id);
    }
  }

  lemma StartedOfSnoc(ops: seq<Op>, g: Id)
    requires ops != []
    ensures StartedOf(ops, g) == StartedOf(ops[..|ops| - 1], g) + LastStartOf(ops, g)
  {
    var n := |ops| - 1;
    RunExtends(ops, n, |ops|);
    assert ops[..|ops|] == ops;
    forall e | e in StartedEffects(ops[..n])
      ensures e in Run(ops[..n]).effects
    {
      StartedEffectsMeaning(ops[..n], e);
    }
  }

  lemma LastStartIsDisjoint(ops: seq<Op>, g: Id)
    requires ops != []
    ensures StartedOf(ops[..|ops| - 1], g) !! LastStartOf(ops, g)
    ensures |LastStartOf(ops, g)| == if LastStartOf(ops, g) == {} then 0 else 1
  {
    if e :| e in LastStartOf(ops, g) {
      LastStartIsNew(ops);
      assert LastStartOf(ops, g) == {e};
    }
  }

  /** Each counted start names a different effect. */
  lemma {:induction false} StartsAreDistinct(ops: seq<Op>, g: Id)
    ensures StartsUnder(ops, g) == |StartedOf(ops, g)|
  {
    if ops != [] {
      StartsAreDistinct(ops[..|ops| - 1], g);
      StartedOfSnoc(ops, g);
      LastStartIsDisjoint(ops, g);
    }
  }

  lemma SubsetSize<T>(a: set<T>, b: set<T>)
    requires a <= b
    ensures |a| <= |b|
  {
    assert b == a + (b - a);
  }

  /** A grant never yields more starts than its maximum action count. */
  lemma StartsWithinGrant(ops: seq<Op>, g: Id)
    requires g in Run(ops).grants
    ensures StartsUnder(ops, g) <= Run(ops).grants[g].used <= Run(ops).grants[g].maximum
  {
    InvHolds(ops);
    StartsAreDistinct(ops, g);
    SubsetSize(StartedOf(ops, g), EffectsOf(Run(ops).effects, g));
  }
}
