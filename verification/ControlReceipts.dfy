/** The signed receipt chain: one global chain in one authority key, however the journal
    is driven, although each append inspects only its size, extremes and newest row. */
module ControlReceipts {
  import opened Options
  import opened ControlTables
  import opened ControlInvariants

  function PreviousOf(rs: seq<Receipt>, i: nat): ReceiptDigest
    requires i <= |rs|
  {
    if i == 0 then EmptyHead else DigestOf(rs[i - 1])
  }

  /** Contiguous sequences from 1, every previous digest correct, one authority key. */
  predicate Chain(rs: seq<Receipt>, key: Id) {
    forall i | 0 <= i < |rs| :: Linked(rs, i, key)
  }

  predicate Linked(rs: seq<Receipt>, i: nat, key: Id)
    requires i < |rs|
  {
    rs[i].sequence == i + 1 && rs[i].previous == PreviousOf(rs, i) && rs[i].key == key
  }

  ghost predicate GlobalChain(rs: seq<Receipt>) {
    rs == [] || Chain(rs, rs[0].key)
  }

  // ---- what the append's narrow inspection sees on an intact chain --------------------

  lemma {:induction false} Extremes(rs: seq<Receipt>)
    requires rs != [] && forall i | 0 <= i < |rs| :: rs[i].sequence == i + 1
    ensures MinSequence(rs) == 1 && MaxSequence(rs) == |rs|
  {
    if |rs| > 1 {
      var n := |rs| - 1;
      assert forall i | 0 <= i < n :: rs[..n][i] == rs[i];
      Extremes(rs[..n]);
    }
  }

  lemma {:induction false} ExtremesMeaning(rs: seq<Receipt>)
    requires rs != []
    ensures (forall i | 0 <= i < |rs| :: MinSequence(rs) <= rs[i].sequence <= MaxSequence(rs))
    ensures (exists i | 0 <= i < |rs| :: rs[i].sequence == MinSequence(rs))
    ensures (exists i | 0 <= i < |rs| :: rs[i].sequence == MaxSequence(rs))
  {
    if |rs| > 1 {
      var n := |rs| - 1;
      ExtremesMeaning(rs[..n]);
      assert forall i | 0 <= i < n :: rs[..n][i] == rs[i];
      var i :| 0 <= i < n && rs[..n][i].sequence == MinSequence(rs[..n]);
      var j :| 0 <= j < n && rs[..n][j].sequence == MaxSequence(rs[..n]);
      assert MinSequence(rs) == rs[i].sequence || MinSequence(rs) == rs[n].sequence;
      assert MaxSequence(rs) == rs[j].sequence || MaxSequence(rs) == rs[n].sequence;
    } else {
      assert rs[0].sequence == MinSequence(rs) == MaxSequence(rs);
    }
  }

  lemma {:induction false} FindSequenceMeaning(rs: seq<Receipt>, sequence: nat)
    ensures FindSequence(rs, sequence).Some? <==> exists i | 0 <= i < |rs| :: rs[i].sequence == sequence
    ensures FindSequence(rs, sequence).Some? ==> FindSequence(rs, sequence).value in rs
    ensures FindSequence(rs, sequence).Some? ==> FindSequence(rs, sequence).value.sequence == sequence
  {
    if rs != [] {
      var n := |rs| - 1;
      FindSequenceMeaning(rs[..n], sequence);
      assert forall i | 0 <= i < n :: rs[..n][i] == rs[i];
    }
  }

  /** What the narrow inspection detects on any table: it goes on only when all sequences lie
      within 1 and the count, both occur, and the newest row is in the signer's key. */
  lemma NarrowInspectionDetects(rs: seq<Receipt>, key: Id)
    requires rs != [] && NextLink(rs, key).Link?
    ensures forall i | 0 <= i < |rs| :: 1 <= rs[i].sequence <= |rs|
    ensures exists i | 0 <= i < |rs| :: rs[i].sequence == 1
    ensures exists i | 0 <= i < |rs| :: rs[i].sequence == |rs| && rs[i].key == key
                                        && NextLink(rs, key) == Link(|rs| + 1, DigestOf(rs[i]))
  {
    ExtremesMeaning(rs);
    FindSequenceMeaning(rs, |rs|);
    var i :| 0 <= i < |rs| && rs[i] == FindSequence(rs, |rs|).value;
    assert rs[i].sequence == |rs|;
  }

  lemma NextLinkExtends(rs: seq<Receipt>, key: Id)
    requires GlobalChain(rs) && NextLink(rs, key).Link?
    ensures NextLink(rs, key) == Link(|rs| + 1, PreviousOf(rs, |rs|))
    ensures rs != [] ==> rs[0].key == key
  {
    if rs != [] {
      forall i | 0 <= i < |rs|
        ensures rs[i].sequence == i + 1
      {
        assert Linked(rs, i, rs[0].key);
      }
      Extremes(rs);
      assert FindSequence(rs, |rs|) == Some(rs[|rs| - 1]);
      assert Linked(rs, |rs| - 1, rs[0].key);
    }
  }

  lemma ChainSnoc(rs: seq<Receipt>, r: Receipt)
    requires GlobalChain(rs) && r.sequence == |rs| + 1 && r.previous == PreviousOf(rs, |rs|)
    requires rs != [] ==> r.key == rs[0].key
    ensures GlobalChain(rs + [r])
  {
    var rs' := rs + [r];
    forall i | 0 <= i < |rs'|
      ensures Linked(rs', i, rs'[0].key)
    {
      if 0 < i { assert rs'[i - 1] == rs[i - 1]; }
      if i < |rs| { assert Linked(rs, i, rs[0].key); }
    }
  }

  // ---- receipts against effects -------------------------------------------------------

  /** A receipt describes its effect's current transition, or the UNKNOWN one before the
      terminal transition. */
  predicate Describes(r: Receipt, effects: map<Id, Effect>) {
    && r.effectId in effects && Receiptable(r.state)
    && var e := effects[r.effectId];
       && r.key == e.key
       && (r.version == e.version ==> r.state == e.state)
       && (r.version != e.version ==> r.version + 1 == e.version && r.state == Unknown && e.state in {Verified, Failed})
  }

  predicate Described(t: Tables) {
    forall i | 0 <= i < |t.receipts| :: Describes(t.receipts[i], t.effects)
  }

  /** Later receipts of one effect are for later transitions. */
  predicate Ordered(rs: seq<Receipt>) {
    forall i, j | 0 <= i < j < |rs| && rs[i].effectId == rs[j].effectId :: rs[i].version < rs[j].version
  }

  ghost predicate ReceiptInv(t: Tables) {
    GlobalChain(t.receipts) && Described(t) && Ordered(t.receipts)
  }

  lemma {:induction false} FindReceiptMeaning(rs: seq<Receipt>, id: Id, version: nat)
    ensures FindReceipt(rs, id, version).Some? ==>
              exists i | 0 <= i < |rs| ::
                rs[i] == FindReceipt(rs, id, version).value && rs[i].effectId == id && rs[i].version == version
    ensures FindReceipt(rs, id, version).None? ==>
              forall i | 0 <= i < |rs| :: rs[i].effectId != id || rs[i].version != version
  {
    if rs != [] {
      var n := |rs| - 1;
      FindReceiptMeaning(rs[..n], id, version);
      assert forall i | 0 <= i < n :: rs[..n][i] == rs[i];
    }
  }

  lemma FinalizeKeepsReceiptInv(t: Tables, id: Id, key: Id, completed: nat)
    requires ReceiptInv(t) && Finalize(t, id, key, completed).Finalized?
    ensures ReceiptInv(Finalize(t, id, key, completed).tables)
  {
    var e := t.effects[id];
    FindReceiptMeaning(t.receipts, id, e.version);
    if FindReceipt(t.receipts, id, e.version).None? {
      NextLinkExtends(t.receipts, key);
      var r := Finalize(t, id, key, completed).receipt;
      ChainSnoc(t.receipts, r);
      forall i | 0 <= i < |t.receipts| && t.receipts[i].effectId == id
        ensures t.receipts[i].version < r.version
      {
        assert Describes(t.receipts[i], t.effects);
      }
    }
  }

  lemma TransitionKeepsDescribed(t: Tables, id: Id, next: EffectState, now: nat, reason: string, evidence: string)
    requires Described(t) && TransitionProblem(t, id, next, now, reason).None?
    ensures Described(Transitioned(t, id, next, now, reason, evidence))
  {
    var t' := Transitioned(t, id, next, now, reason, evidence);
    forall i | 0 <= i < |t.receipts|
      ensures Describes(t.receipts[i], t'.effects)
    {
      assert Describes(t.receipts[i], t.effects);
    }
  }

  lemma ClaimKeepsDescribed(t: Tables, q: ClaimRequest)
    requires Described(t) && q.effectId !in t.effects
    ensures Described(Claimed(t, q))
  {
    forall i | 0 <= i < |t.receipts|
      ensures Describes(t.receipts[i], Claimed(t, q).effects)
    {
      assert Describes(t.receipts[i], t.effects);
    }
  }

  lemma ReceiptInvApply(t: Tables, op: Op)
    requires ReceiptInv(t)
    ensures ReceiptInv(Apply(t, op))
  {
    if Problem(t, op).None? {
      match op
      case Claim(q) =>
        ClaimGuards(t, q);
        ClaimKeepsDescribed(t, q);
      case Transition(id, next, now, reason, evidence) =>
        TransitionKeepsDescribed(t, id, next, now, reason, evidence);
      case Revoke(_, _) =>
      case FinalizeReceipt(id, key, completed) => FinalizeKeepsReceiptInv(t, id, key, completed);
    }
  }

  /** After every run the receipts form one chain in one key, and describe the effects. */
  lemma {:induction false} ReceiptInvHolds(ops: seq<Op>)
    ensures ReceiptInv(Run(ops))
  {
    if ops != [] {
      ReceiptInvHolds(ops[..|ops| - 1]);
      ReceiptInvApply(Run(ops[..|ops| - 1]), ops[|ops| - 1]);
    }
  }

  /** Two receipts of one effect are an UNKNOWN one followed by its terminal one. */
  lemma SecondReceiptIsTerminal(ops: seq<Op>, i: nat, j: nat)
    requires i < j < |Run(ops).receipts| && Run(ops).receipts[i].effectId == Run(ops).receipts[j].effectId
    ensures Run(ops).receipts[i].state == Unknown
    ensures Run(ops).receipts[j].state in {Verified, Failed}
    ensures Run(ops).receipts[j].version == Run(ops).receipts[i].version + 1
  {
    ReceiptInvHolds(ops);
    var t := Run(ops);
    assert Describes(t.receipts[i], t.effects) && Describes(t.receipts[j], t.effects);
  }

  /** So no effect has three receipts. */
  lemma AtMostTwoReceipts(ops: seq<Op>, i: nat, j: nat, k: nat)
    requires i < j < k < |Run(ops).receipts|
    requires Run(ops).receipts[i].effectId == Run(ops).receipts[j].effectId
    ensures Run(ops).receipts[j].effectId != Run(ops).receipts[k].effectId
  {
    if Run(ops).receipts[j].effectId == Run(ops).receipts[k].effectId {
      SecondReceiptIsTerminal(ops, i, j);
      SecondReceiptIsTerminal(ops, j, k);
    }
  }

  lemma {:induction false} FindReceiptUnique(rs: seq<Receipt>, i: nat)
    requires i < |rs| && Ordered(rs)
    ensures FindReceipt(rs, rs[i].effectId, rs[i].version) == Some(rs[i])
    decreases |rs|
  {
    var n := |rs| - 1;
    if i < n {
      assert rs[..n][i] == rs[i];
      FindReceiptUnique(rs[..n], i);
    }
  }

  /** A finalised receipt is stored, for the effect's current transition. */
  lemma FinalizedIsStored(t: Tables, id: Id, key: Id, completed: nat) returns (i: nat)
    requires Finalize(t, id, key, completed).Finalized?
    ensures var f := Finalize(t, id, key, completed);
            && i < |f.tables.receipts| && f.tables.receipts[i] == f.receipt
            && f.receipt.effectId == id && f.receipt.version == t.effects[id].version
            && f.receipt.key == key && f.receipt.state == t.effects[id].state
  {
    var e := t.effects[id];
    FindReceiptMeaning(t.receipts, id, e.version);
    if FindReceipt(t.receipts, id, e.version).None? {
      i := |t.receipts|;
    } else {
      i :| 0 <= i < |t.receipts| && t.receipts[i] == FindReceipt(t.receipts, id, e.version).value
           && t.receipts[i].effectId == id && t.receipts[i].version == e.version;
    }
  }

  /** As long as its effect makes no transition, finalising an effect again -- whatever
      else the journal did meanwhile -- returns the same receipt and adds nothing. */
  lemma FinalizeRepeats(t: Tables, id: Id, key: Id, completed: nat, later: Tables, completed': nat)
    requires Finalize(t, id, key, completed).Finalized? && Ordered(later.receipts)
    requires Finalize(t, id, key, completed).tables.receipts <= later.receipts
    requires id in later.effects && later.effects[id] == t.effects[id]
    ensures Finalize(later, id, key, completed') == Finalized(later, Finalize(t, id, key, completed).receipt)
  {
    var i := FinalizedIsStored(t, id, key, completed);
    assert later.receipts[i] == Finalize(t, id, key, completed).receipt;
    FindReceiptUnique(later.receipts, i);
  }

  /** The same over runs: between the two calls no operation transitions the effect. */
  lemma {:induction false} EffectRests(ops: seq<Op>, i: nat, j: nat, id: Id)
    requires i <= j <= |ops| && id in Run(ops[..i]).effects
    requires forall k | i <= k < j :: !(ops[k].Transition? && ops[k].effectId == id)
    ensures id in Run(ops[..j]).effects && Run(ops[..j]).effects[id] == Run(ops[..i]).effects[id]
    decreases j
  {
    if i < j {
      EffectRests(ops, i, j - 1, id);
      assert ops[..j][..j - 1] == ops[..j - 1];
      RestsApply(Run(ops[..j - 1]), ops[j - 1], id);
    }
  }

  lemma RestsApply(t: Tables, op: Op, id: Id)
    requires id in t.effects && !(op.Transition? && op.effectId == id)
    ensures id in Apply(t, op).effects && Apply(t, op).effects[id] == t.effects[id]
  {
    if Problem(t, op).None? && op.Claim? {
      ClaimGuards(t, op.request);
    }
  }

  lemma FinalizeIsIdempotent(ops: seq<Op>, i: nat, id: Id, key: Id, completed: nat, completed': nat)
    requires i < |ops| && ops[i] == FinalizeReceipt(id, key, completed)
    requires Finalize(Run(ops[..i]), id, key, completed).Finalized?
    requires forall k | i < k < |ops| :: !(ops[k].Transition? && ops[k].effectId == id)
    ensures Finalize(Run(ops), id, key, completed') ==
            Finalized(Run(ops), Finalize(Run(ops[..i]), id, key, completed).receipt)
  {
    assert ops[..|ops|] == ops && ops[..i + 1][..i] == ops[..i];
    FinalizeKeepsOtherTables(Run(ops[..i]), id, key, completed);
    ReceiptInvHolds(ops);
    EffectRests(ops, i + 1, |ops|, id);
    ReceiptsGrow(ops, i + 1, |ops|);
    FinalizeRepeats(Run(ops[..i]), id, key, completed, Run(ops), completed');
  }

  /** Receipts are only ever appended. */
  lemma {:induction false} ReceiptsGrow(ops: seq<Op>, i: nat, j: nat)
    requires i <= j <= |ops|
    ensures Run(ops[..i]).receipts <= Run(ops[..j]).receipts
    decreases j
  {
    if i < j {
      ReceiptsGrow(ops, i, j - 1);
      assert ops[..j][..j - 1] == ops[..j - 1];
    }
  }

  // ---- the full reader ----------------------------------------------------------------

  /** `_receipt_sequence_from_connection`: walk the rows in sequence order and verify every
      link under one verifier key. */
  method VerifySequence(rows: seq<Receipt>, verifierKey: Id) returns (problem: Option<Rejection>)
    ensures problem.None? <==> Chain(rows, verifierKey)
  {
    var expected, previous := 1, EmptyHead;
    for i := 0 to |rows|
      invariant expected == i + 1 && previous == PreviousOf(rows, i)
      invariant forall k | 0 <= k < i :: Linked(rows, k, verifierKey)
    {
      if rows[i].key != verifierKey {
        assert !Linked(rows, i, verifierKey);
        return Some(ReceiptKey);
      }
      if rows[i].sequence != expected || rows[i].previous != previous {
        assert !Linked(rows, i, verifierKey);
        return Some(ReceiptSequence);
      }
      previous := DigestOf(rows[i]);
      expected := expected + 1;
    }
    return None;
  }

  /** A chain is determined by any one of its receipts, up to there: digests cover
      everything before them. */
  lemma {:induction false} ReceiptFixesPrefix(a: seq<Receipt>, b: seq<Receipt>, keyA: Id, keyB: Id, k: nat)
    requires Chain(a, keyA) && Chain(b, keyB) && k < |a| && k < |b| && a[k] == b[k]
    ensures a[..k + 1] == b[..k + 1]
  {
    assert Linked(a, k, keyA) && Linked(b, k, keyB);
    if 0 < k {
      ReceiptFixesPrefix(a, b, keyA, keyB, k - 1);
    }
    assert a[..k + 1] == a[..k] + [a[k]] && b[..k + 1] == b[..k] + [b[k]];
  }
}
