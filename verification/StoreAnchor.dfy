/** What the thread store and the goal ledger share: authenticated payloads linked by
    receipts, and the external head that is advanced by compare-and-set. */
module StoreAnchor {
  import opened Options

  /** A collision-free keyed receipt, as a free constructor over what it signs. */
  datatype Receipt<C(==)> = NoReceipt | Signed(sequence: nat, previous: Receipt<C>, content: C)

  /** A protected store file.  One read back may hold anything in any field. */
  datatype Payload<C(==)> = Payload(sequence: nat, previous: Receipt<C>, content: C, receipt: Receipt<C>)

  datatype Head<C(==)> = Head(sequence: nat, receipt: Receipt<C>)

  function Seal<C(==)>(sequence: nat, previous: Receipt<C>, content: C): Payload<C> {
    Payload(sequence, previous, content, Signed(sequence, previous, content))
  }

  predicate Authentic<C(==)>(p: Payload<C>) {
    && p.sequence >= 1
    && (p.sequence == 1 <==> p.previous.NoReceipt?)
    && p.receipt == Signed(p.sequence, p.previous, p.content)
  }

  /** A receipt fixes everything it signs: whatever authentic payload carries it is the one. */
  lemma ReceiptFixesPayload<C>(p: Payload<C>, q: Payload<C>)
    requires Authentic(p) && Authentic(q) && p.receipt == q.receipt
    ensures p == q
  {
  }

  function HeadOf<C(==)>(p: Payload<C>): Head<C> {
    Head(p.sequence, p.receipt)
  }

  /** `require_elsie_store_anchor` */
  predicate Anchors<C(==)>(anchor: Option<Head<C>>, p: Payload<C>) {
    anchor == Some(HeadOf(p))
  }

  predicate Follows<C(==)>(q: Payload<C>, p: Payload<C>) {
    q.sequence == p.sequence + 1 && q.previous == p.receipt
  }

  /** The precondition of `advance_elsie_store_anchor`. */
  predicate Succeeds<C(==)>(anchor: Option<Head<C>>, p: Payload<C>) {
    match anchor
    case None => p.sequence == 1 && p.previous.NoReceipt?
    case Some(h) => p.sequence == h.sequence + 1 && p.previous == h.receipt
  }

  /** What the anchor store does with a well-formed update: perform it, refuse it, become
      unreachable before it, or perform it and fail to say so. */
  datatype Cas = Lands | Refused | Unreachable | LandsUnreported

  predicate Landed<C(==)>(anchor: Option<Head<C>>, p: Payload<C>, cas: Cas) {
    Succeeds(anchor, p) && (cas.Lands? || cas.LandsUnreported?)
  }

  // ---- durable traces -------------------------------------------------------------------

  datatype Outcome<R, P> = Returned(value: R) | Raised(problem: P) | Died

  /** The durable states an operation passes through, in order, and how it ends. */
  datatype Plan<W, R, P> = Plan(trace: seq<W>, result: Outcome<R, P>)

  /** The durable state when the process dies after `lives` writes, or finishes. */
  function At<W>(trace: seq<W>, lives: nat): W
    requires trace != []
  {
    if lives < |trace| then trace[lives] else trace[|trace| - 1]
  }

  function Last<W>(trace: seq<W>): W
    requires trace != []
  {
    trace[|trace| - 1]
  }

  /** How the operation ends for a process that dies after `lives` writes. */
  function Ends<W, R, P>(plan: Plan<W, R, P>, lives: nat): Outcome<R, P> {
    if lives + 1 < |plan.trace| then Died else plan.result
  }

  /** Writes left over once the operation is done. */
  function Left<W, R, P>(plan: Plan<W, R, P>, lives: nat): nat {
    if lives + 1 < |plan.trace| || |plan.trace| == 0 then 0 else lives + 1 - |plan.trace|
  }
}
