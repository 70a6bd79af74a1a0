/** The control journal's tables and the meaning of one transaction over them. */
module ControlTables {
  import opened Options

  /** Opaque identifiers: UUIDs, key ids and target ids are only ever compared. */
  type Id = nat

  datatype EffectState = Prepared | Started | Applied | Verified | Failed | Unknown

  function AllowedTransitions(s: EffectState): set<EffectState> {
    match s
    case Prepared => {Started, Failed}
    case Started => {Applied, Failed, Unknown}
    case Applied => {Verified, Failed, Unknown}
    case Unknown => {Verified, Failed}
    case Verified => {}
    case Failed => {}
  }

  predicate Receiptable(s: EffectState) {
    s in {Verified, Failed, Unknown}
  }

  /** Signed documents; their content digests are the documents themselves. */
  datatype GrantDoc = GrantDoc(grantId: Id, maximum: nat, expires: nat, content: string)
  datatype PermitDoc = PermitDoc(permitId: Id, issued: nat, expires: nat, key: Id, content: string)
  datatype TargetRef = TargetRef(targetId: Id, kind: string, epoch: nat, revision: string, fence: nat)

  datatype GrantRow = GrantRow(binding: GrantDoc, maximum: nat, used: nat, expires: nat)
  datatype PermitRow = PermitRow(grantId: Id, binding: PermitDoc, requestDigest: string, consumed: nat, expires: nat)
  datatype SessionRow = SessionRow(last: nat, updated: nat)
  datatype TargetRow = TargetRow(kind: string, epoch: nat, revision: string, fence: nat, updated: nat)

  datatype Effect = Effect(
    permitId: Id, grantId: Id, sessionId: Id, requestDigest: string,
    targetId: Id, kind: string, epoch: nat, revision: string, fence: nat,
    sequence: nat, key: Id,
    state: EffectState, reason: string, evidence: string, version: nat, prepared: nat, updated: nat)

  datatype RevocationKind = GrantRevocation | PermitRevocation

  /** A receipt and its collision-free content digest. */
  datatype ReceiptDigest = EmptyHead | DigestOf(receipt: Receipt)
  datatype Receipt = Receipt(
    sequence: nat, previous: ReceiptDigest,
    effectId: Id, version: nat, state: EffectState, reason: string, evidence: string,
    completed: nat, key: Id)

  datatype Tables = Tables(
    grants: map<Id, GrantRow>,
    permits: map<Id, PermitRow>,
    sessions: map<Id, SessionRow>,
    targets: map<Id, TargetRow>,
    effects: map<Id, Effect>,
    revoked: set<(RevocationKind, Id)>,
    receipts: seq<Receipt>)

  const EMPTY := Tables(map[], map[], map[], map[], map[], {}, [])

  datatype Rejection =
    | InvalidEnvelope | AuthorityRejected | GrantExpired | PermitExpired | GrantRevoked | PermitRevoked
    | GrantBinding | GrantExhausted | PermitReplayed
    | SessionSequenceStart | SessionSequence | ClockRegression
    | TargetKindChanged | TargetEpochStale | TargetFenceStale | TargetRevisionChanged | TargetFenceNotAdvanced
    | JournalUnavailable
    | TransitionReason | EffectMissing | EffectTransition
    | EffectNotReceiptable | ReceiptKey | ReceiptSequence | ReceiptBinding | ReceiptSequenceExhausted

  const MAX_ACTION_COUNT := 64
  const MAX_SAFE_INTEGER := 0x1F_FFFF_FFFF_FFFF

  // ---- claim ------------------------------------------------------------------------

  /** A parsed envelope with the verdict of the signature and route checks, the fresh
      effect identifier, and the clock reading. */
  datatype ClaimRequest = ClaimRequest(
    authorized: bool, grant: GrantDoc, permit: PermitDoc,
    sessionId: Id, sequence: nat, requestDigest: string, target: TargetRef,
    effectId: Id, now: nat)

  predicate WellFormed(q: ClaimRequest) {
    && 1 <= q.grant.maximum <= MAX_ACTION_COUNT && 1 <= q.grant.expires
    && 1 <= q.sequence && 1 <= q.target.epoch && 1 <= q.target.fence
  }

  function EnvelopeProblem(q: ClaimRequest): Option<Rejection> {
    if !WellFormed(q) then Some(InvalidEnvelope)
    else if !q.authorized then Some(AuthorityRejected)
    else if q.now >= q.grant.expires then Some(GrantExpired)
    else if q.now < q.permit.issued || q.now >= q.permit.expires then Some(PermitExpired)
    else None
  }

  function GrantProblem(t: Tables, q: ClaimRequest): Option<Rejection> {
    var g := q.grant.grantId;
    if (GrantRevocation, g) in t.revoked then Some(GrantRevoked)
    else if (PermitRevocation, q.permit.permitId) in t.revoked then Some(PermitRevoked)
    else if g in t.grants && (t.grants[g].binding != q.grant || t.grants[g].maximum != q.grant.maximum
                              || t.grants[g].expires != q.grant.expires) then Some(GrantBinding)
    else if g in t.grants && t.grants[g].used >= q.grant.maximum then Some(GrantExhausted)
    else if q.permit.permitId in t.permits then Some(PermitReplayed)
    else None
  }

  function SessionProblem(t: Tables, q: ClaimRequest): Option<Rejection> {
    if q.sessionId !in t.sessions then
      if q.sequence != 1 then Some(SessionSequenceStart) else None
    else if q.sequence != t.sessions[q.sessionId].last + 1 then Some(SessionSequence)
    else if q.now < t.sessions[q.sessionId].updated then Some(ClockRegression)
    else None
  }

  function TargetProblem(t: Tables, q: ClaimRequest): Option<Rejection> {
    if q.target.targetId !in t.targets then None
    else
      var row := t.targets[q.target.targetId];
      if row.kind != q.target.kind then Some(TargetKindChanged)
      else if q.target.epoch < row.epoch then Some(TargetEpochStale)
      else if q.target.fence < row.fence then Some(TargetFenceStale)
      else if q.target.epoch == row.epoch && q.target.revision != row.revision then Some(TargetRevisionChanged)
      else if q.target.epoch != row.epoch && q.target.fence <= row.fence then Some(TargetFenceNotAdvanced)
      else if q.now < row.updated then Some(ClockRegression)
      else None
  }

  function First(a: Option<Rejection>, b: Option<Rejection>): Option<Rejection> {
    if a.Some? then a else b
  }

  function ClaimProblem(t: Tables, q: ClaimRequest): Option<Rejection> {
    First(EnvelopeProblem(q),
    First(GrantProblem(t, q),
    First(SessionProblem(t, q),
    First(TargetProblem(t, q),
          if q.effectId in t.effects then Some(JournalUnavailable) else None))))
  }

  function NewEffect(q: ClaimRequest): Effect {
    Effect(q.permit.permitId, q.grant.grantId, q.sessionId, q.requestDigest,
           q.target.targetId, q.target.kind, q.target.epoch, q.target.revision, q.target.fence,
           q.sequence, q.permit.key,
           Prepared, "none", "", 1, q.now, q.now)
  }

  function GrantAfter(t: Tables, q: ClaimRequest): GrantRow {
    var g := q.grant.grantId;
    if g in t.grants then t.grants[g].(used := t.grants[g].used + 1)
    else GrantRow(q.grant, q.grant.maximum, 1, q.grant.expires)
  }

  /** The tables after an accepted claim. */
  function Claimed(t: Tables, q: ClaimRequest): Tables {
    t.(grants := t.grants[q.grant.grantId := GrantAfter(t, q)],
       permits := t.permits[q.permit.permitId :=
         PermitRow(q.grant.grantId, q.permit, q.requestDigest, q.now, q.permit.expires)],
       sessions := t.sessions[q.sessionId := SessionRow(q.sequence, q.now)],
       targets := t.targets[q.target.targetId :=
         TargetRow(q.target.kind, q.target.epoch, q.target.revision, q.target.fence, q.now)],
       effects := t.effects[q.effectId := NewEffect(q)])
  }

  // ---- transition -------------------------------------------------------------------

  function StartProblem(t: Tables, e: Effect, now: nat): Option<Rejection> {
    if (GrantRevocation, e.grantId) in t.revoked then Some(GrantRevoked)
    else if (PermitRevocation, e.permitId) in t.revoked then Some(PermitRevoked)
    else if e.permitId !in t.permits then Some(JournalUnavailable)
    else if now >= t.permits[e.permitId].expires then Some(PermitExpired)
    else if e.targetId !in t.targets then Some(JournalUnavailable)
    else
      var row := t.targets[e.targetId];
      if row.kind != e.kind || row.epoch != e.epoch || row.revision != e.revision || row.fence != e.fence then
        Some(TargetFenceStale)
      else None
  }

  function TransitionProblem(t: Tables, id: Id, next: EffectState, now: nat, reason: string): Option<Rejection> {
    if next in {Started, Applied} && reason != "none" then Some(TransitionReason)
    else if Receiptable(next) && reason == "none" then Some(TransitionReason)
    else if id !in t.effects then Some(EffectMissing)
    else if next !in AllowedTransitions(t.effects[id].state) then Some(EffectTransition)
    else if now < t.effects[id].updated then Some(ClockRegression)
    else if next == Started then StartProblem(t, t.effects[id], now)
    else None
  }

  function Transitioned(t: Tables, id: Id, next: EffectState, now: nat, reason: string, evidence: string): Tables
    requires id in t.effects
  {
    var e := t.effects[id];
    t.(effects := t.effects[id := e.(state := next, reason := reason, evidence := evidence,
                                     version := e.version + 1, updated := now)])
  }

  // ---- finalize_receipt -------------------------------------------------------------

  function MinSequence(rs: seq<Receipt>): nat
    requires rs != []
  {
    if |rs| == 1 then rs[0].sequence
    else
      var m := MinSequence(rs[..|rs| - 1]);
      if rs[|rs| - 1].sequence < m then rs[|rs| - 1].sequence else m
  }

  function MaxSequence(rs: seq<Receipt>): nat
    requires rs != []
  {
    if |rs| == 1 then rs[0].sequence
    else
      var m := MaxSequence(rs[..|rs| - 1]);
      if rs[|rs| - 1].sequence > m then rs[|rs| - 1].sequence else m
  }

  /** The row for one transition of one effect, if it was already receipted. */
  function FindReceipt(rs: seq<Receipt>, id: Id, version: nat): Option<Receipt> {
    if rs == [] then None
    else if rs[|rs| - 1].effectId == id && rs[|rs| - 1].version == version then Some(rs[|rs| - 1])
    else FindReceipt(rs[..|rs| - 1], id, version)
  }

  function FindSequence(rs: seq<Receipt>, sequence: nat): Option<Receipt> {
    if rs == [] then None
    else if rs[|rs| - 1].sequence == sequence then Some(rs[|rs| - 1])
    else FindSequence(rs[..|rs| - 1], sequence)
  }

  datatype Link = Link(sequence: nat, previous: ReceiptDigest) | Broken(reason: Rejection)

  /** Where the next receipt goes, judged from the count, the extreme sequences and the
      newest row only. */
  function NextLink(rs: seq<Receipt>, key: Id): Link {
    if rs == [] then Link(1, EmptyHead)
    else if MinSequence(rs) != 1 || MaxSequence(rs) != |rs| then Broken(ReceiptSequence)
    else
      var latest := FindSequence(rs, |rs|);
      if latest.None? then Broken(ReceiptSequence)
      else if latest.value.key != key then Broken(ReceiptKey)
      else if latest.value.sequence + 1 > MAX_SAFE_INTEGER then Broken(ReceiptSequenceExhausted)
      else Link(latest.value.sequence + 1, DigestOf(latest.value))
  }

  datatype Finalized = Finalized(tables: Tables, receipt: Receipt) | NotFinalized(reason: Rejection)

  function Finalize(t: Tables, id: Id, key: Id, completed: nat): Finalized {
    if id !in t.effects then NotFinalized(EffectMissing)
    else
      var e := t.effects[id];
      if !Receiptable(e.state) then NotFinalized(EffectNotReceiptable)
      else if key != e.key then NotFinalized(ReceiptKey)
      else
        var existing := FindReceipt(t.receipts, id, e.version);
        if existing.Some? then
          if existing.value.key != key then NotFinalized(ReceiptKey)
          else if existing.value.state != e.state then NotFinalized(ReceiptBinding)
          else Finalized(t, existing.value)
        else
          var link := NextLink(t.receipts, key);
          if link.Broken? then NotFinalized(link.reason)
          else
            var r := Receipt(link.sequence, link.previous, id, e.version, e.state, e.reason, e.evidence,
                             if completed < e.updated then e.updated else completed, key);
            Finalized(t.(receipts := t.receipts + [r]), r)
  }

  // ---- runs -------------------------------------------------------------------------

  datatype Op =
    | Claim(request: ClaimRequest)
    | Transition(effectId: Id, next: EffectState, now: nat, reason: string, evidence: string)
    | Revoke(kind: RevocationKind, objectId: Id)
    | FinalizeReceipt(effectId: Id, key: Id, completed: nat)

  function Problem(t: Tables, op: Op): Option<Rejection> {
    match op
    case Claim(q) => ClaimProblem(t, q)
    case Transition(id, next, now, reason, _) => TransitionProblem(t, id, next, now, reason)
    case Revoke(_, _) => None
    case FinalizeReceipt(id, key, completed) =>
      var f := Finalize(t, id, key, completed);
      if f.NotFinalized? then Some(f.reason) else None
  }

  /** One serialised transaction: a rejected one leaves every table as it was. */
  function Apply(t: Tables, op: Op): Tables {
    if Problem(t, op).Some? then t
    else
      match op
      case Claim(q) => Claimed(t, q)
      case Transition(id, next, now, reason, evidence) => Transitioned(t, id, next, now, reason, evidence)
      case Revoke(kind, id) => t.(revoked := t.revoked + {(kind, id)})
      case FinalizeReceipt(id, key, completed) => Finalize(t, id, key, completed).tables
  }

  function Run(ops: seq<Op>): Tables {
    if ops == [] then EMPTY else Apply(Run(ops[..|ops| - 1]), ops[|ops| - 1])
  }
}
