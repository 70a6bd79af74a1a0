/** The run journal's event vocabulary and the part of a run contract that its
    validator consults.  One constructor per journal event kind; payload fields that no
    check ever compares (digests, action names, token receipts) are not represented. */
module RunEvents {


  /** Content-free workspace identity, compared only for equality. */
  datatype Workspace =
    | NoGit
    | Git(head: string, statusDigest: string, trackedDiffDigest: string, untrackedDigest: string)

  datatype Status = Complete | Partial | Failed | Cancelled

  datatype BlockContract = BlockContract(
    role: string,
    requiresChange: bool,
    maxRecoveryAttempts: nat,
    recoveryCodes: set<string>)

  datatype Contract = Contract(blocks: seq<BlockContract>)

  type StepId = string

  datatype Event =
    | RunStarted
    | RunResumed(nextBlockOrdinal: int, resumeVerifiedSequence: int)
    | ContextBound
    | BlockStarted(ordinal: nat, role: string)
    | RecoveryStarted(ordinal: nat, attempt: nat, recoveryCode: string)
    | RecoveryFinished(ordinal: nat, attempt: nat, status: Status)
    | ModelRoundStarted(ordinal: nat, round: nat, attempt: nat, promptTokens: nat)
    | ModelRoundCompleted(ordinal: nat, round: nat, attempt: nat, toolCallCount: nat)
    | ToolIntent(stepId: StepId, ordinal: nat, round: nat, attempt: nat, toolIndex: nat, mutating: bool)
    | ToolResult(stepId: StepId)
    | VerifierResult(ordinal: nat, verifier: string, passed: bool, workspace: Workspace)
    | BlockFinished(ordinal: nat, role: string, status: Status, verified: bool, workspace: Workspace)
    | RunFinished(status: Status, finalVerifiedSequence: int)

  const MAX_BLOCKS := 32

  predicate HasBlock(c: Contract, ordinal: nat) {
    ordinal < MAX_BLOCKS && ordinal < |c.blocks|
  }

  predicate AttemptAllowed(c: Contract, ordinal: nat, attempt: nat) {
    HasBlock(c, ordinal) && attempt <= 1 && attempt <= c.blocks[ordinal].maxRecoveryAttempts
  }

  /** The payload checks that precede sequence validation, for the fields kept here. */
  predicate PayloadValid(c: Contract, sequence: nat, e: Event) {
    match e
    case RunStarted => true
    case RunResumed(next, last) => 0 <= next <= MAX_BLOCKS && -1 <= last < sequence
    case ContextBound => true
    case BlockStarted(o, role) => HasBlock(c, o) && c.blocks[o].role == role
    case RecoveryStarted(o, a, code) => AttemptAllowed(c, o, a) && code in c.blocks[o].recoveryCodes
    case RecoveryFinished(o, a, _) => AttemptAllowed(c, o, a)
    case ModelRoundStarted(o, r, a, _) => r < 2048 && AttemptAllowed(c, o, a)
    case ModelRoundCompleted(o, r, a, n) => r < 2048 && n <= 256 && AttemptAllowed(c, o, a)
    case ToolIntent(_, o, r, a, i, _) => r < 2048 && i < 256 && AttemptAllowed(c, o, a)
    case ToolResult(_) => true
    case VerifierResult(o, _, _, _) => o < MAX_BLOCKS
    case BlockFinished(o, role, _, _, _) => HasBlock(c, o) && c.blocks[o].role == role
    case RunFinished(_, last) => -1 <= last < sequence
  }

  predicate PayloadsValid(c: Contract, es: seq<Event>) {
    forall i | 0 <= i < |es| :: PayloadValid(c, i, es[i])
  }

  /** The verifiers a block must have passed before it may finish verified. */
  function RequiredVerifiers(b: BlockContract): set<string> {
    {if b.role == "final" then "final_output" else "block_output"} +
    (if b.requiresChange then {"post_mutation"} else {})
  }
}
