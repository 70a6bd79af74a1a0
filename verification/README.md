# Durable protocols of algo_cli, modelled and proved

`algo_cli` keeps its agent runs, control effects, private events, threads, goals and
artifacts in local logs and files, most of them paired with an external anchor that only
moves by compare-and-set. This project models those protocols in Dafny and proves what
they guarantee over every history, every interleaving and every crash.

`dafny verify dfyconfig.toml` checks the whole project.

## What is modelled

| files | part of the system |
|---|---|
| `RunEvents`, `RunValidator`, `RunMachine`, `RunResume` | the agent run journal: its thirteen events, the sequence validator as a fold and as it runs, and `resume_state`, a second reading of the same events |
| `RunAgreement`, `RunMutations`, `RunSpans` | theorems about the two readings, about mutating tool calls and resumption, and about what a verified block certifies |
| `RunGrammar`, `RunReports`, `RunProgress` | the same machine without state: which event may follow which history, what the resume reading reports of a history, and which histories an honest process can write |
| `RunAnchor` | the journal's hash chain beside an anchor that may lag by one event |
| `ControlTables`, `ControlInvariants`, `ControlHistory`, `ControlReceipts`, `ControlGuards`, `ControlJournal` | the control journal: grants, permits, sessions, targets, effects and receipts; `ControlJournal` is the row-by-row transactional form |
| `ReceiptAnchor` | the receipt-anchor synchroniser, alone and among any number of processes |
| `EventLines`, `EventCodec`, `EventStore`, `EventRefinement` | the private event store: bytes and lines, a codec that meets the store's assumptions, the one-pass retention scan with its reports, and its refinement of a whole-history specification |
| `StoreAnchor` | signed payloads and the anchor shared by the next two stores |
| `ThreadStore`, `ThreadFiles` | the protected thread store, which rolls an unanchored stage back |
| `GoalLedger`, `GoalRuns`, `GoalGuards`, `GoalFiles` | the protected goal ledger, which rolls a stage forward |
| `MapSums`, `ArtifactTables`, `ArtifactInvariants`, `ArtifactGuards`, `ArtifactStore` | the encrypted artifact store's accounting |
| `Catalog` | catalog paging by binary search |

Modelling choices that hold throughout:

- Digests and receipts are free datatype constructors over what they sign. This is the
  collision-freedom assumption, made explicit; forged files may hold any field values.
- A region under an exclusive lock is one operation; a crash may fall between any two of
  its durable writes. A compare-and-set may succeed, be refused, be unreachable, or succeed
  without saying so.
- Loops and mutated objects of the source are methods and classes here, each proved
  against a function of its input or old state; the theorems are about those functions.
- For every operation there is also a theorem that says exactly when it succeeds, in terms of
  the history or the tables and not of the function that decides it (`RunGrammar`, `RunReports`,
  the `*Guards` files and the `*Exactly` lemmas elsewhere).
- Clocks, random identifiers, encrypted sizes, capability checks and the JSON codec are
  parameters. The codec is any codec that satisfies `EventLines.Lawful`: invertible,
  brace-delimited, no line feed inside a record (section 7 of RFC 8259), and no object is
  a proper prefix of another. `EventCodec.TokenCodecIsLawful` gives one.
- Event times are integer clock ticks; elsewhere times are real numbers.

## Where the code is weaker than it looks

- `resume_state` never clears its checkpoint gap on `run_resumed`, while the validator does.
  After a resume across a gap, once another block is checkpointed, `resume_state` reports
  a boundary that the journal rejects (`RunAgreement.ResumeAcrossGapMisleads`). The two
  readings agree exactly when that has not happened (`RunAgreement.AgreementIsExact`).
- `can_resume` ignores model rounds in flight (`RunAgreement.CanResumeIgnoresInFlightRounds`);
  the exact condition is `RunAgreement.ResumeAcceptedExactly`.
- A crash after the first journal event and before its anchor is the one window restart
  cannot get past (`RunAnchor.FirstEventWindowIsFatal`).
- The first call of thread-store preparation after an unanchored first stage raises, since
  the presence of a stage is read before recovery removes it
  (`ThreadStore.OneCallSufficesExactly`).
- A goal save that raised because its compare-and-set was refused is committed by the next
  recovery all the same (`GoalRuns.RefusedSaveCommitsLater`). A save is committed by the next
  recovery exactly when it got as far as its stage, however it ended
  (`GoalRuns.SaveCommitsExactly`); on a ledger with nothing pending that, and failing all the
  same, depends only on the cursor, the anchor's answer and where the process dies
  (`GoalRuns.FailedSaveCommitsExactly`).
- Updating a protected thread store to no records at all would leave it refused for good
  (`ThreadStore.UpdateKeepsHealthExactly`, `ThreadStore.EmptyingIsFatal`). None of the four
  callbacks does this; the input is hypothetical.

## Model

| member | source | states |
|---|---|---|
| `RunValidator.PrefixAccepted` | algo_cli/agent_run_journal.py:752-982 | every prefix of an accepted history is accepted |
| `RunValidator.RejectionIsFinal` | algo_cli/agent_run_journal.py:738-757 | a rejected prefix rejects every extension with the same reason |
| `RunMachine.ValidateEventSequence` | algo_cli/agent_run_journal.py:708-982 | the loop over mutable state gives exactly the verdict of the fold, reason included |
| `RunMachine.Machine.Consume` | algo_cli/agent_run_journal.py:752-982 | one event: accepted exactly when the step function accepts, with all thirteen fields as it says, and the protocol invariants are kept |
| `RunMachine.Machine.OnResumed` | algo_cli/agent_run_journal.py:765-786 | the five guards in order; on success the block state is dropped and the gap cleared |
| `RunMachine.Machine.OnBlockStarted` | algo_cli/agent_run_journal.py:793-806 | no second active block, and only at the next execution ordinal |
| `RunMachine.Machine.OnRoundStarted` | algo_cli/agent_run_journal.py:808-825 | no overlap with an open round or batch; attempt above zero exactly inside recovery |
| `RunMachine.Machine.OnRoundCompleted` | algo_cli/agent_run_journal.py:827-848 | closes the matching round and opens a batch of the declared size |
| `RunMachine.Machine.OnIntent` | algo_cli/agent_run_journal.py:850-877 | an intent belongs to the open batch, is new there, and is recorded as pending and, if mutating, as unverified |
| `RunMachine.Machine.OnResult` | algo_cli/agent_run_journal.py:879-892 | a result matches a pending intent, and removes it |
| `RunMachine.Machine.OnRecoveryStarted` | algo_cli/agent_run_journal.py:894-903 | recovery opens only in the active block with nothing in flight |
| `RunMachine.Machine.OnRecoveryFinished` | algo_cli/agent_run_journal.py:905-912 | recovery closes only when open and nothing is in flight |
| `RunMachine.Machine.OnVerifier` | algo_cli/agent_run_journal.py:914-925 | the latest result and workspace of each verifier of the active block |
| `RunMachine.Machine.OnBlockFinished` | algo_cli/agent_run_journal.py:927-970 | when a finish is accepted and how it moves boundary, gap and unverified steps |
| `RunMachine.Machine.OnRunFinished` | algo_cli/agent_run_journal.py:972-980 | a run ends only between blocks and names the last verified sequence |
| `RunResume.ResumeState` | algo_cli/agent_run_journal.py:1772-1846 | the loop gives exactly the fold's reading, or the first corruption it meets, and the uncertain steps |
| `RunResume.VerifiedBlocks` | algo_cli/agent_run_journal.py:1848-1874 | the checkpoints of the completed ordinals, or the cross-check's complaint |
| `RunAgreement.ShapeHolds` | algo_cli/agent_run_journal.py:752-982 | on every accepted history: the batch, round, pending-intent and boundary invariants of the validator's state |
| `RunAgreement.ResumeIsConservative` | algo_cli/agent_run_journal.py:1772-1846 | on every accepted history the second reading is not corrupt, its completed list is a prefix of the validator's and its uncertain steps a superset |
| `RunAgreement.ResumeAgrees` | algo_cli/agent_run_journal.py:708-982 | with no resume across a gap, both readings agree on completed ordinals, last verified sequence, pending intents and unverified steps |
| `RunAgreement.AgreementIsExact` | algo_cli/agent_run_journal.py:784-786 | on every accepted history: completed ordinals, last verified sequence, pending intents and unverified steps all agree if and only if no checkpoint was made after a resume across a gap; otherwise the completed lists differ |
| `RunAgreement.CheckpointsMatch` | algo_cli/agent_run_journal.py:1848-1874 | the cross-check of `verified_blocks` never fires on an accepted history |
| `RunAgreement.InFlightIsActive` | algo_cli/agent_run_journal.py:808-848 | the active round is set exactly when some started round has no completion after it |
| `RunAgreement.CursorBounded` | algo_cli/agent_run_journal.py:793-970 | the execution cursor stays within the contract's ordinal range |
| `RunAgreement.ResumeAcceptedExactly` | algo_cli/agent_run_journal.py:765-786 | on every accepted history: the resume that `resume_state` prescribes is accepted if and only if no checkpoint followed a resume across a gap, `can_resume` holds, no round is in flight and every intent is answered |
| `RunAgreement.CanResumeIgnoresInFlightRounds` | algo_cli/agent_run_journal.py:91-92 | a history that `can_resume` calls resumable and the journal refuses |
| `RunAgreement.ResumeAcrossGapMisleads` | algo_cli/agent_run_journal.py:1800-1846 | a settled history whose prescribed resume is rejected because the gap was not cleared |
| `RunGrammar.NextExactly` | algo_cli/agent_run_journal.py:752-982 | after any accepted history and for each of the thirteen events: accepted if and only if a condition on the positions of the history holds -- open block, round in flight, calls declared, announced and answered, recovery bracket, latest verifier words, last checkpointing finish |
| `RunGrammar.AcceptedExactly` | algo_cli/agent_run_journal.py:708-982 | the validator accepts exactly the histories in which every event was admissible in that sense |
| `RunGrammar.ReasonIsTrue` | algo_cli/agent_run_journal.py:738-982 | whatever reason the validator rejects an event for is true of the history before it; two of its reasons can never be given |
| `RunGrammar.ObserveBatch` | algo_cli/agent_run_journal.py:827-892 | the open batch is what the latest completed round declared, with as many intents and results as were recorded since |
| `RunGrammar.BoundaryExactly` | algo_cli/agent_run_journal.py:937-962 | the verified boundary is the last verified finish before which, since the last resume, every finish was verified |
| `RunGrammar.ObserveMutations` | algo_cli/agent_run_journal.py:872-962 | no unverified mutating step is listed if and only if every mutating intent lies in an activation closed by such a finish |
| `RunReports.StatisticsAreCounts` | algo_cli/agent_run_journal.py:1772-1846 | model rounds and tool calls are the numbers of such events, prompt tokens the sum over started rounds |
| `RunReports.StatusIsLast` | algo_cli/agent_run_journal.py:1772-1846 | the terminal status is that of the last `run_finished`, if any |
| `RunReports.PendingIsUnanswered` | algo_cli/agent_run_journal.py:1772-1846 | a step is pending, and mutating, exactly as its latest mention in the journal says |
| `RunReports.UnansweredIsUncertain` | algo_cli/agent_run_journal.py:1829-1833 | a mutating intent without a result is uncertain and forbids resumption, whatever was checkpointed |
| `RunReports.BoundaryIsRecorded` | algo_cli/agent_run_journal.py:1809-1828 | the boundary names a verified finish of the journal, its workspace and the ordinal before the next, or there is none |
| `RunReports.CorruptExactly` | algo_cli/agent_run_journal.py:1772-1846 | what the reading calls corrupt: a step announced twice, a result without an intent, a verified finish below the boundary |
| `RunReports.BoundaryIsLastUnbroken` | algo_cli/agent_run_journal.py:1809-1828 | on accepted histories: the boundary is the last verified finish before which no finish at all was unverified |
| `RunReports.ReadsExactlyUncovered` | algo_cli/agent_run_journal.py:1829-1833 | on accepted histories: the steps listed as unverified are exactly the mutating intents no such finish of their ordinal covers |
| `RunReports.CheckpointsTell` | algo_cli/agent_run_journal.py:1848-1874 | what `verified_blocks` lists are verified finishes of completed ordinals, in order, with their sequences and workspaces |
| `RunReports.CheckpointsExactly` | algo_cli/agent_run_journal.py:1848-1874 | a position is listed if and only if it holds a verified finish of a completed ordinal |
| `RunProgress.RoundIsAccepted` | algo_cli/agent_run_journal.py:808-892 | wherever a round may start, a round that declares k calls, announces k different steps and answers them is accepted, and the block can go on |
| `RunProgress.RunCompletes` | algo_cli/agent_run_journal.py:708-982 | every contract can be run to the end: all blocks verified in order, then the terminal receipt |
| `RunProgress.RunIsValid` | algo_cli/agent_run_journal.py:349-705 | the payloads of that run are valid for contracts of at most 32 blocks |
| `RunProgress.PayloadsExactly` | algo_cli/agent_run_journal.py:349-705 | payload validity, property by property: ordinals and roles of the contract, attempts, rounds, counts, indices and sequence references |
| `RunMutations.IntentFate` | algo_cli/agent_run_journal.py:850-962 | every mutating intent stays listed as unverified until a checkpointing finish of its own block activation |
| `RunMutations.ResumeOnlyOverSettledMutations` | algo_cli/agent_run_journal.py:765-786 | before every resume, each earlier mutating intent was followed by a verified finish of its block |
| `RunMutations.UnsettledMutationForbidsResume` | algo_cli/agent_run_journal.py:937-962 | after a block with a mutating intent finishes without a checkpoint, no accepted extension resumes |
| `RunSpans.SpanCounts` | algo_cli/agent_run_journal.py:827-892 | inside a block, declared calls equal intents plus undelivered ones, and intents equal results plus pending ones |
| `RunSpans.IntentPendingOrAnswered` | algo_cli/agent_run_journal.py:850-892 | each intent of a block is pending or has a later result |
| `RunSpans.ResultHasIntent` | algo_cli/agent_run_journal.py:879-892 | each result answers an intent of the same block |
| `RunSpans.AnswersIsOneToOne` | algo_cli/agent_run_journal.py:850-892 | no intent has two results and no result two intents |
| `RunSpans.RecoveryIsBracketed` | algo_cli/agent_run_journal.py:894-912 | a round with attempt above zero lies after an unclosed recovery start of its block |
| `RunSpans.EvidenceIsLatest` | algo_cli/agent_run_journal.py:914-925 | the verifier maps hold the latest result in the block's span |
| `RunSpans.VerifiedFinishCertifies` | algo_cli/agent_run_journal.py:927-962 | at every verified finish: equal counts, one result per intent, bracketed recovery rounds, and every required verifier's latest result passed on the finish's workspace |
| `RunAnchor.HashFixesPrefix` | algo_cli/agent_run_journal.py:251-304 | two decodable logs with one equal hash are equal up to it |
| `RunAnchor.ChainedExactly` | algo_cli/agent_run_journal.py:251-304 | what decoding demands, field by field: this run, contiguous sequences, each hash over the one before |
| `RunAnchor.AnchoredLogIsAuthentic` | algo_cli/agent_run_journal.py:1343-1374 | a log accepted beside an anchor at event a is the true history up to a plus at most one event |
| `RunAnchor.SynchronizeAnchors` | algo_cli/agent_run_journal.py:1167-1193 | synchronising never touches the log; it succeeds if and only if the anchor is level already, or the state is not the first-event window without bootstrap permission and the refusals run out in time; then the anchor names the last event |
| `RunAnchor.AlwaysDurable` | algo_cli/agent_run_journal.py:1395-1434 | over every run of creations, appends, crashes and restarts the log is a valid chain and the anchor names its last or second-last event, or the first event is unanchored |
| `RunAnchor.RestartReadsExactly` | algo_cli/agent_run_journal.py:1298-1374 | restart reads the journal and can level the anchor if and only if it is not in the first-event window |
| `RunAnchor.FirstEventWindowIsFatal` | algo_cli/agent_run_journal.py:1287-1294 | in that window every later operation fails and changes nothing |
| `RunAnchor.AppendCommits` | algo_cli/agent_run_journal.py:1395-1434 | an append that returns has stored its event last and anchored it |
| `RunAnchor.ComparesExactly` | algo_cli/agent_run_journal.py:1138-1165 | for any log and anchor: level, or one event behind, if and only if the anchor names that very event, or may be made for the first |
| `RunAnchor.ReadsExactly` | algo_cli/agent_run_journal.py:1138-1165 | whatever is stored: it is read if and only if it is an intact chain of a possible run whose last or second-last event the anchor names, or nothing |
| `RunAnchor.ReadProblemIsTrue` | algo_cli/agent_run_journal.py:1138-1165 | the complaint about a journal that is not read is true |
| `RunAnchor.AppendSucceedsExactly` | algo_cli/agent_run_journal.py:1395-1434 | an append to a durable journal succeeds if and only if it can be read, the anchor gives way within four attempts, and the event is valid and may come next |
| `RunAnchor.CreateSucceedsExactly` | algo_cli/agent_run_journal.py:1261-1296 | a run is created if and only if nothing is stored or anchored and the anchor store gives way; its start is then stored and anchored |
| `RunAnchor.AgentRunJournal.DecodeRecords` | algo_cli/agent_run_journal.py:251-304 | the decoding loop accepts exactly the chained logs with valid payloads |
| `RunAnchor.AgentRunJournal.Records` | algo_cli/agent_run_journal.py:1343-1374 | reading reports the first problem of chain, payload, sequence or anchor, exactly as specified |
| `RunAnchor.AgentRunJournal.SynchronizeAnchor` | algo_cli/agent_run_journal.py:1167-1193 | the retry loop has the outcome of one specified step |
| `RunAnchor.AgentRunJournal.StoreEvent` | algo_cli/agent_run_journal.py:1405-1432 | the second half of an append: validate, store, advance the anchor, dying anywhere |
| `RunAnchor.AgentRunJournal.AppendEvent` | algo_cli/agent_run_journal.py:1395-1434 | the stored log and anchor after an append that may die at any point; durable stores stay durable |
| `RunAnchor.AgentRunJournal.CreateRun` | algo_cli/agent_run_journal.py:1261-1296 | creation over an existing log is refused; otherwise the first event is stored and anchored; durable stores stay durable |
| `ControlInvariants.InvHolds` | algo_cli/ada_control_journal.py:1117-1437 | over every run: used count equals permits and effects of the grant and is within its maximum; a session's effects carry exactly 1..last; equal epochs have equal revisions, higher epochs strictly higher fences |
| `ControlHistory.RunExtends` | algo_cli/ada_control_journal.py:1117-1437 | between any two points of a run: effects keep their identity, fences and revocations only grow |
| `ControlHistory.StartsAtMostOnce` | algo_cli/ada_control_journal.py:111-130 | no effect enters STARTED twice in a run |
| `ControlHistory.StartsWithinGrant` | algo_cli/ada_control_journal.py:1186-1209 | the starts under a grant never exceed its maximum |
| `ControlHistory.StartsInFenceOrder` | algo_cli/ada_control_journal.py:1249-1297 | on one target, starts happen in non-decreasing fence order |
| `ControlHistory.StaleFenceNeverStarts` | algo_cli/ada_control_journal.py:1393-1420 | an effect with an older fence than the newest claim on its target never starts |
| `ControlHistory.NoStartAfterRevocation` | algo_cli/ada_control_journal.py:1393-1420 | no effect starts after its grant or permit was revoked |
| `ControlReceipts.NextLinkExtends` | algo_cli/ada_control_journal.py:1531-1574 | count, minimum, maximum and newest row suffice to extend the global chain |
| `ControlReceipts.NarrowInspectionDetects` | algo_cli/ada_control_journal.py:1531-1574 | on any table, sound or not: what the narrow inspection has made sure of when it goes on |
| `ControlReceipts.ReceiptInvHolds` | algo_cli/ada_control_journal.py:1493-1628 | over every run: contiguous sequences from 1, correct previous digests, one key, and each receipt describes its effect |
| `ControlReceipts.SecondReceiptIsTerminal` | algo_cli/ada_control_journal.py:1504-1530 | of two receipts of one effect the first says UNKNOWN and the second is terminal |
| `ControlReceipts.AtMostTwoReceipts` | algo_cli/ada_control_journal.py:1504-1530 | no effect has three receipts |
| `ControlReceipts.FinalizeIsIdempotent` | algo_cli/ada_control_journal.py:1504-1530 | finalising again without a transition returns the same receipt and adds nothing |
| `ControlReceipts.FinalizeRepeats` | algo_cli/ada_control_journal.py:1504-1530 | the same across any later tables in which the effect is unchanged |
| `ControlReceipts.ReceiptsGrow` | algo_cli/ada_control_journal.py:1493-1628 | the receipt sequence is append-only |
| `ControlReceipts.VerifySequence` | algo_cli/ada_control_journal.py:971-999 | the verification loop accepts exactly the chains under one key |
| `ControlReceipts.ReceiptFixesPrefix` | algo_cli/ada_control_journal.py:971-999 | two chains that agree on one receipt agree on everything before it |
| `ControlGuards.ClaimExactly` | algo_cli/ada_control_journal.py:1117-1350 | a claim is admitted if and only if the request is in date and in order, the budget is left, the session's turn has come, the target advances and the effect is new |
| `ControlGuards.ClaimReasonIsTrue` | algo_cli/ada_control_journal.py:1117-1350 | the reason a claim is refused for is true |
| `ControlGuards.ClaimRecords` | algo_cli/ada_control_journal.py:1160-1350 | everything an admitted claim records, field by field, and that nothing else changes |
| `ControlGuards.TransitionExactly` | algo_cli/ada_control_journal.py:1352-1437 | a transition is admitted if and only if the pair is in the table, the reason fits, the clock has not gone back and a start meets its conditions |
| `ControlGuards.TransitionReasonIsTrue` | algo_cli/ada_control_journal.py:1352-1437 | the reason a transition is refused for is true |
| `ControlGuards.TransitionRecords` | algo_cli/ada_control_journal.py:1420-1437 | what a transition records of one effect, and that nothing else changes |
| `ControlGuards.FinalizeExactly` | algo_cli/ada_control_journal.py:1493-1628 | on a sound journal a receipt is issued or found if and only if the outcome is receiptable, the effect's own key asks and the chain is in that key and has room |
| `ControlGuards.ReceiptSays` | algo_cli/ada_control_journal.py:1574-1628 | what a receipt says of its effect, its place in the chain and its completion time |
| `ControlGuards.ClaimsAreTimely` | algo_cli/ada_control_journal.py:1152-1155 | over every run: each effect was claimed before its grant expired and within its permit's lifetime |
| `ControlGuards.NoStartAfterExpiry` | algo_cli/ada_control_journal.py:1393-1420 | over every run: no effect starts at or after its permit's expiry |
| `ControlJournal.Journal.Claim` | algo_cli/ada_control_journal.py:1117-1350 | admitted if and only if the conditions on request and rows hold; then every row is as recorded, else the tables are exactly as before; budgets, sessions, fences and the receipt chain are kept |
| `ControlJournal.Journal.ClaimRows` | algo_cli/ada_control_journal.py:1160-1350 | the row updates inside the transaction, before any rollback |
| `ControlJournal.Journal.ClaimGrant` | algo_cli/ada_control_journal.py:1160-1219 | revocation, binding, budget and replay checks in order, and the grant row they leave |
| `ControlJournal.Journal.ClaimSession` | algo_cli/ada_control_journal.py:1221-1247 | the session's next sequence only, under a clock that does not go back |
| `ControlJournal.Journal.ClaimTarget` | algo_cli/ada_control_journal.py:1249-1297 | the epoch, revision and fence rules in order, and the target row they leave |
| `ControlJournal.Journal.ConsumePermit` | algo_cli/ada_control_journal.py:1299-1350 | one more use of the grant, the permit recorded, the effect inserted unless its id exists |
| `ControlJournal.Journal.Transition` | algo_cli/ada_control_journal.py:1352-1437 | admitted if and only if the conditions on effect, table and clock hold; then one effect's progress changes, else nothing; every invariant of the tables is kept |
| `ControlJournal.Journal.Revoke` | algo_cli/ada_control_journal.py:895-913 | adds one revocation and nothing else; every invariant of the tables is kept |
| `ControlJournal.Journal.SequenceRange` | algo_cli/ada_control_journal.py:1531-1556 | least and greatest receipt sequence |
| `ControlJournal.Journal.NextReceiptLink` | algo_cli/ada_control_journal.py:1531-1574 | the next sequence and previous digest from four facts about the table, or its corruption |
| `ControlJournal.Journal.FinalizeReceipt` | algo_cli/ada_control_journal.py:1493-1628 | the receipt returned and the table afterwards, as specified; every invariant of the tables is kept |
| `ReceiptAnchor.AnchoredJournal.Synchronize` | algo_cli/ada_control_journal.py:1048-1104 | alone: at most three iterations, success exactly when an anchor in the chain exists or may be created or is not needed, and the anchor ends at or beyond the snapshot |
| `ReceiptAnchor.NoFalseRollback` | algo_cli/ada_control_journal.py:1048-1104 | over every interleaving the anchor is a receipt of the chain and no process reports a rollback |
| `ReceiptAnchor.AnchorOnlyAdvances` | algo_cli/ada_control_journal.py:1048-1104 | the anchor's sequence never decreases, and the chain is append-only |
| `ReceiptAnchor.LoadExactly` | algo_cli/ada_control_journal.py:1060-1092 | what a load decides, for any snapshot and any anchor of the chain |
| `ReceiptAnchor.EveryoneEndsWell` | algo_cli/ada_control_journal.py:1048-1104 | over every interleaving: who ends without an error has its whole snapshot anchored, who gives up has tried eight times, who misses the anchor had no permission to create it |
| `ReceiptAnchor.UncontendedCompletes` | algo_cli/ada_control_journal.py:1048-1104 | left alone, a process that may bootstrap or finds an anchor levels it with the chain and ends without an error within three iterations |
| `ReceiptAnchor.RereadCompletes` | algo_cli/ada_control_journal.py:1060-1092 | a process that lost a race or fell behind reads the chain again and, left alone, completes within two iterations |
| `EventLines.TornAppend` | algo_cli/ada_private_event_store.py:437-472 | an append cut off after any number of bytes keeps every readable record and adds the new one exactly when its body is whole |
| `EventLines.TornAppendsAreHarmless` | algo_cli/ada_private_event_store.py:437-472 | the same for any number of appends, each torn anywhere |
| `EventLines.RewriteRoundTrip` | algo_cli/ada_private_event_store.py:474-505 | rewriting records and reading them back is the identity |
| `EventCodec.TokenCodecIsLawful` | algo_cli/ada_private_event_store.py:391-393 | the assumptions about the codec are satisfiable: a token codec over bytes meets all of them |
| `EventStore.WindowSlides` | algo_cli/ada_private_event_store.py:394-435 | the longest fitting suffix after one more record is found inside the old window |
| `EventStore.PrivateEventStore.Push` | algo_cli/ada_private_event_store.py:427-432 | evicting from the front with a running byte count leaves the longest fitting suffix |
| `EventStore.PrivateEventStore.Scan` | algo_cli/ada_private_event_store.py:394-435 | one pass keeps the longest fitting suffix of the unexpired records and counts what it dropped |
| `EventStore.PrivateEventStore.Append` | algo_cli/ada_private_event_store.py:540-574 | the file after an append that may be torn or whose rewriting may fail; a report exactly when the encoded line fits and was written whole, and every field of it |
| `EventStore.PrivateEventStore.Compact` | algo_cli/ada_private_event_store.py:576-587 | the file is rewritten exactly when something is malformed, dropped or not canonical; the report, and when rewriting raises instead |
| `EventStore.PrivateEventStore.Maintain` | algo_cli/ada_private_event_store.py:507-538 | retention after a scan: the file that is left and the report on it |
| `EventStore.SatisfiedMeansClean` | algo_cli/ada_private_event_store.py:507-538 | a report says that retention is satisfied if and only if the file that is left needs no compaction |
| `EventStore.CompactionIsIdempotent` | algo_cli/ada_private_event_store.py:576-587 | compacting twice at one time is compacting once |
| `EventStore.CompactionEnforcesRetention` | algo_cli/ada_private_event_store.py:576-587 | what compaction leaves: the kept records written out, within both bounds, no malformed line; a file that is so already is not touched |
| `EventStore.CompactionKeepsReads` | algo_cli/ada_private_event_store.py:576-604 | a read at the same time returns the same before and after compaction |
| `EventStore.AppendedIsRead` | algo_cli/ada_private_event_store.py:540-574 | a record just appended whole is the last one a read returns, rewritten or not |
| `EventStore.BlankLineIsIgnored` | algo_cli/ada_private_event_store.py:405-412 | lines of whitespace are neither records nor malformed |
| `EventStore.PrivateEventStore.ReadRecords` | algo_cli/ada_private_event_store.py:589-604 | what is kept, or its last `limit` records |
| `EventRefinement.KeepIsLongest` | algo_cli/ada_private_event_store.py:394-435 | on records in time order the scan's result is the longest suffix that is unexpired and within both bounds |
| `EventRefinement.RunRefines` | algo_cli/ada_private_event_store.py:540-587 | over every run, the file holds a suffix of the append history outside which nothing can become admissible again |
| `EventRefinement.ReadsLongestSuffix` | algo_cli/ada_private_event_store.py:589-604 | a read returns the longest admissible suffix of the whole append history |
| `ThreadStore.PrepareSettles` | algo_cli/agent_threads.py:1140-1190 | from every crash point of an anchored store, one prepare leaves no stage and target equal to anchor; an unanchored first stage is discarded and the call raises |
| `ThreadStore.SecondPrepareSettles` | algo_cli/agent_threads.py:1140-1190 | the second call then migrates the legacy records or finds nothing to do |
| `ThreadStore.OneCallSufficesExactly` | algo_cli/agent_threads.py:949-1071 | one call returns if and only if there is no unanchored first stage |
| `ThreadStore.PublishIsSafe` | algo_cli/agent_threads.py:834-895 | publishing, dying anywhere: the store stays recoverable and commits exactly when the compare-and-set landed |
| `ThreadStore.FailedPublishLeaves` | algo_cli/agent_threads.py:850-895 | what a publish that raises leaves: nothing, the stage, or stage and anchor, by what the anchor store did; never a changed target |
| `ThreadStore.RecoverIsSafe` | algo_cli/agent_threads.py:762-831 | dying anywhere in recovery changes nothing committed |
| `ThreadStore.MutateIsSafe` | algo_cli/agent_threads.py:1193-1230 | an update, dying anywhere, keeps the store recoverable and builds on what was committed |
| `ThreadStore.UpdateKeepsHealthExactly` | algo_cli/agent_threads.py:1193-1230 | a completed update of a settled protected store leaves it healthy if and only if some record is left |
| `ThreadStore.UpdateCommits` | algo_cli/agent_threads.py:1193-1230 | a completed update that lands commits the callback's records, or the first hundred, on top of the protected store or as its first entry |
| `ThreadStore.MutateReturnsExactly` | algo_cli/agent_threads.py:1193-1230 | in every world: an update returns if and only if nothing is staged, the anchor vouches for the target and the compare-and-set lands, or there is nothing to protect |
| `ThreadStore.PrepareReturnsExactly` | algo_cli/agent_threads.py:1140-1190 | in every world: preparation returns if and only if the anchor vouches for what is there, a stage included |
| `ThreadStore.PrepareProblemIsTrue` | algo_cli/agent_threads.py:898-1071 | the reason preparation raises is true of the store |
| `ThreadStore.PreparedIsVouched` | algo_cli/agent_threads.py:898-1071 | whatever was tampered with: when preparation returns, nothing is staged and the target is what the anchor names, if there is one |
| `StoreAnchor.ReceiptFixesPayload` | algo_cli/agent_threads.py:715-748 | a receipt fixes the payload that carries it |
| `ThreadStore.RunIsSafe` | algo_cli/agent_threads.py:762-1230 | over every run of prepares, updates and crashes the store is recoverable and later commits are signed on top of earlier ones |
| `ThreadStore.InterruptedPublishRecovers` | algo_cli/agent_threads.py:762-895 | a publish interrupted anywhere and recovered with any interruptions ends, exactly when the compare-and-set landed, on a successor holding the callback's records or the first hundred of them, else on the old store |
| `ThreadStore.EmptyingIsFatal` | algo_cli/agent_threads.py:1216-1229 | an update to no records, which no callback makes, leaves a protected store refused by every later prepare |
| `ThreadFiles.ProtectedThreads.Publish` | algo_cli/agent_threads.py:834-895 | the files and anchor after any number of completed writes |
| `ThreadFiles.ProtectedThreads.Recover` | algo_cli/agent_threads.py:762-831 | each branch of recovery and every crash point in it |
| `ThreadFiles.ProtectedThreads.LoadProtected` | algo_cli/agent_threads.py:978-1026 | loading a protected target, with or without recovery |
| `ThreadFiles.ProtectedThreads.LoadPlain` | algo_cli/agent_threads.py:950-1056 | loading a missing or unprotected target, with or without recovery |
| `ThreadFiles.ProtectedThreads.Prepare` | algo_cli/agent_threads.py:1140-1190 | the specified step of a run, crash included; a healthy store stays healthy, nothing committed changes, and a process that survives settles an anchored store |
| `ThreadFiles.ProtectedThreads.Mutate` | algo_cli/agent_threads.py:1193-1230 | the specified step of a run, crash included; a healthy store stays healthy and commits build on what was committed |
| `GoalLedger.RecoveryRollsForward` | algo_cli/ada_task_ledger.py:277-357 | recovery commits any staged successor, except a first stage over a surviving unprotected ledger |
| `GoalLedger.RecoverIsSafe` | algo_cli/ada_task_ledger.py:277-357 | an interrupted recovery keeps the ledger recoverable towards the same entry |
| `GoalLedger.RecoveriesAreSafe` | algo_cli/ada_task_ledger.py:277-357 | any number of interrupted recoveries does |
| `GoalLedger.PublishIsSafe` | algo_cli/ada_task_ledger.py:521-561 | publishing, dying anywhere after the stage, makes the staged entry the one recovery settles on |
| `GoalLedger.InterruptedPublishCommits` | algo_cli/ada_task_ledger.py:521-561 | a publish interrupted after staging, recovered with any interruptions, commits with ledger equal to anchor |
| `GoalRuns.SaveStep` | algo_cli/ada_task_ledger.py:579-639 | from an anchored ledger: a save takes effect only from a new record or one at the current sequence of an uncleared goal, and signs its successor; otherwise the newest entry stays |
| `GoalRuns.ClearStep` | algo_cli/ada_task_ledger.py:849-879 | from an anchored ledger: a clear that takes effect signs a tombstone on top of the current entry; otherwise the newest entry stays |
| `GoalRuns.RunIsSafe` | algo_cli/ada_task_ledger.py:277-879 | over every run the ledger stays recoverable and its newest entry stays or gets a signed successor; the one exception is an unanchored first stage over a legacy ledger, which may be discarded or replaced |
| `GoalRuns.AtMostOneSaveTakes` | algo_cli/ada_task_ledger.py:594-598 | of several saves of records loaded at one sequence at most one is ever staged, hence at most one succeeds |
| `GoalRuns.ClearedGoalStaysCleared` | algo_cli/ada_task_ledger.py:594-598 | after a clear, no record loaded at or before the tombstone can be saved |
| `GoalRuns.SaveCommitsExactly` | algo_cli/ada_task_ledger.py:521-639 | for every healthy anchored ledger, cursor, anchor answer and point of death: the next recovery commits the save if and only if it was staged |
| `GoalRuns.FailedSaveCommitsExactly` | algo_cli/ada_task_ledger.py:579-639 | with nothing pending: a save is committed later, or committed although it failed, if and only if a condition on cursor, anchor answer and point of death |
| `GoalRuns.RefusedSaveCommitsLater` | algo_cli/ada_task_ledger.py:521-561 | a refused compare-and-set makes the save raise, and the next recovery commits it |
| `GoalGuards.RecoverReturnsExactly` | algo_cli/ada_task_ledger.py:277-357 | in every world: when recovery returns, by stage, anchor, ledger and the compare-and-set's answer |
| `GoalGuards.RecoverProblemIsTrue` | algo_cli/ada_task_ledger.py:277-357 | the reason recovery raises is true |
| `GoalGuards.RecoveredIsVouched` | algo_cli/ada_task_ledger.py:277-357 | and then nothing is pending and the stage is the anchored ledger, or was discarded |
| `GoalGuards.PrepareReturnsExactly` | algo_cli/ada_task_ledger.py:395-428 | when preparation returns; a legacy goal is migrated as the first entry, its text kept and its progress blocked |
| `GoalGuards.SaveReturnsExactly` | algo_cli/ada_task_ledger.py:579-639 | when a save returns, and that the ledger then holds the goal as the next entry, anchored, at the sequence returned |
| `GoalGuards.SaveProblemIsTrue` | algo_cli/ada_task_ledger.py:585-631 | the reason a save is refused is true |
| `GoalGuards.ClearReturnsExactly` | algo_cli/ada_task_ledger.py:849-879 | when a clear reports that it cleared or that there was nothing to clear, and what it leaves |
| `GoalFiles.ProtectedLedger.Recover` | algo_cli/ada_task_ledger.py:277-357 | each branch of recovery and every crash point in it |
| `GoalFiles.ProtectedLedger.Publish` | algo_cli/ada_task_ledger.py:521-561 | the files and anchor after any number of completed writes |
| `GoalFiles.ProtectedLedger.Prepare` | algo_cli/ada_task_ledger.py:360-428 | recovery, then migration or validation, crash included; a healthy ledger stays healthy and its newest entry is kept or built on |
| `GoalFiles.ProtectedLedger.Save` | algo_cli/ada_task_ledger.py:579-639 | recovery, then the cursor checks and a publish, crash included; a healthy ledger stays healthy and its newest entry is kept or built on |
| `GoalFiles.ProtectedLedger.Clear` | algo_cli/ada_task_ledger.py:849-879 | recovery, then a tombstone if there is a goal, crash included; a healthy ledger stays healthy and its newest entry is kept or built on |
| `MapSums.SumRemove` | algo_cli/alice_artifact_store.py:770-774 | a sum over records does not depend on the order of iteration |
| `MapSums.SumBounded` | algo_cli/alice_artifact_store.py:1203-1270 | sums over different tables compare when their terms do |
| `ArtifactInvariants.AccountingHolds` | algo_cli/alice_artifact_store.py:727-1285 | in every reachable state: counters equal sums, per-run and store-wide quotas hold over active runs, every active entry has its file at the recorded size, and at most one active run holds leftovers, of one put: one uncommitted ciphertext and one temporary file at most |
| `ArtifactInvariants.InvLater` | algo_cli/alice_artifact_store.py:806-809 | the invariant survives the passing of time |
| `ArtifactInvariants.InvPruned` | algo_cli/alice_artifact_store.py:776-819 | pruning keeps every active run and leaves nothing unlisted |
| `ArtifactInvariants.InvPrunedSoFar` | algo_cli/alice_artifact_store.py:776-819 | a scan that dies anywhere keeps the invariant |
| `ArtifactInvariants.InvPutArtifact` | algo_cli/alice_artifact_store.py:890-1012 | a put, dying or failing at any point of writing, linking, publishing or committing, keeps the invariant |
| `ArtifactInvariants.InvRevoked` | algo_cli/alice_artifact_store.py:1168-1201 | a revocation keeps the invariant and retires the run |
| `ArtifactInvariants.CleanupRepairs` | algo_cli/alice_artifact_store.py:1203-1270 | whatever the counters said, clean-up leaves active runs intact, counted and tidy, and no inactive run |
| `ArtifactInvariants.CorruptIsSpared` | algo_cli/alice_artifact_store.py:1216-1267 | a run that cannot be trusted is reported as corrupt and keeps its manifest and its listed files |
| `ArtifactInvariants.CleanupReportIsTrue` | algo_cli/alice_artifact_store.py:1268-1285 | on every reachable store a clean-up reports its quotas satisfied and nothing repaired; when everything decrypts, nothing corrupt and the true totals of the active runs |
| `ArtifactGuards.LiveExactly` | algo_cli/alice_artifact_store.py:806-810 | a run counts as active if and only if it is not revoked and its expiry lies ahead; pruning keeps exactly those, manifests untouched |
| `ArtifactGuards.CreateSucceedsExactly` | algo_cli/alice_artifact_store.py:821-888 | a run is created if and only if its lifetime is allowed, the clock works, fewer than the maximum are active and an identifier is free |
| `ArtifactGuards.CreateAdds` | algo_cli/alice_artifact_store.py:854-888 | it adds one empty run with the lifetime asked for, and otherwise only prunes |
| `ArtifactGuards.PutSucceedsExactly` | algo_cli/alice_artifact_store.py:890-1012 | a put succeeds if and only if the request fits, its run is active, run and store have room, an identifier is free and nothing goes wrong |
| `ArtifactGuards.PutAdds` | algo_cli/alice_artifact_store.py:985-1012 | it adds one record and its file, with the sizes asked for and an expiry no later than the run's, and otherwise only prunes |
| `ArtifactGuards.PutLeaves` | algo_cli/alice_artifact_store.py:985-1012 | what a put that dies or fails while writing leaves: no record, and exactly the files its fault implies |
| `ArtifactGuards.PutFailureIsTrue` | algo_cli/alice_artifact_store.py:890-1012 | the way a put fails tells the truth about request, run, room, identifiers or fault |
| `ArtifactGuards.RevokeExactly` | algo_cli/alice_artifact_store.py:1168-1201 | when a revocation succeeds, that the run is then inactive, and that only listed files may be gone |
| `ArtifactGuards.CommittedStays` | algo_cli/alice_artifact_store.py:727-1285 | no operation but its revocation loses an artifact an active run has committed |
| `ArtifactStore.EncryptedArtifactStore.RecordTotals` | algo_cli/alice_artifact_store.py:637-671 | the accumulating loop computes the sums |
| `ArtifactStore.EncryptedArtifactStore.CheckRunFiles` | algo_cli/alice_artifact_store.py:727-768 | temporary and unlisted files are removed and counted, and the answer says whether every entry has its file at its size |
| `ArtifactStore.EncryptedArtifactStore.ActiveTotals` | algo_cli/alice_artifact_store.py:776-819 | succeeds exactly on intact stores, with the true totals over active runs; otherwise it has only pruned |
| `ArtifactStore.EncryptedArtifactStore.CheckThenTotal` | algo_cli/alice_artifact_store.py:918-928 | the run's own check followed by the scan of all runs: true totals exactly on intact stores |
| `ArtifactStore.EncryptedArtifactStore.CreateRun` | algo_cli/alice_artifact_store.py:821-888 | the specified new store, or a failure that has at most pruned; the invariant is kept |
| `ArtifactStore.EncryptedArtifactStore.PutArtifact` | algo_cli/alice_artifact_store.py:890-1012 | the specified new store for every fault, or a failure that has at most pruned; the invariant is kept |
| `ArtifactStore.EncryptedArtifactStore.RevokeRun` | algo_cli/alice_artifact_store.py:1168-1201 | decided by the named run alone: the run is inactive before any file is removed; a failure changes nothing; the invariant is kept |
| `ArtifactStore.EncryptedArtifactStore.CleanUp` | algo_cli/alice_artifact_store.py:1203-1285 | every run removed, tidied, repaired or left alone as its state demands, and a report that adds up the runs; the invariant is kept and then quotas are reported satisfied |
| `Catalog.SerializedGrows` | algo_cli/algorithm_catalog.py:126-128 | serialized length strictly increases over the searched range |
| `Catalog.PageSays` | algo_cli/algorithm_catalog.py:126-128 | reading the JSON of a page back gives the next offset and exactly the characters of the page |
| `Catalog.SizeIsLength` | algo_cli/algorithm_catalog.py:126-134 | the size the search compares is the length of the page's JSON |
| `Catalog.Search` | algo_cli/algorithm_catalog.py:135-141 | the binary search returns the largest fitting end |
| `Catalog.ReadPage` | algo_cli/algorithm_catalog.py:100-145 | a page is returned exactly when one that makes progress fits; it is the largest within the limit, and its JSON is within the result limit |
| `Catalog.ReadAll` | algo_cli/algorithm_catalog.py:100-145 | following `next_offset` terminates with pages that concatenate to the text, or stops with an error where nothing fits |

## Left out

- Cryptography, key stores, signatures and envelope authority: digests and receipts are free constructors, capability checks are boolean inputs, an unavailable key store is not modelled.
- File-system hygiene: modes, links, fsync, Windows access lists and lock files; a locked region is atomic up to its crash points.
- Field formats: regular expressions, UUIDs, length clipping, workspace digests and the thread record projections; identifiers are numbers or plain strings.
- Unprotected journals and stores, which have no anchor.
- Journal retention overflow (algo_cli/agent_run_journal.py:1270-1277): the run journal is a sequence, not the bounded event store below it.
- Thread callbacks: an update is any function on records that does not empty the store; the sort by time is part of it.
- Goal repair (algo_cli/ada_task_ledger.py:431-518) and the automatic migration in `load_goal`.
- Removing a run directory of the artifact store is one step; creation staging directories, foreign files in a run directory and the reading of artifacts are not modelled. Whether a run decrypts is an input of clean-up.
- EventRefinement.ReadsLongestSuffix: clock readings are assumed not to decrease, as the retention rule itself presupposes.
- The agent pipeline, context budgeting, desktop simulation, installers, doctors, the action registry and the catalog's edit command.
