/** The encrypted artifact store as tables: signed run manifests beside ciphertext files,
    with quotas over the runs that are active at the time of asking. */
module ArtifactTables {
  import opened Options
  import opened MapSums

  type Id = nat

  datatype Policy = Policy(maxArtifactBytes: nat, maxRunBytes: nat, maxRunDiskBytes: nat, maxTotalBytes: nat,
                           maxTotalDiskBytes: nat, maxArtifactsPerRun: nat, maxRuns: nat, maxTtl: real)

  datatype Artifact = Artifact(bytes: nat, disk: nat, expires: real)

  datatype Manifest = Manifest(active: bool, created: real, updated: real, expires: real, revision: nat,
                               count: nat, plaintext: nat, disk: nat, artifacts: map<Id, Artifact>)

  /** A run directory: its manifest, the size of every ciphertext file in it, and how many
      temporary files. */
  datatype RunDir = RunDir(manifest: Manifest, files: map<Id, nat>, temporaries: nat)

  type Runs = map<Id, RunDir>

  datatype Failure =
    | NoSuchRun | Denied | Quota | Integrity | Collision | InvalidTtl | InvalidMediaType
    | ClockFailed | WriteFailed | Died

  const IDENTIFIER_ATTEMPTS := 128

  function MaxEnvelope(p: Policy): nat {
    ((p.maxArtifactBytes + 16 * 1024 + 16) * 4 + 2) / 3 + 16 * 1024
  }

  function BytesOf(a: Artifact): nat { a.bytes }
  function DiskOf(a: Artifact): nat { a.disk }
  function PlaintextOf(m: Manifest): nat { m.plaintext }
  function RunDiskOf(m: Manifest): nat { m.disk }

  predicate Active(m: Manifest, now: real) {
    m.active && now < m.expires
  }

  /** The declared counters are the sums of the records. */
  ghost predicate Counted(m: Manifest) {
    m.count == |m.artifacts| && m.plaintext == Sum(m.artifacts, BytesOf) && m.disk == Sum(m.artifacts, DiskOf)
  }

  /** `_repair_counters` */
  ghost function Recounted(m: Manifest): (r: Manifest)
    ensures Counted(r) && r == m.(count := r.count, plaintext := r.plaintext, disk := r.disk)
  {
    m.(count := |m.artifacts|, plaintext := Sum(m.artifacts, BytesOf), disk := Sum(m.artifacts, DiskOf))
  }

  /** Every entry has its file at the recorded size. */
  predicate FilesPresent(d: RunDir) {
    forall a | a in d.manifest.artifacts :: a in d.files && d.files[a] == d.manifest.artifacts[a].disk
  }

  predicate WellFormedRecord(p: Policy, m: Manifest, a: Artifact) {
    a.bytes <= p.maxArtifactBytes && 1 <= a.disk <= MaxEnvelope(p) && m.created <= a.expires <= m.expires
  }

  /** What decoding demands of a manifest, apart from its counters. */
  predicate WellFormed(p: Policy, m: Manifest) {
    && 0.0 <= m.created <= m.updated && m.created < m.expires && m.revision >= 1
    && m.expires - m.created <= p.maxTtl + 0.001
    && |m.artifacts| <= p.maxArtifactsPerRun
    && forall a | a in m.artifacts :: WellFormedRecord(p, m, m.artifacts[a])
  }

  /** A run that no operation complains about. */
  ghost predicate IntactRun(p: Policy, d: RunDir, now: real) {
    && WellFormed(p, d.manifest) && Counted(d.manifest) && d.manifest.updated <= now
    && (Active(d.manifest, now) ==> FilesPresent(d))
  }

  ghost predicate Intact(p: Policy, runs: Runs, now: real) {
    forall id | id in runs :: IntactRun(p, runs[id], now)
  }

  // ---- pruning ------------------------------------------------------------------------------

  /** Only the files the manifest lists. */
  function Cleaned(d: RunDir): RunDir {
    d.(files := map a | a in d.files && a in d.manifest.artifacts :: d.files[a], temporaries := 0)
  }

  /** The directory scan, interrupted once the runs in `done` have been visited. */
  function PrunedSoFar(runs: Runs, now: real, done: set<Id>): Runs {
    map id | id in runs && (id in done ==> Active(runs[id].manifest, now)) ::
      if id in done then Cleaned(runs[id]) else runs[id]
  }

  /** Inactive runs removed, uncommitted files of active runs removed. */
  function Pruned(runs: Runs, now: real): Runs {
    map id | id in runs && Active(runs[id].manifest, now) :: Cleaned(runs[id])
  }

  /** The manifests of active runs. */
  function Live(runs: Runs, now: real): map<Id, Manifest> {
    map id | id in runs && Active(runs[id].manifest, now) :: runs[id].manifest
  }

  // ---- operations ---------------------------------------------------------------------------

  datatype Step = Step(runs: Runs, failure: Option<Failure>)

  /** The first of the random candidates that is not taken. */
  function FirstFree(candidates: seq<Id>, taken: set<Id>): (r: Option<Id>)
    ensures r.Some? ==> r.value !in taken && r.value in candidates
    ensures r.None? ==> forall c | c in candidates :: c in taken
  {
    if candidates == [] then None
    else if candidates[0] !in taken then Some(candidates[0])
    else FirstFree(candidates[1..], taken)
  }

  /** The random identifiers an operation is prepared to try. */
  function Drawn(candidates: seq<Id>): seq<Id> {
    if |candidates| <= IDENTIFIER_ATTEMPTS then candidates else candidates[..IDENTIFIER_ATTEMPTS]
  }

  function NewRun(now: real, ttl: real): RunDir {
    RunDir(Manifest(true, now, now, now + ttl, 1, 0, 0, 0, map[]), map[], 0)
  }

  predicate ValidTtl(p: Policy, ttl: real) {
    0.0 < ttl <= p.maxTtl
  }

  /** `create_run` on an intact store. */
  ghost function Create(p: Policy, runs: Runs, requested: Option<Id>, candidates: seq<Id>, ttl: real, now: real): Step {
    if !ValidTtl(p, ttl) then Step(runs, Some(InvalidTtl))
    else if now < 0.0 then Step(runs, Some(ClockFailed))
    else
      var pruned := Pruned(runs, now);
      if |Live(runs, now)| >= p.maxRuns then Step(pruned, Some(Quota))
      else
        var id := match requested
                  case Some(r) => if r in pruned then None else Some(r)
                  case None => FirstFree(Drawn(candidates), pruned.Keys);
        if id.None? then Step(pruned, Some(Integrity))
        else Step(pruned[id.value := NewRun(now, ttl)], None)
  }

  /** What goes wrong once the envelope is ready: the process dies with the temporary file
      written, with the ciphertext linked beside it, or with the ciphertext alone; writing
      fails; or replacing the manifest fails, and the ciphertext is removed again or not. */
  datatype Fault = NoFault | DiesWriting | DiesLinked | DiesPublished | PublishFails | ReplaceFails(unlinked: bool)

  datatype PutRequest = PutRequest(run: Id, authorized: bool, bytes: nat, mediaTypeValid: bool, ttl: real,
                                   envelope: nat, candidates: seq<Id>, now: real, fault: Fault)

  function WithFile(d: RunDir, a: Id, size: nat): RunDir {
    d.(files := d.files[a := size])
  }

  /** The manifest with one more record, recounted. */
  ghost function Extended(m: Manifest, a: Id, record: Artifact, now: real): Manifest {
    Recounted(m.(artifacts := m.artifacts[a := record], revision := m.revision + 1, updated := now))
  }

  /** The record of a put: it expires with the run at the latest. */
  function NewRecord(m: Manifest, q: PutRequest): Artifact {
    Artifact(q.bytes, q.envelope, if m.expires < q.now + q.ttl then m.expires else q.now + q.ttl)
  }

  /** The quota checks that come before an artifact id is chosen. */
  ghost predicate PlaintextAllowed(p: Policy, m: Manifest, live: map<Id, Manifest>, q: PutRequest) {
    && m.count < p.maxArtifactsPerRun
    && m.plaintext + q.bytes <= p.maxRunBytes
    && Sum(live, PlaintextOf) + q.bytes <= p.maxTotalBytes
  }

  /** All quota checks of a put, against totals over the active runs. */
  ghost predicate PutAllowed(p: Policy, m: Manifest, live: map<Id, Manifest>, q: PutRequest) {
    && PlaintextAllowed(p, m, live, q)
    && q.envelope <= MaxEnvelope(p)
    && m.disk + q.envelope <= p.maxRunDiskBytes
    && Sum(live, RunDiskOf) + q.envelope <= p.maxTotalDiskBytes
  }

  function CommittedRun(d: RunDir, a: Id, m: Manifest, size: nat): RunDir {
    WithFile(d, a, size).(manifest := m)
  }

  /** What a put that is not completed leaves in the run directory. */
  function Leftover(d: RunDir, q: PutRequest, a: Id): RunDir {
    match q.fault
    case DiesWriting => d.(temporaries := d.temporaries + 1)
    case DiesLinked => WithFile(d, a, q.envelope).(temporaries := d.temporaries + 1)
    case DiesPublished => WithFile(d, a, q.envelope)
    case ReplaceFails(unlinked) => if unlinked then d else WithFile(d, a, q.envelope)
    case _ => d
  }

  /** The ciphertext is published before the manifest that lists it is replaced. */
  ghost function PublishInto(runs: Runs, q: PutRequest, a: Id): Step
    requires q.run in runs
  {
    var d := runs[q.run];
    if q.fault.NoFault? then
      var m := Extended(d.manifest, a, NewRecord(d.manifest, q), q.now);
      Step(runs[q.run := CommittedRun(d, a, m, q.envelope)], None)
    else
      Step(runs[q.run := Leftover(d, q, a)],
           Some(if q.fault.PublishFails? || q.fault.ReplaceFails? then WriteFailed else Died))
  }

  /** The second half of a put, on a pruned store with known totals. */
  ghost function PutInto(p: Policy, pruned: Runs, live: map<Id, Manifest>, q: PutRequest): Step
    requires q.run in pruned
  {
    var d := pruned[q.run];
    var id := FirstFree(Drawn(q.candidates), d.files.Keys);
    if !PlaintextAllowed(p, d.manifest, live, q) then Step(pruned, Some(Quota))
    else if id.None? then Step(pruned, Some(Collision))
    else if !PutAllowed(p, d.manifest, live, q) then Step(pruned, Some(Quota))
    else PublishInto(pruned, q, id.value)
  }

  /** `put` on an intact store. */
  ghost function Put(p: Policy, runs: Runs, q: PutRequest): Step {
    if q.bytes > p.maxArtifactBytes then Step(runs, Some(Quota))
    else if !q.mediaTypeValid then Step(runs, Some(InvalidMediaType))
    else if !ValidTtl(p, q.ttl) then Step(runs, Some(InvalidTtl))
    else if q.now < 0.0 then Step(runs, Some(ClockFailed))
    else if q.run !in runs then Step(runs, Some(NoSuchRun))
    else if !q.authorized || !Active(runs[q.run].manifest, q.now) then Step(runs, Some(Denied))
    else PutInto(p, Pruned(runs, q.now), Live(runs, q.now), q)
  }

  function Revoked(m: Manifest, now: real): Manifest {
    if m.active then m.(active := false, revision := m.revision + 1, updated := now) else m
  }

  /** `revoke_run`, which looks at the named run only: `removed` are the files whose deletion
      succeeds. */
  ghost function Revoke(p: Policy, runs: Runs, run: Id, authorized: bool, removed: set<Id>, now: real): Step {
    if now < 0.0 then Step(runs, Some(ClockFailed))
    else if run !in runs then Step(runs, Some(NoSuchRun))
    else
      var d := runs[run];
      if !WellFormed(p, d.manifest) || !Counted(d.manifest) then Step(runs, Some(Integrity))
      else if !authorized || now < d.manifest.updated then Step(runs, Some(Denied))
      else
        var m := Revoked(d.manifest, now);
        Step(runs[run := d.(manifest := m, files := d.files - (removed * m.artifacts.Keys))], None)
  }

  /** `cleanup` of one run: removed, left as it is when corrupt, or tidied and recounted;
      `readable` is whether every ciphertext of the run decrypts. */
  ghost function Tidied(p: Policy, d: RunDir, now: real, readable: bool): Option<RunDir> {
    if !WellFormed(p, d.manifest) || now < d.manifest.updated then Some(d)
    else if !Active(d.manifest, now) then None
    else
      var cleaned := Cleaned(d);
      if !FilesPresent(cleaned) || !readable || Counted(d.manifest) then Some(cleaned)
      else Some(cleaned.(manifest := Recounted(d.manifest.(revision := d.manifest.revision + 1, updated := now))))
  }

  ghost function CleanedUp(p: Policy, runs: Runs, now: real, unreadable: set<Id>): Runs {
    map id | id in runs && Tidied(p, runs[id], now, id !in unreadable).Some? ::
      Tidied(p, runs[id], now, id !in unreadable).value
  }

  /** What a clean-up counts, of one run or of all of them. */
  datatype Report = Report(active: nat, deleted: nat, orphans: nat, temporaries: nat, repaired: nat, corrupt: nat,
                           artifacts: nat, plaintext: nat, disk: nat)

  const NOTHING := Report(0, 0, 0, 0, 0, 0, 0, 0, 0)

  function Plus(a: Report, b: Report): Report {
    Report(a.active + b.active, a.deleted + b.deleted, a.orphans + b.orphans, a.temporaries + b.temporaries,
           a.repaired + b.repaired, a.corrupt + b.corrupt, a.artifacts + b.artifacts,
           a.plaintext + b.plaintext, a.disk + b.disk)
  }

  ghost function RunReport(p: Policy, d: RunDir, now: real, readable: bool): Report {
    if !WellFormed(p, d.manifest) || now < d.manifest.updated then NOTHING.(corrupt := 1)
    else if !Active(d.manifest, now) then NOTHING.(deleted := 1)
    else if !FilesPresent(d) then NOTHING.(corrupt := 1)
    else
      var removed := NOTHING.(orphans := |d.files.Keys - d.manifest.artifacts.Keys|, temporaries := d.temporaries);
      if !readable then removed.(corrupt := 1)
      else
        var m := Recounted(d.manifest);
        removed.(active := 1, repaired := if Counted(d.manifest) then 0 else 1,
                 artifacts := m.count, plaintext := m.plaintext, disk := m.disk)
  }

  ghost function RunReports(p: Policy, runs: Runs, now: real, unreadable: set<Id>): map<Id, Report> {
    map id | id in runs :: RunReport(p, runs[id], now, id !in unreadable)
  }

  function ActiveIn(r: Report): nat { r.active }
  function DeletedIn(r: Report): nat { r.deleted }
  function OrphansIn(r: Report): nat { r.orphans }
  function TemporariesIn(r: Report): nat { r.temporaries }
  function RepairedIn(r: Report): nat { r.repaired }
  function CorruptIn(r: Report): nat { r.corrupt }
  function ArtifactsIn(r: Report): nat { r.artifacts }
  function PlaintextIn(r: Report): nat { r.plaintext }
  function DiskIn(r: Report): nat { r.disk }

  /** The report of a clean-up adds up the reports of its runs. */
  ghost predicate AddsUp(reports: map<Id, Report>, t: Report) {
    && t.active == Sum(reports, ActiveIn) && t.deleted == Sum(reports, DeletedIn)
    && t.orphans == Sum(reports, OrphansIn) && t.temporaries == Sum(reports, TemporariesIn)
    && t.repaired == Sum(reports, RepairedIn) && t.corrupt == Sum(reports, CorruptIn)
    && t.artifacts == Sum(reports, ArtifactsIn)
    && t.plaintext == Sum(reports, PlaintextIn) && t.disk == Sum(reports, DiskIn)
  }

  predicate QuotaSatisfied(p: Policy, t: Report) {
    t.active <= p.maxRuns && t.plaintext <= p.maxTotalBytes && t.disk <= p.maxTotalDiskBytes
  }
}
