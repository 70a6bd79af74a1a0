/** Accounting over every run of the artifact store: counters, quotas, files and the
    leftovers of at most one put, whatever crashes between publishing and committing. */
module ArtifactInvariants {
  import opened Options
  import opened MapSums
  import opened ArtifactTables

  predicate Unlisted(d: RunDir, a: Id) {
    a in d.files && a !in d.manifest.artifacts
  }

  /** What a single unfinished put may leave: one uncommitted ciphertext, one temporary. */
  ghost predicate OneLeftover(d: RunDir) {
    d.temporaries <= 1 && forall a, b | Unlisted(d, a) && Unlisted(d, b) :: a == b
  }

  /** One run: intact, within its own quotas, with the leftovers of at most one put. */
  ghost predicate GoodRun(p: Policy, d: RunDir, now: real) {
    && IntactRun(p, d, now)
    && d.manifest.plaintext <= p.maxRunBytes && d.manifest.disk <= p.maxRunDiskBytes
    && (Active(d.manifest, now) ==> OneLeftover(d))
  }

  ghost predicate GoodRuns(p: Policy, runs: Runs, now: real) {
    forall id | id in runs :: GoodRun(p, runs[id], now)
  }

  ghost predicate StoreQuotas(p: Policy, live: map<Id, Manifest>) {
    && |live| <= p.maxRuns
    && Sum(live, PlaintextOf) <= p.maxTotalBytes
    && Sum(live, RunDiskOf) <= p.maxTotalDiskBytes
  }

  /** An active run with something in it that its manifest does not list. */
  predicate Untidy(d: RunDir, now: real) {
    Active(d.manifest, now) && (d.temporaries > 0 || exists a | a in d.files :: Unlisted(d, a))
  }

  ghost predicate AtMostOneUntidy(runs: Runs, now: real) {
    forall i, j | i in runs && j in runs && Untidy(runs[i], now) && Untidy(runs[j], now) :: i == j
  }

  ghost predicate AllTidy(runs: Runs, now: real) {
    forall i | i in runs :: !Untidy(runs[i], now)
  }

  ghost predicate Inv(p: Policy, runs: Runs, now: real) {
    GoodRuns(p, runs, now) && StoreQuotas(p, Live(runs, now)) && AtMostOneUntidy(runs, now)
  }

  // ---- time and pruning -----------------------------------------------------------------------

  lemma QuotasWithin(p: Policy, a: map<Id, Manifest>, b: map<Id, Manifest>)
    requires StoreQuotas(p, b) && Within(a, b)
    ensures StoreQuotas(p, a)
  {
    SumWithin(a, b, PlaintextOf);
    SumWithin(a, b, RunDiskOf);
  }

  lemma FewerUntidy(runs: Runs, now: real, runs': Runs, later: real)
    requires AtMostOneUntidy(runs, now)
    requires forall i | i in runs' && Untidy(runs'[i], later) :: i in runs && Untidy(runs[i], now)
    ensures AtMostOneUntidy(runs', later)
  {
  }

  /** Time only retires runs. */
  lemma InvLater(p: Policy, runs: Runs, now: real, later: real)
    requires Inv(p, runs, now) && now <= later
    ensures Inv(p, runs, later)
  {
    QuotasWithin(p, Live(runs, later), Live(runs, now));
    FewerUntidy(runs, now, runs, later);
    forall id | id in runs
      ensures GoodRun(p, runs[id], later)
    {
      assert GoodRun(p, runs[id], now);
    }
  }

  lemma CleanedIsGood(p: Policy, d: RunDir, now: real)
    requires GoodRun(p, d, now)
    ensures GoodRun(p, Cleaned(d), now)
  {
  }

  lemma CleanedIsTidy(d: RunDir, now: real)
    ensures !Untidy(Cleaned(d), now)
  {
  }

  lemma PrunedRunsAreGood(p: Policy, runs: Runs, now: real, done: set<Id>)
    requires GoodRuns(p, runs, now)
    ensures GoodRuns(p, PrunedSoFar(runs, now, done), now)
  {
    var runs' := PrunedSoFar(runs, now, done);
    forall id | id in runs'
      ensures GoodRun(p, runs'[id], now)
    {
      assert GoodRun(p, runs[id], now);
      CleanedIsGood(p, runs[id], now);
    }
  }

  lemma PrunedLive(runs: Runs, now: real, done: set<Id>)
    ensures Live(PrunedSoFar(runs, now, done), now) == Live(runs, now)
  {
  }

  /** A scan interrupted anywhere loses no active run and no listed file. */
  lemma InvPrunedSoFar(p: Policy, runs: Runs, now: real, done: set<Id>)
    requires Inv(p, runs, now)
    ensures Inv(p, PrunedSoFar(runs, now, done), now)
    ensures Live(PrunedSoFar(runs, now, done), now) == Live(runs, now)
  {
    var runs' := PrunedSoFar(runs, now, done);
    PrunedRunsAreGood(p, runs, now, done);
    PrunedLive(runs, now, done);
    forall i | i in runs' && Untidy(runs'[i], now)
      ensures i in runs && Untidy(runs[i], now)
    {
      CleanedIsTidy(runs[i], now);
    }
    FewerUntidy(runs, now, runs', now);
  }

  /** Pruning leaves the active runs, all of them tidy. */
  lemma InvPruned(p: Policy, runs: Runs, now: real)
    requires Inv(p, runs, now)
    ensures var pruned := Pruned(runs, now);
            Inv(p, pruned, now) && AllTidy(pruned, now) && Live(pruned, now) == Live(runs, now)
  {
    assert PrunedSoFar(runs, now, runs.Keys) == Pruned(runs, now);
    InvPrunedSoFar(p, runs, now, runs.Keys);
    forall i | i in Pruned(runs, now)
      ensures !Untidy(Pruned(runs, now)[i], now)
    {
      CleanedIsTidy(runs[i], now);
    }
  }

  // ---- replacing one run --------------------------------------------------------------------------

  lemma GoodPut(p: Policy, runs: Runs, id: Id, d: RunDir, now: real)
    requires GoodRuns(p, runs, now) && GoodRun(p, d, now)
    ensures GoodRuns(p, runs[id := d], now)
  {
  }

  lemma LivePut(runs: Runs, id: Id, d: RunDir, now: real)
    ensures Live(runs[id := d], now) ==
            if Active(d.manifest, now) then Live(runs, now)[id := d.manifest] else Live(runs, now) - {id}
  {
  }

  /** A new run directory over a tidy store. */
  lemma InvPut(p: Policy, runs: Runs, id: Id, d: RunDir, now: real)
    requires Inv(p, runs, now) && GoodRun(p, d, now) && AllTidy(runs, now)
    requires StoreQuotas(p, Live(runs[id := d], now))
    ensures Inv(p, runs[id := d], now)
  {
    GoodPut(p, runs, id, d, now);
  }

  // ---- operations -------------------------------------------------------------------------------

  lemma NewRunIsGood(p: Policy, now: real, ttl: real)
    requires ValidTtl(p, ttl) && 0.0 <= now
    ensures GoodRun(p, NewRun(now, ttl), now) && Active(NewRun(now, ttl).manifest, now)
  {
  }

  lemma OneMore(p: Policy, live: map<Id, Manifest>, id: Id, m: Manifest)
    requires StoreQuotas(p, live) && |live| < p.maxRuns && id !in live && m.plaintext == 0 && m.disk == 0
    ensures StoreQuotas(p, live[id := m])
  {
    SumInsert(live, id, m, PlaintextOf);
    SumInsert(live, id, m, RunDiskOf);
  }

  lemma InvCreated(p: Policy, runs: Runs, id: Id, ttl: real, now: real)
    requires Inv(p, runs, now) && AllTidy(runs, now)
    requires id !in runs && ValidTtl(p, ttl) && 0.0 <= now && |Live(runs, now)| < p.maxRuns
    ensures Inv(p, runs[id := NewRun(now, ttl)], now)
  {
    var d := NewRun(now, ttl);
    NewRunIsGood(p, now, ttl);
    LivePut(runs, id, d, now);
    OneMore(p, Live(runs, now), id, d.manifest);
    InvPut(p, runs, id, d, now);
  }

  lemma LeftoverIsGood(p: Policy, d: RunDir, q: PutRequest, a: Id)
    requires GoodRun(p, d, q.now) && !Untidy(d, q.now) && Active(d.manifest, q.now) && a !in d.files
    ensures GoodRun(p, Leftover(d, q, a), q.now) && Leftover(d, q, a).manifest == d.manifest
  {
    assert forall b :: !Unlisted(d, b);
  }

  /** A put that dies or fails in a tidy store leaves at most its own leftovers. */
  lemma InvLeftover(p: Policy, runs: Runs, q: PutRequest, a: Id)
    requires Inv(p, runs, q.now) && AllTidy(runs, q.now) && q.run in runs && a !in runs[q.run].files
    requires Active(runs[q.run].manifest, q.now)
    ensures Inv(p, runs[q.run := Leftover(runs[q.run], q, a)], q.now)
  {
    assert GoodRun(p, runs[q.run], q.now);
    LeftoverIsGood(p, runs[q.run], q, a);
    InvSameManifest(p, runs, q.run, Leftover(runs[q.run], q, a), q.now);
  }

  lemma InvSameManifest(p: Policy, runs: Runs, id: Id, d: RunDir, now: real)
    requires Inv(p, runs, now) && AllTidy(runs, now) && id in runs && Active(runs[id].manifest, now)
    requires GoodRun(p, d, now) && d.manifest == runs[id].manifest
    ensures Inv(p, runs[id := d], now)
  {
    LivePut(runs, id, d, now);
    assert Live(runs, now)[id := d.manifest] == Live(runs, now);
    InvPut(p, runs, id, d, now);
  }

  /** Committing adds the record's sizes to the counters and to the totals. */
  lemma ExtendedCounts(m: Manifest, a: Id, record: Artifact, now: real)
    requires Counted(m) && a !in m.artifacts
    ensures var m' := Extended(m, a, record, now);
            m'.count == m.count + 1 && m'.plaintext == m.plaintext + record.bytes && m'.disk == m.disk + record.disk
  {
    SumInsert(m.artifacts, a, record, BytesOf);
    SumInsert(m.artifacts, a, record, DiskOf);
  }

  lemma CommittedIsGood(p: Policy, d: RunDir, a: Id, q: PutRequest)
    requires GoodRun(p, d, q.now) && !Untidy(d, q.now) && Active(d.manifest, q.now) && a !in d.files
    requires 1 <= q.envelope <= MaxEnvelope(p) && q.bytes <= p.maxArtifactBytes && ValidTtl(p, q.ttl)
    requires d.manifest.count < p.maxArtifactsPerRun
    requires d.manifest.plaintext + q.bytes <= p.maxRunBytes && d.manifest.disk + q.envelope <= p.maxRunDiskBytes
    ensures var m := Extended(d.manifest, a, NewRecord(d.manifest, q), q.now);
            && GoodRun(p, CommittedRun(d, a, m, q.envelope), q.now)
            && m.plaintext == d.manifest.plaintext + q.bytes && m.disk == d.manifest.disk + q.envelope
  {
    ExtendedCounts(d.manifest, a, NewRecord(d.manifest, q), q.now);
    assert forall b :: !Unlisted(d, b);
  }

  lemma InvCommitted(p: Policy, runs: Runs, q: PutRequest, a: Id)
    requires Inv(p, runs, q.now) && AllTidy(runs, q.now) && q.run in runs && a !in runs[q.run].files
    requires Active(runs[q.run].manifest, q.now) && 1 <= q.envelope && q.bytes <= p.maxArtifactBytes
    requires ValidTtl(p, q.ttl) && PutAllowed(p, runs[q.run].manifest, Live(runs, q.now), q)
    ensures var d := runs[q.run];
            var m := Extended(d.manifest, a, NewRecord(d.manifest, q), q.now);
            Inv(p, runs[q.run := CommittedRun(d, a, m, q.envelope)], q.now)
  {
    var d, live := runs[q.run], Live(runs, q.now);
    var m := Extended(d.manifest, a, NewRecord(d.manifest, q), q.now);
    var d' := CommittedRun(d, a, m, q.envelope);
    assert GoodRun(p, d, q.now);
    CommittedIsGood(p, d, a, q);
    LivePut(runs, q.run, d', q.now);
    SumReplace(live, q.run, m, PlaintextOf);
    SumReplace(live, q.run, m, RunDiskOf);
    assert |live[q.run := m]| == |live| by { assert live[q.run := m].Keys == live.Keys; }
    InvPut(p, runs, q.run, d', q.now);
  }

  lemma RevokedIsGood(p: Policy, d: RunDir, files: map<Id, nat>, now: real)
    requires GoodRun(p, d, now)
    ensures GoodRun(p, d.(manifest := Revoked(d.manifest, now), files := files), now)
    ensures !Active(Revoked(d.manifest, now), now)
  {
  }

  lemma InvRevoked(p: Policy, runs: Runs, run: Id, authorized: bool, removed: set<Id>, now: real)
    requires Inv(p, runs, now)
    ensures var step := Revoke(p, runs, run, authorized, removed, now);
            Inv(p, step.runs, now) && (step.failure.None? ==> run !in Live(step.runs, now))
  {
    var step := Revoke(p, runs, run, authorized, removed, now);
    if step.failure.None? {
      var runs' := step.runs;
      var d' := runs'[run];
      assert GoodRun(p, runs[run], now);
      RevokedIsGood(p, runs[run], d'.files, now);
      GoodPut(p, runs, run, d', now);
      LivePut(runs, run, d', now);
      QuotasWithin(p, Live(runs', now), Live(runs, now));
      FewerUntidy(runs, now, runs', now);
    }
  }

  // ---- cleaning up ----------------------------------------------------------------------------------

  /** On an intact store, cleaning up is pruning. */
  lemma CleanupPrunes(p: Policy, runs: Runs, now: real, unreadable: set<Id>)
    requires Intact(p, runs, now)
    ensures CleanedUp(p, runs, now, unreadable) == Pruned(runs, now)
  {
    forall id | id in runs
      ensures Tidied(p, runs[id], now, id !in unreadable) ==
              if Active(runs[id].manifest, now) then Some(Cleaned(runs[id])) else None
    {
      assert IntactRun(p, runs[id], now);
    }
  }

  lemma TidiedIsIntact(p: Policy, d: RunDir, now: real)
    requires WellFormed(p, d.manifest) && d.manifest.updated <= now
    requires Active(d.manifest, now) ==> FilesPresent(d)
    ensures var r := Tidied(p, d, now, true);
            && (r.Some? <==> Active(d.manifest, now))
            && (r.Some? ==>
                  && IntactRun(p, r.value, now) && !Untidy(r.value, now)
                  && r.value.manifest.artifacts == d.manifest.artifacts)
  {
    if Active(d.manifest, now) {
      assert FilesPresent(Cleaned(d));
    }
  }

  /** Cleaning up repairs counters: whatever they said, active runs come out intact and tidy,
      and inactive runs are gone. */
  lemma CleanupRepairs(p: Policy, runs: Runs, now: real)
    requires forall id | id in runs :: WellFormed(p, runs[id].manifest) && runs[id].manifest.updated <= now
    requires forall id | id in runs && Active(runs[id].manifest, now) :: FilesPresent(runs[id])
    ensures var after := CleanedUp(p, runs, now, {});
            && Intact(p, after, now) && AllTidy(after, now)
            && after.Keys == Live(runs, now).Keys
            && forall id | id in after :: after[id].manifest.artifacts == runs[id].manifest.artifacts
  {
    var after := CleanedUp(p, runs, now, {});
    forall id | id in runs
      ensures id in after <==> Active(runs[id].manifest, now)
      ensures id in after ==> IntactRun(p, after[id], now) && !Untidy(after[id], now)
      ensures id in after ==> after[id].manifest.artifacts == runs[id].manifest.artifacts
    {
      TidiedIsIntact(p, runs[id], now);
    }
  }

  /** One run's report on a good store: an active run reports its own counters, and at most
      one orphan and one temporary file. */
  lemma RunReportIsTrue(p: Policy, d: RunDir, now: real, readable: bool)
    requires GoodRun(p, d, now)
    ensures var r, live := RunReport(p, d, now, readable), Active(d.manifest, now);
            && r.active == (if live && readable then 1 else 0)
            && r.plaintext == (if live && readable then d.manifest.plaintext else 0)
            && r.disk == (if live && readable then d.manifest.disk else 0)
            && r.artifacts == (if live && readable then |d.manifest.artifacts| else 0)
            && r.deleted == (if live then 0 else 1) && r.repaired == 0
            && r.corrupt == (if live && !readable then 1 else 0)
            && r.temporaries == (if live then d.temporaries else 0)
            && r.orphans == (if live && exists a | a in d.files :: Unlisted(d, a) then 1 else 0)
  {
    var unlisted := d.files.Keys - d.manifest.artifacts.Keys;
    if Active(d.manifest, now) && exists a | a in d.files :: Unlisted(d, a) {
      var a :| a in d.files && Unlisted(d, a);
      forall b | b in unlisted
        ensures b == a
      {
        assert Unlisted(d, b);
      }
      assert unlisted == {a};
    } else if Active(d.manifest, now) {
      forall b | b in d.files
        ensures b !in unlisted
      {
        assert !Unlisted(d, b);
      }
      assert unlisted == {};
    }
  }

  /** A run that cannot be trusted is spared and reported, whatever else it says: its manifest
      and its listed files are left alone. */
  lemma CorruptIsSpared(p: Policy, d: RunDir, now: real, readable: bool)
    requires !WellFormed(p, d.manifest) || now < d.manifest.updated ||
             (Active(d.manifest, now) && (!FilesPresent(d) || !readable))
    ensures var r, kept := RunReport(p, d, now, readable), Tidied(p, d, now, readable);
            && r.corrupt == 1 && r.active == r.deleted == r.repaired == r.artifacts == r.plaintext == r.disk == 0
            && kept.Some? && kept.value.manifest == d.manifest
            && forall a | a in d.files && a in d.manifest.artifacts ::
                 a in kept.value.files && kept.value.files[a] == d.files[a]
  {
  }

  /** What a clean-up reports of a reachable store: its quotas are satisfied and nothing needs
      repair; and when everything decrypts, nothing is corrupt and the totals are those of
      the active runs. */
  lemma CleanupReportIsTrue(p: Policy, runs: Runs, now: real, unreadable: set<Id>, t: Report)
    requires Inv(p, runs, now) && AddsUp(RunReports(p, runs, now, unreadable), t)
    ensures t.active <= p.maxRuns && t.plaintext <= p.maxTotalBytes && t.disk <= p.maxTotalDiskBytes
    ensures QuotaSatisfied(p, t) && t.repaired == 0 && t.deleted + |Live(runs, now)| == |runs|
    ensures unreadable == {} ==>
              var live := Live(runs, now);
              && t.active == |live| && t.plaintext == Sum(live, PlaintextOf) && t.disk == Sum(live, RunDiskOf)
              && t.corrupt == 0
  {
    var reports, live := RunReports(p, runs, now, unreadable), Live(runs, now);
    AllReported(p, runs, now, unreadable);
    ReportedTotals(reports, live, unreadable);
    ReportedDeletions(reports, live, unreadable);
    assert reports.Keys == runs.Keys && |reports| == |runs|;
    if unreadable == {} {
      ReadableTotals(reports, live);
    }
  }

  lemma AllReported(p: Policy, runs: Runs, now: real, unreadable: set<Id>)
    requires GoodRuns(p, runs, now)
    ensures var reports := RunReports(p, runs, now, unreadable);
            forall id | id in reports :: Reported(reports[id], id, Live(runs, now), unreadable)
  {
    var reports, live := RunReports(p, runs, now, unreadable), Live(runs, now);
    forall id | id in reports
      ensures Reported(reports[id], id, live, unreadable)
    {
      assert GoodRun(p, runs[id], now);
      RunReportIsTrue(p, runs[id], now, id !in unreadable);
    }
  }

  /** A run's report counts it exactly when it is active and decrypts. */
  predicate Reported(r: Report, id: Id, live: map<Id, Manifest>, unreadable: set<Id>) {
    var counts := id in live && id !in unreadable;
    && r.repaired == 0 && r.deleted == (if id in live then 0 else 1)
    && r.active == (if counts then 1 else 0)
    && r.plaintext == (if counts then live[id].plaintext else 0)
    && r.disk == (if counts then live[id].disk else 0)
    && r.corrupt == (if id in live && id in unreadable then 1 else 0)
  }

  lemma ReportedTotals(reports: map<Id, Report>, live: map<Id, Manifest>, unreadable: set<Id>)
    requires forall id | id in reports :: Reported(reports[id], id, live, unreadable)
    ensures Sum(reports, RepairedIn) == 0
    ensures Sum(reports, ActiveIn) <= |live|
    ensures Sum(reports, PlaintextIn) <= Sum(live, PlaintextOf) && Sum(reports, DiskIn) <= Sum(live, RunDiskOf)
  {
    var none: map<Id, Report> := map[];
    SumBounded(reports, RepairedIn, none, RepairedIn);
    SumOfOnes(live);
    SumBounded(reports, ActiveIn, live, One);
    SumBounded(reports, PlaintextIn, live, PlaintextOf);
    SumBounded(reports, DiskIn, live, RunDiskOf);
  }

  lemma ReportedDeletions(reports: map<Id, Report>, live: map<Id, Manifest>, unreadable: set<Id>)
    requires live.Keys <= reports.Keys && forall id | id in reports :: Reported(reports[id], id, live, unreadable)
    ensures Sum(reports, DeletedIn) + |live| == |reports|
  {
    var dead := reports - live.Keys;
    SumOfOnes(dead);
    SumBounded(reports, DeletedIn, dead, One);
    forall id | id in dead
      ensures id in reports && reports[id].deleted == 1
    {
      assert Reported(reports[id], id, live, unreadable);
    }
    SumBounded(dead, One, reports, DeletedIn);
    assert reports.Keys == dead.Keys + live.Keys && dead.Keys !! live.Keys;
    assert |dead.Keys| + |live.Keys| == |reports.Keys|;
  }

  lemma ReadableTotals(reports: map<Id, Report>, live: map<Id, Manifest>)
    requires live.Keys <= reports.Keys && forall id | id in reports :: Reported(reports[id], id, live, {})
    ensures Sum(reports, CorruptIn) == 0
    ensures |live| <= Sum(reports, ActiveIn)
    ensures Sum(live, PlaintextOf) <= Sum(reports, PlaintextIn) && Sum(live, RunDiskOf) <= Sum(reports, DiskIn)
  {
    var none: map<Id, Report> := map[];
    SumBounded(reports, CorruptIn, none, CorruptIn);
    SumOfOnes(live);
    forall id | id in live
      ensures id in reports && Reported(reports[id], id, live, {})
    {
    }
    SumBounded(live, One, reports, ActiveIn);
    SumBounded(live, PlaintextOf, reports, PlaintextIn);
    SumBounded(live, RunDiskOf, reports, DiskIn);
  }

  // ---- every run of operations --------------------------------------------------------------------

  datatype Op =
    | CreateRun(requested: Option<Id>, candidates: seq<Id>, ttl: real, now: real)
    | PutArtifact(request: PutRequest)
    | RevokeRun(run: Id, authorized: bool, removed: set<Id>, now: real)
    | CleanUp(unreadable: set<Id>, now: real)
    | DiePruning(done: set<Id>, now: real)

  function Now(op: Op): real {
    if op.PutArtifact? then op.request.now else op.now
  }

  ghost function Next(p: Policy, runs: Runs, op: Op): Step {
    match op
    case CreateRun(requested, candidates, ttl, now) => Create(p, runs, requested, candidates, ttl, now)
    case PutArtifact(q) => Put(p, runs, q)
    case RevokeRun(run, authorized, removed, now) => Revoke(p, runs, run, authorized, removed, now)
    case CleanUp(unreadable, now) =>
      if now < 0.0 then Step(runs, Some(ClockFailed)) else Step(CleanedUp(p, runs, now, unreadable), None)
    case DiePruning(done, now) => Step(PrunedSoFar(runs, now, done), Some(Died))
  }

  ghost function Run(p: Policy, ops: seq<Op>): Runs {
    if ops == [] then map[] else Next(p, Run(p, ops[..|ops| - 1]), ops[|ops| - 1]).runs
  }

  /** The clock never goes back, and an encrypted envelope is never empty. */
  predicate Orderly(ops: seq<Op>) {
    && (forall i, j | 0 <= i <= j < |ops| :: Now(ops[i]) <= Now(ops[j]))
    && (forall i | 0 <= i < |ops| && ops[i].PutArtifact? :: ops[i].request.envelope >= 1)
  }

  lemma InvCreate(p: Policy, runs: Runs, requested: Option<Id>, candidates: seq<Id>, ttl: real, now: real)
    requires Inv(p, runs, now)
    ensures Inv(p, Create(p, runs, requested, candidates, ttl, now).runs, now)
  {
    var after, pruned := Create(p, runs, requested, candidates, ttl, now).runs, Pruned(runs, now);
    InvPruned(p, runs, now);
    var id := CreateOutcome(p, runs, requested, candidates, ttl, now);
    if after != runs && after != pruned {
      InvCreated(p, pruned, id, ttl, now);
    }
  }

  /** Creating changes nothing, only prunes, or adds one run under an identifier that is free. */
  lemma CreateOutcome(p: Policy, runs: Runs, requested: Option<Id>, candidates: seq<Id>, ttl: real, now: real)
    returns (id: Id)
    ensures var after, pruned := Create(p, runs, requested, candidates, ttl, now).runs, Pruned(runs, now);
            || after == runs || after == pruned
            || (&& id !in pruned && ValidTtl(p, ttl) && 0.0 <= now && |Live(runs, now)| < p.maxRuns
                && after == pruned[id := NewRun(now, ttl)])
  {
    id := 0;
    if requested.Some? {
      id := requested.value;
    } else if FirstFree(Drawn(candidates), Pruned(runs, now).Keys).Some? {
      id := FirstFree(Drawn(candidates), Pruned(runs, now).Keys).value;
    }
  }

  lemma InvPublishInto(p: Policy, runs: Runs, q: PutRequest, a: Id)
    requires Inv(p, runs, q.now) && AllTidy(runs, q.now) && q.run in runs && a !in runs[q.run].files
    requires Active(runs[q.run].manifest, q.now) && 1 <= q.envelope && q.bytes <= p.maxArtifactBytes
    requires ValidTtl(p, q.ttl) && PutAllowed(p, runs[q.run].manifest, Live(runs, q.now), q)
    ensures Inv(p, PublishInto(runs, q, a).runs, q.now)
  {
    if q.fault.NoFault? {
      InvCommitted(p, runs, q, a);
    } else {
      InvLeftover(p, runs, q, a);
    }
  }

  /** A put changes nothing, only prunes, or publishes under an identifier that is free. */
  lemma PutOutcome(p: Policy, runs: Runs, q: PutRequest) returns (a: Id)
    ensures var after, pruned := Put(p, runs, q).runs, Pruned(runs, q.now);
            || after == runs || after == pruned
            || (&& q.run in pruned && Active(pruned[q.run].manifest, q.now) && a !in pruned[q.run].files
                && q.bytes <= p.maxArtifactBytes && ValidTtl(p, q.ttl)
                && PutAllowed(p, pruned[q.run].manifest, Live(runs, q.now), q)
                && after == PublishInto(pruned, q, a).runs)
  {
    a := 0;
    if q.run in Pruned(runs, q.now) {
      var id := FirstFree(Drawn(q.candidates), Pruned(runs, q.now)[q.run].files.Keys);
      if id.Some? {
        a := id.value;
      }
    }
  }

  lemma InvPutArtifact(p: Policy, runs: Runs, q: PutRequest)
    requires Inv(p, runs, q.now) && q.envelope >= 1
    ensures Inv(p, Put(p, runs, q).runs, q.now)
  {
    var after, pruned := Put(p, runs, q).runs, Pruned(runs, q.now);
    InvPruned(p, runs, q.now);
    var a := PutOutcome(p, runs, q);
    if after != runs && after != pruned {
      InvPublishInto(p, pruned, q, a);
    }
  }

  lemma InvCleanUp(p: Policy, runs: Runs, now: real, unreadable: set<Id>)
    requires Inv(p, runs, now)
    ensures Inv(p, CleanedUp(p, runs, now, unreadable), now)
  {
    GoodIsIntact(p, runs, now);
    CleanupPrunes(p, runs, now, unreadable);
    InvPruned(p, runs, now);
  }

  lemma InvNext(p: Policy, runs: Runs, op: Op)
    requires Inv(p, runs, Now(op)) && (op.PutArtifact? ==> op.request.envelope >= 1)
    ensures Inv(p, Next(p, runs, op).runs, Now(op))
  {
    match op
    case CreateRun(requested, candidates, ttl, now) => InvCreate(p, runs, requested, candidates, ttl, now);
    case PutArtifact(q) => InvPutArtifact(p, runs, q);
    case RevokeRun(run, authorized, removed, now) => InvRevoked(p, runs, run, authorized, removed, now);
    case CleanUp(unreadable, now) => InvCleanUp(p, runs, now, unreadable);
    case DiePruning(done, now) => InvPrunedSoFar(p, runs, now, done);
  }

  lemma GoodIsIntact(p: Policy, runs: Runs, now: real)
    requires GoodRuns(p, runs, now)
    ensures Intact(p, runs, now)
  {
    forall id | id in runs
      ensures IntactRun(p, runs[id], now)
    {
      assert GoodRun(p, runs[id], now);
    }
  }

  lemma InvEmpty(p: Policy, now: real)
    ensures Inv(p, map[], now)
  {
    var none: Runs := map[];
    assert Live(none, now) == map[];
  }

  /** In every reachable state, at the time of the last operation or any later time:
      counters equal the sums of the records, per-run and store-wide quotas hold, every
      entry of an active run has its file at the recorded size, and among active runs there
      are the leftovers of at most one put. */
  lemma {:induction false} AccountingHolds(p: Policy, ops: seq<Op>, now: real)
    requires Orderly(ops) && (ops != [] ==> Now(ops[|ops| - 1]) <= now)
    ensures Inv(p, Run(p, ops), now) && Intact(p, Run(p, ops), now)
  {
    if ops == [] {
      InvEmpty(p, now);
    } else {
      var n := |ops| - 1;
      var op := ops[n];
      assert Orderly(ops[..n]);
      AccountingHolds(p, ops[..n], Now(op));
      InvNext(p, Run(p, ops[..n]), op);
      InvLater(p, Run(p, ops), Now(op), now);
    }
    GoodIsIntact(p, Run(p, ops), now);
  }
}
