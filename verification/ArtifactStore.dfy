/** The artifact store's operations as they run: scans over run directories with running
    totals, and the publish-then-commit order of a put. */
module ArtifactStore {
  import opened Options
  import opened MapSums
  import opened ArtifactTables
  import I = ArtifactInvariants

  /** What a scan that gave up may have done: nothing but pruning. */
  ghost predicate OnlyPruned(before: Runs, after: Runs, now: real) {
    && (forall id | id in after ::
          && id in before && after[id].manifest == before[id].manifest
          && after[id].temporaries <= before[id].temporaries
          && Within(after[id].files, before[id].files) && Within(Cleaned(before[id]).files, after[id].files))
    && (forall id | id in before && id !in after :: !Active(before[id].manifest, now))
  }

  /** The manifests of the active runs among those visited. */
  ghost function LiveAmong(runs: Runs, now: real, done: set<Id>): map<Id, Manifest> {
    map id | id in runs && id in done && Active(runs[id].manifest, now) :: runs[id].manifest
  }

  lemma LiveVisited(runs: Runs, now: real, done: set<Id>, id: Id)
    requires id in runs && id !in done
    ensures var live, live' := LiveAmong(runs, now, done), LiveAmong(runs, now, done + {id});
            if Active(runs[id].manifest, now) then
              && |live'| == |live| + 1
              && Sum(live', PlaintextOf) == Sum(live, PlaintextOf) + runs[id].manifest.plaintext
              && Sum(live', RunDiskOf) == Sum(live, RunDiskOf) + runs[id].manifest.disk
            else live' == live
  {
    var live := LiveAmong(runs, now, done);
    if Active(runs[id].manifest, now) {
      assert LiveAmong(runs, now, done + {id}) == live[id := runs[id].manifest];
      SumInsert(live, id, runs[id].manifest, PlaintextOf);
      SumInsert(live, id, runs[id].manifest, RunDiskOf);
    }
  }

  lemma PrunedVisited(runs: Runs, now: real, done: set<Id>, id: Id)
    requires id in runs && id !in done
    ensures var pruned := PrunedSoFar(runs, now, done);
            && id in pruned && pruned[id] == runs[id]
            && PrunedSoFar(runs, now, done + {id}) ==
               if Active(runs[id].manifest, now) then pruned[id := Cleaned(runs[id])] else pruned - {id}
  {
  }

  lemma PrunedIsOnlyPruned(runs: Runs, now: real, done: set<Id>)
    ensures OnlyPruned(runs, PrunedSoFar(runs, now, done), now)
  {
  }

  lemma FailedScanOnlyPrunes(runs: Runs, now: real, done: set<Id>, id: Id)
    requires id in runs && id !in done
    ensures var pruned := PrunedSoFar(runs, now, done);
            OnlyPruned(runs, pruned, now) && OnlyPruned(runs, pruned[id := Cleaned(runs[id])], now)
  {
    PrunedIsOnlyPruned(runs, now, done);
  }

  datatype Totals = Totals(count: nat, plaintext: nat, disk: nat)

  ghost predicate Totalled(live: map<Id, Manifest>, t: Totals) {
    t.count == |live| && t.plaintext == Sum(live, PlaintextOf) && t.disk == Sum(live, RunDiskOf)
  }

  /** Where the scan stands when the runs in `rest` are still to be visited. */
  ghost predicate Scanned(p: Policy, before: Runs, now: real, rest: set<Id>, runs: Runs, t: Totals) {
    && rest <= before.Keys && runs == PrunedSoFar(before, now, before.Keys - rest)
    && (forall id | id in before && id !in rest :: IntactRun(p, before[id], now))
    && Totalled(LiveAmong(before, now, before.Keys - rest), t)
  }

  lemma ScanBegins(p: Policy, before: Runs, now: real)
    ensures Scanned(p, before, now, before.Keys, before, Totals(0, 0, 0))
  {
    assert before.Keys - before.Keys == {};
    assert PrunedSoFar(before, now, {}) == before;
    assert LiveAmong(before, now, {}) == map[];
  }

  /** A visit that succeeds moves the scan on; one that fails leaves only pruning behind. */
  lemma ScanContinues(p: Policy, before: Runs, now: real, rest: set<Id>, runs: Runs, t: Totals, id: Id)
    requires Scanned(p, before, now, rest, runs, t) && id in rest
    ensures id in runs && runs[id] == before[id]
    ensures var d := before[id];
            var runs' := if Active(d.manifest, now) then runs[id := Cleaned(d)] else runs - {id};
            var t' := if Active(d.manifest, now)
                      then Totals(t.count + 1, t.plaintext + d.manifest.plaintext, t.disk + d.manifest.disk) else t;
            && (!IntactRun(p, d, now) ==> !Intact(p, before, now))
            && (IntactRun(p, d, now) ==> Scanned(p, before, now, rest - {id}, runs', t'))
            && OnlyPruned(before, runs, now) && OnlyPruned(before, runs[id := Cleaned(d)], now)
  {
    var done := before.Keys - rest;
    assert before.Keys - (rest - {id}) == done + {id};
    PrunedVisited(before, now, done, id);
    LiveVisited(before, now, done, id);
    FailedScanOnlyPrunes(before, now, done, id);
  }

  lemma ScanEnds(p: Policy, before: Runs, now: real, runs: Runs, t: Totals)
    requires Scanned(p, before, now, {}, runs, t)
    ensures runs == Pruned(before, now) && Intact(p, before, now) && Totalled(Live(before, now), t)
  {
    var all := before.Keys - {};
    assert all == before.Keys;
    AllVisited(before, now);
  }

  lemma AllVisited(runs: Runs, now: real)
    ensures PrunedSoFar(runs, now, runs.Keys) == Pruned(runs, now)
    ensures LiveAmong(runs, now, runs.Keys) == Live(runs, now)
  {
  }

  /** Checking one active run first changes nothing for the scan of all runs. */
  lemma CheckedFirst(p: Policy, runs: Runs, id: Id, now: real)
    requires id in runs && Active(runs[id].manifest, now)
    ensures var checked := runs[id := Cleaned(runs[id])];
            && Pruned(checked, now) == Pruned(runs, now) && Live(checked, now) == Live(runs, now)
            && OnlyPruned(runs, checked, now)
  {
    assert Cleaned(Cleaned(runs[id])).files == Cleaned(runs[id]).files;
  }

  lemma CheckedIntact(p: Policy, runs: Runs, id: Id, now: real)
    requires id in runs && Active(runs[id].manifest, now)
    ensures Intact(p, runs[id := Cleaned(runs[id])], now) <==> Intact(p, runs, now)
  {
    var checked := runs[id := Cleaned(runs[id])];
    assert FilesPresent(Cleaned(runs[id])) <==> FilesPresent(runs[id]);
    forall i | i in runs
      ensures IntactRun(p, checked[i], now) <==> IntactRun(p, runs[i], now)
    {
    }
  }

  lemma OnlyPrunedTwice(a: Runs, b: Runs, c: Runs, now: real)
    requires OnlyPruned(a, b, now) && OnlyPruned(b, c, now)
    ensures OnlyPruned(a, c, now)
  {
    forall id | id in c
      ensures Within(Cleaned(a[id]).files, c[id].files)
    {
      assert id in b;
      assert Within(Cleaned(a[id]).files, Cleaned(b[id]).files);
    }
  }

  /** The invariant, for an operation that follows its specification on intact stores. */
  lemma KeepsInv(p: Policy, before: Runs, op: I.Op, after: Runs)
    requires Intact(p, before, I.Now(op)) ==> after == I.Next(p, before, op).runs
    ensures I.Inv(p, before, I.Now(op)) && (op.PutArtifact? ==> op.request.envelope >= 1) ==>
              I.Inv(p, after, I.Now(op))
  {
    if I.Inv(p, before, I.Now(op)) && (op.PutArtifact? ==> op.request.envelope >= 1) {
      I.GoodIsIntact(p, before, I.Now(op));
      I.InvNext(p, before, op);
    }
  }

  /** Where a clean-up stands when the runs in `rest` are still to be visited. */
  ghost predicate TidiedExcept(p: Policy, before: Runs, now: real, unreadable: set<Id>, rest: set<Id>, runs: Runs) {
    && rest <= before.Keys && runs.Keys <= before.Keys
    && forall id | id in before ::
         var tidied := Tidied(p, before[id], now, id !in unreadable);
         if id in rest then id in runs && runs[id] == before[id]
         else if tidied.Some? then id in runs && runs[id] == tidied.value
         else id !in runs
  }

  lemma TidyContinues(p: Policy, before: Runs, now: real, unreadable: set<Id>, rest: set<Id>, runs: Runs, id: Id)
    requires TidiedExcept(p, before, now, unreadable, rest, runs) && id in rest
    ensures id in runs && runs[id] == before[id]
    ensures var tidied := Tidied(p, before[id], now, id !in unreadable);
            TidiedExcept(p, before, now, unreadable, rest - {id},
                         if tidied.Some? then runs[id := tidied.value] else runs - {id})
  {
  }

  lemma TidyEnds(p: Policy, before: Runs, now: real, unreadable: set<Id>, runs: Runs)
    requires TidiedExcept(p, before, now, unreadable, {}, runs)
    ensures runs == CleanedUp(p, before, now, unreadable)
  {
  }

  lemma AddsUpContinues(reports: map<Id, Report>, rest: set<Id>, id: Id, t: Report)
    requires id in rest && id in reports && AddsUp(reports - rest, t)
    ensures AddsUp(reports - (rest - {id}), Plus(t, reports[id]))
  {
    var seen, r := reports - rest, reports[id];
    assert reports - (rest - {id}) == seen[id := r];
    SumInsert(seen, id, r, ActiveIn);
    SumInsert(seen, id, r, DeletedIn);
    SumInsert(seen, id, r, OrphansIn);
    SumInsert(seen, id, r, TemporariesIn);
    SumInsert(seen, id, r, RepairedIn);
    SumInsert(seen, id, r, CorruptIn);
    SumInsert(seen, id, r, ArtifactsIn);
    SumInsert(seen, id, r, PlaintextIn);
    SumInsert(seen, id, r, DiskIn);
  }

  class EncryptedArtifactStore {
    const policy: Policy
    var runs: Runs

    constructor (policy: Policy)
      ensures this.policy == policy && runs == map[] && forall now :: I.Inv(policy, runs, now)
    {
      this.policy, runs := policy, map[];
      new;
      forall now
        ensures I.Inv(policy, runs, now)
      {
        I.InvEmpty(policy, now);
      }
    }

    /** Sum the records of a manifest. */
    method RecordTotals(artifacts: map<Id, Artifact>) returns (bytes: nat, disk: nat)
      ensures bytes == Sum(artifacts, BytesOf) && disk == Sum(artifacts, DiskOf)
    {
      bytes, disk := 0, 0;
      var rest := artifacts;
      while rest != map[]
        invariant bytes + Sum(rest, BytesOf) == Sum(artifacts, BytesOf)
        invariant disk + Sum(rest, DiskOf) == Sum(artifacts, DiskOf)
        decreases |rest|
      {
        var a :| a in rest;
        SumRemove(rest, a, BytesOf);
        SumRemove(rest, a, DiskOf);
        bytes, disk := bytes + rest[a].bytes, disk + rest[a].disk;
        rest := rest - {a};
      }
    }

    /** `_decode_manifest`: well-formed, and whether the counters match. */
    method DecodeManifest(m: Manifest) returns (wellFormed: bool, matches: bool)
      ensures wellFormed == WellFormed(policy, m) && matches == Counted(m)
      ensures wellFormed <==>
                && 0.0 <= m.created <= m.updated && m.created < m.expires <= m.created + policy.maxTtl + 0.001
                && 1 <= m.revision && |m.artifacts| <= policy.maxArtifactsPerRun
                && forall a | a in m.artifacts ::
                     && m.artifacts[a].bytes <= policy.maxArtifactBytes
                     && 1 <= m.artifacts[a].disk <= ((policy.maxArtifactBytes + 16400) * 4 + 2) / 3 + 16384
                     && m.created <= m.artifacts[a].expires <= m.expires
    {
      var bytes, disk := RecordTotals(m.artifacts);
      wellFormed := WellFormed(policy, m);
      matches := m.count == |m.artifacts| && m.plaintext == bytes && m.disk == disk;
    }

    /** `_check_run_files` with removal: temporary and unlisted files go first and are counted,
        then the entries are checked. */
    method CheckRunFiles(id: Id) returns (ok: bool, orphans: nat, temporaries: nat)
      requires id in runs
      modifies `runs
      ensures runs == old(runs)[id := Cleaned(old(runs)[id])]
      ensures ok == FilesPresent(old(runs)[id])
      ensures var d := old(runs)[id];
              orphans == |d.files.Keys - d.manifest.artifacts.Keys| && temporaries == d.temporaries
    {
      var d := runs[id];
      var kept;
      kept, orphans := RemoveUnlisted(d.files, d.manifest.artifacts.Keys);
      temporaries := d.temporaries;
      assert kept == Cleaned(d).files;
      runs := runs[id := d.(files := kept, temporaries := 0)];
      ok := forall a | a in d.manifest.artifacts :: a in kept && kept[a] == d.manifest.artifacts[a].disk;
    }

    /** Remove and count the files that are not listed. */
    method RemoveUnlisted(files: map<Id, nat>, listed: set<Id>) returns (kept: map<Id, nat>, removed: nat)
      ensures kept == map a | a in files && a in listed :: files[a]
      ensures removed == |files.Keys - listed|
    {
      kept, removed := files, 0;
      var names := files.Keys;
      ghost var gone: set<Id> := {};
      while names != {}
        invariant names <= files.Keys && gone <= files.Keys && removed == |gone|
        invariant forall x | x in gone :: x !in listed && x !in names
        invariant forall x | x in files && x !in gone :: x in listed || x in names
        invariant kept == files - gone
        decreases |names|
      {
        var a :| a in names;
        if a !in listed {
          kept, removed, gone := kept - {a}, removed + 1, gone + {a};
        }
        names := names - {a};
      }
      assert gone == files.Keys - listed;
    }

    /** One run of the scan: removed when inactive, cleaned and checked when active. */
    method VisitRun(id: Id, now: real) returns (ok: bool)
      requires id in runs
      modifies `runs
      ensures ok <==> IntactRun(policy, old(runs)[id], now)
      ensures ok ==> runs == if Active(old(runs)[id].manifest, now) then old(runs)[id := Cleaned(old(runs)[id])]
                             else old(runs) - {id}
      ensures !ok ==> runs == old(runs) || runs == old(runs)[id := Cleaned(old(runs)[id])]
    {
      var m := runs[id].manifest;
      var wellFormed, matches := DecodeManifest(m);
      if !wellFormed || !matches || now < m.updated { return false; }
      if Active(m, now) {
        var present, _, _ := CheckRunFiles(id);
        ok := present;
      } else {
        runs := runs - {id};
        ok := true;
      }
    }

    /** `_active_totals` with pruning. */
    method ActiveTotals(now: real) returns (ok: bool, count: nat, plaintext: nat, disk: nat)
      modifies `runs
      ensures ok <==> Intact(policy, old(runs), now)
      ensures ok ==> runs == Pruned(old(runs), now) &&
                     Totalled(Live(old(runs), now), Totals(count, plaintext, disk))
      ensures !ok ==> OnlyPruned(old(runs), runs, now)
    {
      ghost var before := runs;
      var rest := runs.Keys;
      var totals := Totals(0, 0, 0);
      ScanBegins(policy, before, now);
      while rest != {}
        invariant Scanned(policy, before, now, rest, runs, totals)
        decreases |rest|
      {
        var id :| id in rest;
        ScanContinues(policy, before, now, rest, runs, totals, id);
        var m := runs[id].manifest;
        ok := VisitRun(id, now);
        if !ok { return false, 0, 0, 0; }
        if Active(m, now) {
          totals := Totals(totals.count + 1, totals.plaintext + m.plaintext, totals.disk + m.disk);
        }
        rest := rest - {id};
      }
      ScanEnds(policy, before, now, runs, totals);
      return true, totals.count, totals.plaintext, totals.disk;
    }

    /** Try random identifiers until one is free. */
    method ChooseId(candidates: seq<Id>, taken: set<Id>) returns (id: Option<Id>)
      ensures id == FirstFree(Drawn(candidates), taken)
    {
      var drawn := Drawn(candidates);
      var i := 0;
      while i < |drawn|
        invariant i <= |drawn|
        invariant FirstFree(drawn, taken) == FirstFree(drawn[i..], taken)
      {
        if drawn[i] !in taken { return Some(drawn[i]); }
        assert drawn[i..][1..] == drawn[i + 1..];
        i := i + 1;
      }
      return None;
    }

    method CreateRun(requested: Option<Id>, candidates: seq<Id>, ttl: real, now: real)
      returns (failure: Option<Failure>)
      modifies `runs
      ensures Intact(policy, old(runs), now) ==>
                Step(runs, failure) == Create(policy, old(runs), requested, candidates, ttl, now)
      ensures !Intact(policy, old(runs), now) ==>
                failure.Some? && (runs == old(runs) || OnlyPruned(old(runs), runs, now))
      ensures I.Inv(policy, old(runs), now) ==> I.Inv(policy, runs, now)
    {
      ghost var before := runs;
      failure := TryCreate(requested, candidates, ttl, now);
      KeepsInv(policy, before, I.CreateRun(requested, candidates, ttl, now), runs);
    }

    method TryCreate(requested: Option<Id>, candidates: seq<Id>, ttl: real, now: real)
      returns (failure: Option<Failure>)
      modifies `runs
      ensures Intact(policy, old(runs), now) ==>
                Step(runs, failure) == Create(policy, old(runs), requested, candidates, ttl, now)
      ensures !Intact(policy, old(runs), now) ==>
                failure.Some? && (runs == old(runs) || OnlyPruned(old(runs), runs, now))
    {
      if ttl <= 0.0 || ttl > policy.maxTtl { return Some(InvalidTtl); }
      if now < 0.0 { return Some(ClockFailed); }
      var ok, count, _, _ := ActiveTotals(now);
      if !ok { return Some(Integrity); }
      if count >= policy.maxRuns { return Some(Quota); }
      var id := requested;
      if requested.None? {
        id := ChooseId(candidates, runs.Keys);
      } else if requested.value in runs {
        id := None;
      }
      if id.None? { return Some(Integrity); }
      runs := runs[id.value := NewRun(now, ttl)];
      return None;
    }

    /** The manifest with one more record and its counters summed again. */
    method ExtendManifest(m: Manifest, a: Id, record: Artifact, now: real) returns (r: Manifest)
      ensures r == Extended(m, a, record, now)
    {
      var records := m.artifacts[a := record];
      var bytes, disk := RecordTotals(records);
      r := m.(artifacts := records, revision := m.revision + 1, updated := now,
              count := |records|, plaintext := bytes, disk := disk);
    }

    /** Write a temporary file, link it as the ciphertext, drop it, replace the manifest. */
    method Publish(q: PutRequest, a: Id) returns (failure: Option<Failure>)
      requires q.run in runs && a !in runs[q.run].files
      modifies `runs
      ensures Step(runs, failure) == PublishInto(old(runs), q, a)
    {
      var d := runs[q.run];
      var m := ExtendManifest(d.manifest, a, NewRecord(d.manifest, q), q.now);
      assert runs[q.run := d] == runs;
      if q.fault.PublishFails? { return Some(WriteFailed); }
      runs := runs[q.run := d.(temporaries := d.temporaries + 1)];
      if q.fault.DiesWriting? { return Some(Died); }
      runs := runs[q.run := WithFile(runs[q.run], a, q.envelope)];
      if q.fault.DiesLinked? { return Some(Died); }
      runs := runs[q.run := runs[q.run].(temporaries := d.temporaries)];
      if q.fault.DiesPublished? { return Some(Died); }
      if q.fault.ReplaceFails? {
        if q.fault.unlinked {
          assert d.files[a := q.envelope] - {a} == d.files;
          runs := runs[q.run := d.(files := runs[q.run].files - {a})];
        }
        return Some(WriteFailed);
      }
      runs := runs[q.run := runs[q.run].(manifest := m)];
      return None;
    }

    method PutArtifact(q: PutRequest) returns (failure: Option<Failure>)
      modifies `runs
      ensures Intact(policy, old(runs), q.now) ==> Step(runs, failure) == Put(policy, old(runs), q)
      ensures !Intact(policy, old(runs), q.now) ==>
                failure.Some? && (runs == old(runs) || OnlyPruned(old(runs), runs, q.now))
      ensures I.Inv(policy, old(runs), q.now) && q.envelope >= 1 ==> I.Inv(policy, runs, q.now)
    {
      ghost var before := runs;
      failure := TryPut(q);
      KeepsInv(policy, before, I.PutArtifact(q), runs);
    }

    method TryPut(q: PutRequest) returns (failure: Option<Failure>)
      modifies `runs
      ensures Intact(policy, old(runs), q.now) ==> Step(runs, failure) == Put(policy, old(runs), q)
      ensures !Intact(policy, old(runs), q.now) ==>
                failure.Some? && (runs == old(runs) || OnlyPruned(old(runs), runs, q.now))
    {
      if q.bytes > policy.maxArtifactBytes { return Some(Quota); }
      if !q.mediaTypeValid { return Some(InvalidMediaType); }
      if q.ttl <= 0.0 || q.ttl > policy.maxTtl { return Some(InvalidTtl); }
      if q.now < 0.0 { return Some(ClockFailed); }
      if q.run !in runs { return Some(NoSuchRun); }
      var m := runs[q.run].manifest;
      var wellFormed, matches := DecodeManifest(m);
      if !wellFormed || !matches { return Some(Integrity); }
      if !q.authorized || !m.active || q.now < m.updated || q.now >= m.expires { return Some(Denied); }
      var ok, plaintext, disk := CheckThenTotal(q.run, q.now);
      if !ok { return Some(Integrity); }
      if m.count >= policy.maxArtifactsPerRun || m.plaintext + q.bytes > policy.maxRunBytes
         || plaintext + q.bytes > policy.maxTotalBytes
      {
        return Some(Quota);
      }
      var id := ChooseId(q.candidates, runs[q.run].files.Keys);
      if id.None? { return Some(Collision); }
      if q.envelope > MaxEnvelope(policy) || m.disk + q.envelope > policy.maxRunDiskBytes
         || disk + q.envelope > policy.maxTotalDiskBytes
      {
        return Some(Quota);
      }
      failure := Publish(q, id.value);
    }

    /** The two file checks of a put: the run's own, then the scan of all runs. */
    method CheckThenTotal(id: Id, now: real) returns (ok: bool, plaintext: nat, disk: nat)
      requires id in runs && Active(runs[id].manifest, now)
      modifies `runs
      ensures ok <==> Intact(policy, old(runs), now)
      ensures ok ==> runs == Pruned(old(runs), now)
                     && plaintext == Sum(Live(old(runs), now), PlaintextOf)
                     && disk == Sum(Live(old(runs), now), RunDiskOf)
      ensures !ok ==> OnlyPruned(old(runs), runs, now)
    {
      ghost var before := runs;
      CheckedFirst(policy, before, id, now);
      CheckedIntact(policy, before, id, now);
      var present, _, _ := CheckRunFiles(id);
      if !present {
        assert !IntactRun(policy, before[id], now);
        return false, 0, 0;
      }
      ghost var checked := runs;
      var intact, _, totalBytes, totalDisk := ActiveTotals(now);
      if !intact {
        OnlyPrunedTwice(before, checked, runs, now);
      }
      return intact, totalBytes, totalDisk;
    }

    /** Delete the listed files, as far as deleting succeeds. */
    method RemoveFiles(files: map<Id, nat>, listed: set<Id>, removable: set<Id>) returns (left: map<Id, nat>)
      ensures left == files - (removable * listed)
    {
      left := files;
      var names := listed;
      while names != {}
        invariant names <= listed
        invariant left == files - (removable * (listed - names))
        decreases |names|
      {
        var a :| a in names;
        if a in removable { left := left - {a}; }
        names := names - {a};
      }
    }

    /** Refuse further use first, then delete what can be deleted. */
    method RevokeRun(run: Id, authorized: bool, removable: set<Id>, now: real) returns (failure: Option<Failure>)
      modifies `runs
      ensures Step(runs, failure) == Revoke(policy, old(runs), run, authorized, removable, now)
      ensures failure.Some? ==> runs == old(runs)
      ensures I.Inv(policy, old(runs), now) ==> I.Inv(policy, runs, now)
    {
      ghost var before := runs;
      failure := TryRevoke(run, authorized, removable, now);
      KeepsInv(policy, before, I.RevokeRun(run, authorized, removable, now), runs);
    }

    method TryRevoke(run: Id, authorized: bool, removable: set<Id>, now: real) returns (failure: Option<Failure>)
      modifies `runs
      ensures Step(runs, failure) == Revoke(policy, old(runs), run, authorized, removable, now)
    {
      if now < 0.0 { return Some(ClockFailed); }
      if run !in runs { return Some(NoSuchRun); }
      var d := runs[run];
      var wellFormed, matches := DecodeManifest(d.manifest);
      if !wellFormed || !matches { return Some(Integrity); }
      if !authorized || now < d.manifest.updated { return Some(Denied); }
      var m := d.manifest;
      if m.active {
        m := m.(active := false, revision := m.revision + 1, updated := now);
        runs := runs[run := d.(manifest := m)];
      }
      var files := RemoveFiles(d.files, m.artifacts.Keys, removable);
      runs := runs[run := d.(manifest := m, files := files)];
      return None;
    }

    /** `cleanup` of one run. */
    method TidyRun(id: Id, now: real, readable: bool) returns (report: Report)
      requires id in runs
      modifies `runs
      ensures var tidied := Tidied(policy, old(runs)[id], now, readable);
              runs == if tidied.Some? then old(runs)[id := tidied.value] else old(runs) - {id}
      ensures report == RunReport(policy, old(runs)[id], now, readable)
    {
      var m := runs[id].manifest;
      var wellFormed, matches := DecodeManifest(m);
      if !wellFormed || now < m.updated {
        assert runs[id := runs[id]] == runs;
        return NOTHING.(corrupt := 1);
      }
      if !Active(m, now) {
        runs := runs - {id};
        return NOTHING.(deleted := 1);
      }
      report := TidyActive(id, now, readable, matches);
    }

    method TidyActive(id: Id, now: real, readable: bool, matches: bool) returns (report: Report)
      requires id in runs && WellFormed(policy, runs[id].manifest) && runs[id].manifest.updated <= now
      requires Active(runs[id].manifest, now) && matches == Counted(runs[id].manifest)
      modifies `runs
      ensures runs == old(runs)[id := Tidied(policy, old(runs)[id], now, readable).value]
      ensures report == RunReport(policy, old(runs)[id], now, readable)
    {
      var m := runs[id].manifest;
      var ok, orphans, temporaries := CheckRunFiles(id);
      assert FilesPresent(Cleaned(old(runs)[id])) <==> FilesPresent(old(runs)[id]);
      if !ok { return NOTHING.(corrupt := 1); }
      report := NOTHING.(orphans := orphans, temporaries := temporaries);
      if !readable { return report.(corrupt := 1); }
      if !matches {
        var bytes, disk := RecordTotals(m.artifacts);
        m := m.(revision := m.revision + 1, updated := now, count := |m.artifacts|, plaintext := bytes, disk := disk);
        runs := runs[id := runs[id].(manifest := m)];
        report := report.(repaired := 1);
      }
      report := report.(active := 1, artifacts := m.count, plaintext := m.plaintext, disk := m.disk);
    }

    /** Tidy every run and add up what was done; `unreadable` are the runs in which some
        ciphertext does not decrypt. */
    method CleanUp(now: real, unreadable: set<Id>) returns (report: Option<Report>, quotaSatisfied: bool)
      modifies `runs
      ensures report.None? <==> now < 0.0
      ensures report.None? ==> runs == old(runs)
      ensures report.Some? ==>
                && runs == CleanedUp(policy, old(runs), now, unreadable)
                && AddsUp(RunReports(policy, old(runs), now, unreadable), report.value)
                && quotaSatisfied == QuotaSatisfied(policy, report.value)
      ensures I.Inv(policy, old(runs), now) ==> I.Inv(policy, runs, now) && (report.Some? ==> quotaSatisfied)
    {
      ghost var before := runs;
      if now < 0.0 { return None, false; }
      var total := TidyAll(now, unreadable);
      KeepsInv(policy, before, I.CleanUp(unreadable, now), runs);
      if I.Inv(policy, before, now) {
        I.CleanupReportIsTrue(policy, before, now, unreadable, total);
      }
      return Some(total), QuotaSatisfied(policy, total);
    }

    method TidyAll(now: real, unreadable: set<Id>) returns (total: Report)
      modifies `runs
      ensures runs == CleanedUp(policy, old(runs), now, unreadable)
      ensures AddsUp(RunReports(policy, old(runs), now, unreadable), total)
    {
      ghost var before := runs;
      ghost var reports := RunReports(policy, before, now, unreadable);
      var rest := runs.Keys;
      total := NOTHING;
      assert reports - rest == map[];
      while rest != {}
        invariant TidiedExcept(policy, before, now, unreadable, rest, runs)
        invariant AddsUp(reports - rest, total)
        decreases |rest|
      {
        var id :| id in rest;
        TidyContinues(policy, before, now, unreadable, rest, runs, id);
        AddsUpContinues(reports, rest, id, total);
        var report := TidyRun(id, now, id !in unreadable);
        total := Plus(total, report);
        rest := rest - {id};
      }
      TidyEnds(policy, before, now, unreadable, runs);
      assert reports - {} == reports;
    }
  }
}
