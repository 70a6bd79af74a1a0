/** Exactly when the artifact store's operations succeed, and what they then change. */
module ArtifactGuards {
  import opened Options
  import opened MapSums
  import opened ArtifactTables
  import opened ArtifactInvariants

  lemma LiveExactly(runs: Runs, now: real, id: Id)
    ensures id in Live(runs, now) <==> id in runs && runs[id].manifest.active && now < runs[id].manifest.expires
    ensures id in Live(runs, now) ==> Live(runs, now)[id] == runs[id].manifest
    ensures id in Pruned(runs, now) <==> id in Live(runs, now)
    ensures id in Live(runs, now) ==> Pruned(runs, now)[id].manifest == runs[id].manifest
  {
  }

  lemma {:induction false} FirstFreeExactly(candidates: seq<Id>, taken: set<Id>)
    ensures FirstFree(candidates, taken).Some? <==> exists i | 0 <= i < |candidates| :: candidates[i] !in taken
    ensures FirstFree(candidates, taken).Some? ==>
              exists i | 0 <= i < |candidates| ::
                candidates[i] == FirstFree(candidates, taken).value && candidates[i] !in taken
                && forall j | 0 <= j < i :: candidates[j] in taken
  {
    if candidates != [] {
      if candidates[0] in taken {
        var rest := candidates[1..];
        FirstFreeExactly(rest, taken);
        assert forall i | 0 <= i < |rest| :: rest[i] == candidates[i + 1];
        if FirstFree(rest, taken).Some? {
          var i :| 0 <= i < |rest| && rest[i] == FirstFree(rest, taken).value && rest[i] !in taken
                   && forall j | 0 <= j < i :: rest[j] in taken;
          forall j | 0 <= j < i + 1
            ensures candidates[j] in taken
          {
            if j > 0 { assert rest[j - 1] in taken; }
          }
          assert candidates[i + 1] !in taken;
        }
      } else {
        assert candidates[0] !in taken;
      }
    }
  }

  /** One of the first 128 candidates is not taken. */
  predicate SomeFree(candidates: seq<Id>, taken: set<Id>) {
    exists i | 0 <= i < |candidates| && i < 128 :: candidates[i] !in taken
  }

  lemma DrawnExactly(candidates: seq<Id>, taken: set<Id>)
    ensures FirstFree(Drawn(candidates), taken).Some? <==> SomeFree(candidates, taken)
  {
    FirstFreeExactly(Drawn(candidates), taken);
    var drawn := Drawn(candidates);
    assert forall i | 0 <= i < |drawn| :: drawn[i] == candidates[i];
    if SomeFree(candidates, taken) {
      var i :| 0 <= i < |candidates| && i < 128 && candidates[i] !in taken;
      assert drawn[i] !in taken;
    }
  }

  // ---- creating a run ------------------------------------------------------------------------

  /** A run is created exactly when its lifetime is allowed, the clock works, fewer than the
      maximum are active, and its identifier -- asked for or drawn -- is not an active run's. */
  lemma CreateSucceedsExactly(p: Policy, runs: Runs, requested: Option<Id>, candidates: seq<Id>, ttl: real, now: real)
    ensures Create(p, runs, requested, candidates, ttl, now).failure.None? <==>
            && 0.0 < ttl <= p.maxTtl && 0.0 <= now && |Live(runs, now)| < p.maxRuns
            && (requested.Some? ==> requested.value !in Live(runs, now))
            && (requested.None? ==> SomeFree(candidates, Live(runs, now).Keys))
  {
    assert Pruned(runs, now).Keys == Live(runs, now).Keys;
    DrawnExactly(candidates, Live(runs, now).Keys);
  }

  /** It then adds one empty run that lives for `ttl`, and otherwise only prunes. */
  lemma CreateAdds(p: Policy, runs: Runs, requested: Option<Id>, candidates: seq<Id>, ttl: real, now: real)
    requires Create(p, runs, requested, candidates, ttl, now).failure.None?
    ensures var after := Create(p, runs, requested, candidates, ttl, now).runs;
            exists id :: id in after && id !in Live(runs, now) && after == Pruned(runs, now)[id := after[id]]
              && (requested.Some? ==> id == requested.value) && (requested.None? ==> id in candidates)
              && after[id].files == map[] && after[id].temporaries == 0
              && after[id].manifest.artifacts == map[] && after[id].manifest.active
              && after[id].manifest.created == after[id].manifest.updated == now
              && after[id].manifest.expires == now + ttl
  {
    var pruned, after := Pruned(runs, now), Create(p, runs, requested, candidates, ttl, now).runs;
    var id := if requested.Some? then requested.value else FirstFree(Drawn(candidates), pruned.Keys).value;
    assert id in after && id !in pruned;
  }

  // ---- putting an artifact ---------------------------------------------------------------------

  /** The request is acceptable by itself. */
  predicate RequestFits(p: Policy, q: PutRequest) {
    q.bytes <= p.maxArtifactBytes && q.mediaTypeValid && 0.0 < q.ttl <= p.maxTtl && 0.0 <= q.now && q.authorized
  }

  /** The run has room for it, and so has the store, counting active runs only. */
  ghost predicate RoomFor(p: Policy, runs: Runs, q: PutRequest)
    requires q.run in runs
  {
    var records, live := runs[q.run].manifest.artifacts, Live(runs, q.now);
    && |records| + 1 <= p.maxArtifactsPerRun
    && Sum(records, BytesOf) + q.bytes <= p.maxRunBytes && Sum(live, PlaintextOf) + q.bytes <= p.maxTotalBytes
    && q.envelope <= ((p.maxArtifactBytes + 16400) * 4 + 2) / 3 + 16384
    && Sum(records, DiskOf) + q.envelope <= p.maxRunDiskBytes
    && Sum(live, RunDiskOf) + q.envelope <= p.maxTotalDiskBytes
  }

  /** On an intact store a put succeeds exactly when the request fits, its run is active, there
      is room, an identifier is free and nothing goes wrong. */
  lemma PutSucceedsExactly(p: Policy, runs: Runs, q: PutRequest)
    requires Intact(p, runs, q.now)
    ensures Put(p, runs, q).failure.None? <==>
            && RequestFits(p, q) && q.run in runs
            && runs[q.run].manifest.active && q.now < runs[q.run].manifest.expires
            && RoomFor(p, runs, q) && SomeFree(q.candidates, runs[q.run].manifest.artifacts.Keys)
            && q.fault.NoFault?
  {
    if q.run in runs && Active(runs[q.run].manifest, q.now) {
      var d := runs[q.run];
      assert IntactRun(p, d, q.now);
      assert Cleaned(d).files.Keys == d.manifest.artifacts.Keys;
      DrawnExactly(q.candidates, d.manifest.artifacts.Keys);
    }
  }

  /** Everything that has to be right before a put begins to write. */
  ghost predicate MayWrite(p: Policy, runs: Runs, q: PutRequest) {
    && Intact(p, runs, q.now) && RequestFits(p, q) && q.run in runs
    && runs[q.run].manifest.active && q.now < runs[q.run].manifest.expires
    && RoomFor(p, runs, q) && SomeFree(q.candidates, runs[q.run].manifest.artifacts.Keys)
  }

  /** It then publishes under a candidate that is neither listed nor the name of a file. */
  lemma PutWrites(p: Policy, runs: Runs, q: PutRequest) returns (a: Id)
    requires MayWrite(p, runs, q)
    ensures q.run in Pruned(runs, q.now) && Pruned(runs, q.now)[q.run] == Cleaned(runs[q.run])
    ensures a in q.candidates && a !in runs[q.run].manifest.artifacts && a !in Cleaned(runs[q.run]).files
    ensures Put(p, runs, q) == PublishInto(Pruned(runs, q.now), q, a)
  {
    var d := Cleaned(runs[q.run]);
    assert IntactRun(p, runs[q.run], q.now);
    assert d.files.Keys == d.manifest.artifacts.Keys;
    DrawnExactly(q.candidates, d.files.Keys);
    a := FirstFree(Drawn(q.candidates), d.files.Keys).value;
  }

  /** One record more, with the sizes asked for and an expiry no later than the run's, and its
      file; the manifest is otherwise only updated. */
  predicate IsAddition(d: RunDir, d': RunDir, q: PutRequest, a: Id) {
    var m, m' := d.manifest, d'.manifest;
    && a !in m.artifacts && a in m'.artifacts && m'.artifacts == m.artifacts[a := m'.artifacts[a]]
    && m'.artifacts[a].bytes == q.bytes && m'.artifacts[a].disk == q.envelope
    && m'.artifacts[a].expires <= m.expires && m'.artifacts[a].expires <= q.now + q.ttl
    && (m'.artifacts[a].expires == m.expires || m'.artifacts[a].expires == q.now + q.ttl)
    && d'.files == d.files[a := q.envelope] && d'.temporaries == d.temporaries
    && m'.active == m.active && m'.created == m.created && m'.expires == m.expires
    && m'.updated == q.now && m'.revision == m.revision + 1
  }

  lemma CommittedIsAddition(d: RunDir, q: PutRequest, a: Id)
    requires a !in d.manifest.artifacts
    ensures var m := Extended(d.manifest, a, NewRecord(d.manifest, q), q.now);
            IsAddition(d, CommittedRun(d, a, m, q.envelope), q, a)
  {
  }

  /** What a successful put changes. */
  lemma PutAdds(p: Policy, runs: Runs, q: PutRequest) returns (a: Id)
    requires MayWrite(p, runs, q) && q.fault.NoFault?
    ensures var after, pruned := Put(p, runs, q).runs, Pruned(runs, q.now);
            && q.run in after && a in q.candidates
            && after == pruned[q.run := after[q.run]] && IsAddition(Cleaned(runs[q.run]), after[q.run], q, a)
  {
    a := PutWrites(p, runs, q);
    CommittedIsAddition(Cleaned(runs[q.run]), q, a);
  }

  /** No record, at most the ciphertext that was linked and the temporary that was written. */
  predicate IsLeftover(d: RunDir, d': RunDir, q: PutRequest, a: Id) {
    && d'.manifest == d.manifest
    && d'.temporaries == d.temporaries + (if q.fault.DiesWriting? || q.fault.DiesLinked? then 1 else 0)
    && d'.files == if q.fault.DiesLinked? || q.fault.DiesPublished? || q.fault == ReplaceFails(false)
                   then d.files[a := q.envelope] else d.files
  }

  /** What a put that dies or fails while writing leaves. */
  lemma PutLeaves(p: Policy, runs: Runs, q: PutRequest) returns (a: Id)
    requires MayWrite(p, runs, q) && !q.fault.NoFault?
    ensures var after, pruned := Put(p, runs, q).runs, Pruned(runs, q.now);
            && q.run in after && a in q.candidates && Put(p, runs, q).failure.Some?
            && after == pruned[q.run := after[q.run]] && IsLeftover(Cleaned(runs[q.run]), after[q.run], q, a)
  {
    a := PutWrites(p, runs, q);
  }

  // ---- revoking ----------------------------------------------------------------------------------

  /** A revocation succeeds exactly when the named run can be decoded, the capability is its
      own and the clock has not gone back; the run is then inactive for good, and nothing but
      its listed files may be gone. */
  lemma RevokeExactly(p: Policy, runs: Runs, run: Id, authorized: bool, removed: set<Id>, now: real)
    ensures var step := Revoke(p, runs, run, authorized, removed, now);
            && (step.failure.None? <==>
                && 0.0 <= now && run in runs && WellFormed(p, runs[run].manifest) && Counted(runs[run].manifest)
                && authorized && runs[run].manifest.updated <= now)
            && (step.failure.Some? ==> step.runs == runs)
            && (step.failure.None? ==>
                  && step.runs == runs[run := step.runs[run]] && !step.runs[run].manifest.active
                  && step.runs[run].manifest.artifacts == runs[run].manifest.artifacts
                  && Within(step.runs[run].files, runs[run].files)
                  && (forall a | a in runs[run].files && a !in step.runs[run].files ::
                        a in runs[run].manifest.artifacts && a in removed)
                  && (forall a | a in removed && a in runs[run].manifest.artifacts :: a !in step.runs[run].files))
  {
  }

  // ---- committed artifacts stay --------------------------------------------------------------------

  /** Everything run `id` had committed is still there, with its files. */
  predicate Kept(d: RunDir, d': RunDir) {
    && Within(d.manifest.artifacts, d'.manifest.artifacts)
    && forall a | a in d.manifest.artifacts && a in d.files :: a in d'.files && d'.files[a] == d.files[a]
  }

  predicate Revokes(op: Op, id: Id) {
    op.RevokeRun? && op.run == id
  }

  lemma PrunedKeeps(runs: Runs, now: real, id: Id)
    requires id in Live(runs, now)
    ensures id in Pruned(runs, now) && Kept(runs[id], Pruned(runs, now)[id])
  {
  }

  lemma PublishKeeps(d: RunDir, q: PutRequest, a: Id)
    requires a !in d.manifest.artifacts && a !in d.files
    ensures Kept(d, Leftover(d, q, a))
    ensures Kept(d, CommittedRun(d, a, Extended(d.manifest, a, NewRecord(d.manifest, q), q.now), q.envelope))
  {
  }

  lemma KeptTwice(a: RunDir, b: RunDir, c: RunDir)
    requires Kept(a, b) && Kept(b, c)
    ensures Kept(a, c)
  {
  }

  lemma PublishIntoKeeps(runs: Runs, q: PutRequest, a: Id, id: Id)
    requires q.run in runs && id in runs && a !in runs[q.run].manifest.artifacts && a !in runs[q.run].files
    ensures id in PublishInto(runs, q, a).runs && Kept(runs[id], PublishInto(runs, q, a).runs[id])
  {
    PublishKeeps(runs[q.run], q, a);
  }

  lemma PutKeeps(p: Policy, runs: Runs, q: PutRequest, id: Id)
    requires Intact(p, runs, q.now) && id in Live(runs, q.now)
    ensures id in Put(p, runs, q).runs && Kept(runs[id], Put(p, runs, q).runs[id])
  {
    var after, pruned := Put(p, runs, q).runs, Pruned(runs, q.now);
    PrunedKeeps(runs, q.now, id);
    if MayWrite(p, runs, q) {
      var a := PutWrites(p, runs, q);
      PublishIntoKeeps(pruned, q, a, id);
      KeptTwice(runs[id], pruned[id], after[id]);
    } else {
      PutRefused(p, runs, q);
    }
  }

  lemma CreateKeeps(p: Policy, runs: Runs, requested: Option<Id>, candidates: seq<Id>, ttl: real, now: real, id: Id)
    requires id in Live(runs, now)
    ensures var after := Create(p, runs, requested, candidates, ttl, now).runs;
            id in after && Kept(runs[id], after[id])
  {
    PrunedKeeps(runs, now, id);
  }

  lemma CleanUpKeeps(p: Policy, runs: Runs, now: real, unreadable: set<Id>, id: Id)
    requires id in Live(runs, now)
    ensures id in CleanedUp(p, runs, now, unreadable) && Kept(runs[id], CleanedUp(p, runs, now, unreadable)[id])
  {
  }

  /** A put that may not write changes nothing, or only prunes. */
  lemma PutRefused(p: Policy, runs: Runs, q: PutRequest)
    requires Intact(p, runs, q.now) && !MayWrite(p, runs, q)
    ensures Put(p, runs, q).failure.Some?
    ensures Put(p, runs, q).runs == runs || Put(p, runs, q).runs == Pruned(runs, q.now)
  {
    if q.run in runs && Active(runs[q.run].manifest, q.now) {
      CleanedNames(p, runs, q);
      DrawnExactly(q.candidates, runs[q.run].manifest.artifacts.Keys);
      RoomExactly(p, runs, q);
      LateRefusal(p, Pruned(runs, q.now), Live(runs, q.now), q);
    }
  }

  lemma LateRefusal(p: Policy, pruned: Runs, live: map<Id, Manifest>, q: PutRequest)
    requires q.run in pruned
    ensures !PutAllowed(p, pruned[q.run].manifest, live, q)
            || FirstFree(Drawn(q.candidates), pruned[q.run].files.Keys).None? ==>
              PutInto(p, pruned, live, q).failure.Some? && PutInto(p, pruned, live, q).runs == pruned
  {
  }

  /** No operation but a revocation of the run loses an artifact an active run has committed,
      whatever crashes. */
  lemma CommittedStays(p: Policy, runs: Runs, op: Op, id: Id)
    requires Intact(p, runs, Now(op)) && id in Live(runs, Now(op)) && !Revokes(op, id)
    ensures id in Next(p, runs, op).runs && Kept(runs[id], Next(p, runs, op).runs[id])
  {
    match op
    case CreateRun(requested, candidates, ttl, now) => CreateKeeps(p, runs, requested, candidates, ttl, now, id);
    case PutArtifact(q) => PutKeeps(p, runs, q, id);
    case RevokeRun(_, _, _, _) =>
    case CleanUp(unreadable, now) => CleanUpKeeps(p, runs, now, unreadable, id);
    case DiePruning(_, _) =>
  }

  /** What stands against a put, for each way it can fail. */
  ghost predicate Explains(p: Policy, runs: Runs, q: PutRequest, failure: Failure) {
    match failure
    case InvalidMediaType => !q.mediaTypeValid
    case InvalidTtl => q.ttl <= 0.0 || p.maxTtl < q.ttl
    case ClockFailed => q.now < 0.0
    case NoSuchRun => q.run !in runs
    case Denied =>
      q.run in runs && !(q.authorized && runs[q.run].manifest.active && q.now < runs[q.run].manifest.expires)
    case Quota => q.bytes > p.maxArtifactBytes || (q.run in runs && !RoomFor(p, runs, q))
    case Collision => q.run in runs && !SomeFree(q.candidates, runs[q.run].manifest.artifacts.Keys)
    case WriteFailed => q.fault.PublishFails? || q.fault.ReplaceFails?
    case Died => q.fault.DiesWriting? || q.fault.DiesLinked? || q.fault.DiesPublished?
    case _ => false
  }

  lemma RoomExactly(p: Policy, runs: Runs, q: PutRequest)
    requires Intact(p, runs, q.now) && q.run in runs
    ensures RoomFor(p, runs, q) <==> PutAllowed(p, runs[q.run].manifest, Live(runs, q.now), q)
  {
    assert IntactRun(p, runs[q.run], q.now);
  }

  lemma LateFailure(p: Policy, pruned: Runs, live: map<Id, Manifest>, q: PutRequest)
    requires q.run in pruned && PutInto(p, pruned, live, q).failure.Some?
    ensures match PutInto(p, pruned, live, q).failure.value
            case Quota => !PutAllowed(p, pruned[q.run].manifest, live, q)
            case Collision => FirstFree(Drawn(q.candidates), pruned[q.run].files.Keys).None?
            case WriteFailed => q.fault.PublishFails? || q.fault.ReplaceFails?
            case Died => q.fault.DiesWriting? || q.fault.DiesLinked? || q.fault.DiesPublished?
            case _ => false
  {
  }

  lemma CleanedNames(p: Policy, runs: Runs, q: PutRequest)
    requires Intact(p, runs, q.now) && q.run in runs && Active(runs[q.run].manifest, q.now)
    ensures q.run in Pruned(runs, q.now) && Pruned(runs, q.now)[q.run].manifest == runs[q.run].manifest
    ensures Pruned(runs, q.now)[q.run].files.Keys == runs[q.run].manifest.artifacts.Keys
  {
    assert IntactRun(p, runs[q.run], q.now);
  }

  /** The way a put on an intact store fails tells the truth. */
  lemma PutFailureIsTrue(p: Policy, runs: Runs, q: PutRequest)
    requires Intact(p, runs, q.now) && Put(p, runs, q).failure.Some?
    ensures Explains(p, runs, q, Put(p, runs, q).failure.value)
  {
    if q.run in runs && Active(runs[q.run].manifest, q.now) {
      CleanedNames(p, runs, q);
      DrawnExactly(q.candidates, runs[q.run].manifest.artifacts.Keys);
      RoomExactly(p, runs, q);
      if PutInto(p, Pruned(runs, q.now), Live(runs, q.now), q).failure.Some? {
        LateFailure(p, Pruned(runs, q.now), Live(runs, q.now), q);
      }
    }
  }
}
