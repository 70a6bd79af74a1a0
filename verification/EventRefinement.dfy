/** After any run of appends and compactions -- torn, failed or not -- the store reads as
    the longest admissible suffix of everything ever appended. */
module EventRefinement {
  import opened Options
  import opened EventLines
  import opened EventStore

  predicate Sorted(rs: seq<Stored>) {
    forall i, j | 0 <= i <= j < |rs| :: rs[i].storedAt <= rs[j].storedAt
  }

  /** Written out from `k` on, the records are young enough, few enough and small enough. */
  ghost predicate Admissible(p: Policy, codec: Codec, rs: seq<Stored>, k: nat, now: int)
    requires k <= |rs|
  {
    && (forall i | k <= i < |rs| :: now - p.maxAge <= rs[i].storedAt)
    && |rs| - k <= p.maxRecords && |Rewrite(codec, rs[k..])| <= p.maxBytes
  }

  /** `kept` is the longest admissible suffix of `rs`. */
  ghost predicate LongestAdmissible(p: Policy, codec: Codec, rs: seq<Stored>, now: int, kept: seq<Stored>) {
    exists k | 0 <= k <= |rs| ::
      kept == rs[k..] && Admissible(p, codec, rs, k, now)
      && forall j | 0 <= j < k :: !Admissible(p, codec, rs, j, now)
  }

  /** The same in the scan's own terms. */
  predicate Keepable(p: Policy, codec: Codec, rs: seq<Stored>, k: nat, now: int)
    requires k <= |rs|
  {
    (forall i | k <= i < |rs| :: !Expired(p, rs[i], now)) && Fits(p, codec, rs[k..])
  }

  ghost predicate LongestKeepable(p: Policy, codec: Codec, rs: seq<Stored>, now: int, kept: seq<Stored>) {
    exists k | 0 <= k <= |rs| ::
      kept == rs[k..] && Keepable(p, codec, rs, k, now)
      && forall j | 0 <= j < k :: !Keepable(p, codec, rs, j, now)
  }

  lemma KeepableIsAdmissible(p: Policy, codec: Codec, rs: seq<Stored>, k: nat, now: int)
    requires k <= |rs|
    ensures Keepable(p, codec, rs, k, now) <==> Admissible(p, codec, rs, k, now)
  {
    RewriteSize(codec, rs[k..]);
    forall i | k <= i < |rs|
      ensures Expired(p, rs[i], now) <==> rs[i].storedAt < now - p.maxAge
    {
    }
  }

  lemma LongestIsAdmissible(p: Policy, codec: Codec, rs: seq<Stored>, now: int, kept: seq<Stored>)
    requires LongestKeepable(p, codec, rs, now, kept)
    ensures LongestAdmissible(p, codec, rs, now, kept)
  {
    forall k | 0 <= k <= |rs|
      ensures Keepable(p, codec, rs, k, now) <==> Admissible(p, codec, rs, k, now)
    {
      KeepableIsAdmissible(p, codec, rs, k, now);
    }
  }

  // ---- the scan computes it ---------------------------------------------------------------

  lemma {:induction false} UnexpiredIsSuffix(p: Policy, rs: seq<Stored>, now: int) returns (a: nat)
    requires Sorted(rs)
    ensures a <= |rs| && Unexpired(p, rs, now) == rs[a..]
    ensures forall i | 0 <= i < a :: Expired(p, rs[i], now)
    ensures forall i | a <= i < |rs| :: !Expired(p, rs[i], now)
  {
    if rs == [] {
      a := 0;
    } else {
      var n := |rs| - 1;
      assert Sorted(rs[..n]);
      a := UnexpiredIsSuffix(p, rs[..n], now);
      if Expired(p, rs[n], now) {
        assert forall i | 0 <= i < n :: rs[i].storedAt <= rs[n].storedAt;
        assert rs[..n][a..] == [];
        a := |rs|;
      } else {
        assert rs[a..] == rs[..n][a..] + [rs[n]];
      }
    }
  }

  lemma ScanKeepsLongest(p: Policy, codec: Codec, rs: seq<Stored>, now: int)
    requires Sorted(rs)
    ensures LongestKeepable(p, codec, rs, now, Keep(p, codec, rs, now))
  {
    var a := UnexpiredIsSuffix(p, rs, now);
    var b := LongestIsSuffix(p, codec, rs[a..]);
    var k := a + b;
    assert rs[a..][b..] == rs[k..];
    forall j | 0 <= j < k
      ensures !Keepable(p, codec, rs, j, now)
    {
      if a <= j {
        assert rs[a..][j - a..] == rs[j..];
      } else {
        assert Expired(p, rs[j], now);
      }
    }
    assert Keepable(p, codec, rs, k, now);
  }

  /** On records in time order, what a scan keeps is their longest admissible suffix. */
  lemma KeepIsLongest(p: Policy, codec: Codec, rs: seq<Stored>, now: int)
    requires Sorted(rs)
    ensures LongestAdmissible(p, codec, rs, now, Keep(p, codec, rs, now))
  {
    ScanKeepsLongest(p, codec, rs, now);
    LongestIsAdmissible(p, codec, rs, now, Keep(p, codec, rs, now));
  }

  /** Dropping records that no admissible suffix reaches does not change the answer. */
  lemma LongestOfSuffix(p: Policy, codec: Codec, rs: seq<Stored>, m: nat, now: int, kept: seq<Stored>)
    requires m <= |rs| && LongestKeepable(p, codec, rs[m..], now, kept)
    requires forall j | 0 <= j < m :: !Keepable(p, codec, rs, j, now)
    ensures LongestKeepable(p, codec, rs, now, kept)
  {
    var tail := rs[m..];
    var k :| 0 <= k <= |tail| && kept == tail[k..] && Keepable(p, codec, tail, k, now)
             && forall j | 0 <= j < k :: !Keepable(p, codec, tail, j, now);
    forall j | 0 <= j <= |tail|
      ensures tail[j..] == rs[m + j..]
      ensures Keepable(p, codec, tail, j, now) <==> Keepable(p, codec, rs, m + j, now)
    {
      assert tail[j..] == rs[m + j..];
      assert forall i | 0 <= i < |tail| :: tail[i] == rs[m + i];
      assert forall i | m <= i < |rs| :: rs[i] == tail[i - m];
    }
    forall j | 0 <= j < m + k
      ensures !Keepable(p, codec, rs, j, now)
    {
      if m <= j {
        assert !Keepable(p, codec, tail, j - m, now);
      }
    }
    assert Keepable(p, codec, rs, m + k, now);
  }

  // ---- runs -------------------------------------------------------------------------------

  datatype Op =
    | Append(event: string, now: int, written: Option<nat>, replaceFails: bool)
    | Compact(now: int, replaceFails: bool)

  /** The file and, for the specification, every record ever appended. */
  datatype State = State(file: seq<Byte>, history: seq<Stored>, last: int)

  /** An append is in the history when its whole body reached the file. */
  predicate BodyWritten(p: Policy, codec: Codec, f: seq<Byte>, r: Stored, written: Option<nat>) {
    |codec.encode(r)| + 1 <= p.maxBytes && (written.Some? ==> |Separator(f)| + |codec.encode(r)| <= written.value)
  }

  function Next(p: Policy, codec: Codec, s: State, op: Op): State {
    match op
    case Append(event, now, written, replaceFails) =>
      var r := Stored(now, event);
      State(AppendedFile(p, codec, s.file, r, written, replaceFails),
            if BodyWritten(p, codec, s.file, r, written) then s.history + [r] else s.history,
            now)
    case Compact(now, replaceFails) =>
      State(if replaceFails then s.file else Compacted(p, codec, s.file, now), s.history, now)
  }

  function Run(p: Policy, codec: Codec, ops: seq<Op>): State {
    if ops == [] then State([], [], 0) else Next(p, codec, Run(p, codec, ops[..|ops| - 1]), ops[|ops| - 1])
  }

  /** Clock readings never decrease. */
  predicate Monotone(ops: seq<Op>) {
    (forall i | 0 <= i < |ops| :: 0 <= ops[i].now) &&
    (forall i, j | 0 <= i <= j < |ops| :: ops[i].now <= ops[j].now)
  }

  /** Clock readings bound every time in the history. */
  ghost predicate Timed(s: State) {
    Sorted(s.history) && forall i | 0 <= i < |s.history| :: s.history[i].storedAt <= s.last
  }

  /** No admissible suffix reaches back before `m`. */
  ghost predicate OutOfReach(p: Policy, codec: Codec, rs: seq<Stored>, m: nat, now: int)
    requires m <= |rs|
  {
    forall j | 0 <= j < m :: !Keepable(p, codec, rs, j, now)
  }

  /** The file holds the history from `m` on, and nothing before can ever again belong to
      an admissible suffix. */
  ghost predicate RefinesFrom(p: Policy, codec: Codec, s: State, m: nat) {
    m <= |s.history| && Parse(codec, s.file) == s.history[m..] && OutOfReach(p, codec, s.history, m, s.last)
  }

  ghost predicate Refines(p: Policy, codec: Codec, s: State) {
    Timed(s) && exists m: nat :: RefinesFrom(p, codec, s, m)
  }

  /** Inadmissibility is permanent: later times and further records only make it worse. */
  lemma StaysInadmissible(p: Policy, codec: Codec, rs: seq<Stored>, more: seq<Stored>, j: nat, now: int, later: int)
    requires j <= |rs| && now <= later && !Keepable(p, codec, rs, j, now)
    ensures !Keepable(p, codec, rs + more, j, later)
  {
    if !Fits(p, codec, rs[j..]) {
      assert (rs + more)[j..] == [] + rs[j..] + more;
      if Fits(p, codec, [] + rs[j..] + more) {
        FitsMonotone(p, codec, [], rs[j..], more);
      }
    } else {
      var i :| j <= i < |rs| && Expired(p, rs[i], now);
      assert Expired(p, (rs + more)[i], later);
    }
  }

  lemma StaysOutOfReach(p: Policy, codec: Codec, rs: seq<Stored>, more: seq<Stored>, m: nat, now: int, later: int)
    requires m <= |rs| && now <= later && OutOfReach(p, codec, rs, m, now)
    ensures OutOfReach(p, codec, rs + more, m, later)
  {
    forall j | 0 <= j < m
      ensures !Keepable(p, codec, rs + more, j, later)
    {
      StaysInadmissible(p, codec, rs, more, j, now, later);
    }
  }

  lemma Later(p: Policy, codec: Codec, s: State, now: int)
    requires Refines(p, codec, s) && s.last <= now
    ensures Refines(p, codec, s.(last := now))
  {
    var m: nat :| RefinesFrom(p, codec, s, m);
    assert s.history + [] == s.history;
    StaysOutOfReach(p, codec, s.history, [], m, s.last, now);
    assert RefinesFrom(p, codec, s.(last := now), m);
  }

  /** What a scan keeps of the file is the longest admissible suffix of the history. */
  lemma ScanRefines(p: Policy, codec: Codec, s: State)
    requires Refines(p, codec, s)
    ensures LongestKeepable(p, codec, s.history, s.last, Keep(p, codec, Parse(codec, s.file), s.last))
  {
    var m: nat :| RefinesFrom(p, codec, s, m);
    ScanKeepsLongest(p, codec, s.history[m..], s.last);
    LongestOfSuffix(p, codec, s.history, m, s.last, Keep(p, codec, s.history[m..], s.last));
  }

  lemma CompactRefines(p: Policy, codec: Codec, s: State)
    requires Lawful(codec) && Refines(p, codec, s)
    ensures Refines(p, codec, s.(file := Compacted(p, codec, s.file, s.last)))
  {
    if NeedsCompaction(p, codec, s.file, s.last) {
      var kept := Keep(p, codec, Parse(codec, s.file), s.last);
      ScanRefines(p, codec, s);
      RewriteRoundTrip(codec, kept);
      var k :| 0 <= k <= |s.history| && kept == s.history[k..]
               && Keepable(p, codec, s.history, k, s.last)
               && forall j | 0 <= j < k :: !Keepable(p, codec, s.history, j, s.last);
      assert RefinesFrom(p, codec, s.(file := Compacted(p, codec, s.file, s.last)), k);
    }
  }

  lemma TimedGrows(s: State, file: seq<Byte>, added: seq<Stored>, now: int)
    requires Timed(s) && s.last <= now && |added| <= 1
    requires forall i | 0 <= i < |added| :: added[i].storedAt == now
    ensures Timed(State(file, s.history + added, now))
  {
  }

  /** The history gains a record exactly when the file does. */
  lemma GrowRefines(p: Policy, codec: Codec, s: State, file: seq<Byte>, added: seq<Stored>, now: int)
    requires Refines(p, codec, s) && s.last <= now && |added| <= 1
    requires forall i | 0 <= i < |added| :: added[i].storedAt == now
    requires Parse(codec, file) == Parse(codec, s.file) + added
    ensures Refines(p, codec, State(file, s.history + added, now))
  {
    var m: nat :| RefinesFrom(p, codec, s, m);
    StaysOutOfReach(p, codec, s.history, added, m, s.last, now);
    assert (s.history + added)[m..] == s.history[m..] + added;
    TimedGrows(s, file, added, now);
    assert RefinesFrom(p, codec, State(file, s.history + added, now), m);
  }

  /** Writing any number of bytes of an append keeps the refinement. */
  lemma WriteRefines(p: Policy, codec: Codec, s: State, r: Stored, k: nat)
    requires Lawful(codec) && Refines(p, codec, s) && s.last <= r.storedAt
    requires k <= |Payload(codec, s.file, r)|
    ensures var whole := |Separator(s.file)| + |codec.encode(r)| <= k;
            Refines(p, codec, State(s.file + Payload(codec, s.file, r)[..k],
                                    if whole then s.history + [r] else s.history, r.storedAt))
  {
    TornAppend(codec, s.file, r, k);
    var file := s.file + Payload(codec, s.file, r)[..k];
    if |Separator(s.file)| + |codec.encode(r)| <= k {
      GrowRefines(p, codec, s, file, [r], r.storedAt);
    } else {
      assert s.history + [] == s.history;
      GrowRefines(p, codec, s, file, [], r.storedAt);
    }
  }

  lemma AppendRefines(p: Policy, codec: Codec, s: State, r: Stored, written: Option<nat>, replaceFails: bool)
    requires Lawful(codec) && Refines(p, codec, s) && s.last <= r.storedAt
    ensures Refines(p, codec, Next(p, codec, s, Append(r.event, r.storedAt, written, replaceFails)))
  {
    var payload := Payload(codec, s.file, r);
    if !Admitted(p, codec, r) {
      Later(p, codec, s, r.storedAt);
    } else if Torn(codec, s.file, r, written) {
      WriteRefines(p, codec, s, r, written.value);
    } else {
      WriteRefines(p, codec, s, r, |payload|);
      assert payload[..|payload|] == payload;
      CompactRefines(p, codec, State(s.file + payload, s.history + [r], r.storedAt));
    }
  }

  lemma {:induction false} RunRefines(p: Policy, codec: Codec, ops: seq<Op>)
    requires Lawful(codec) && Monotone(ops)
    ensures Refines(p, codec, Run(p, codec, ops))
    ensures Run(p, codec, ops).last == if ops == [] then 0 else ops[|ops| - 1].now
  {
    if ops == [] {
      var none: seq<Stored> := [];
      assert none[0..] == [];
      assert RefinesFrom(p, codec, State([], [], 0), 0);
    } else {
      var n := |ops| - 1;
      assert Monotone(ops[..n]);
      RunRefines(p, codec, ops[..n]);
      var s := Run(p, codec, ops[..n]);
      assert n > 0 ==> ops[n - 1].now <= ops[n].now;
      match ops[n]
      case Append(event, now, written, replaceFails) =>
        AppendRefines(p, codec, s, Stored(now, event), written, replaceFails);
      case Compact(now, replaceFails) =>
        Later(p, codec, s, now);
        CompactRefines(p, codec, s.(last := now));
    }
  }

  /** The refinement theorem: a read at any time after the run returns the longest suffix
      of the whole append history that is unexpired and within both bounds. */
  lemma ReadsLongestSuffix(p: Policy, codec: Codec, ops: seq<Op>, now: int)
    requires Lawful(codec) && Monotone(ops) && Run(p, codec, ops).last <= now
    ensures var s := Run(p, codec, ops);
            LongestAdmissible(p, codec, s.history, now, Keep(p, codec, Parse(codec, s.file), now))
  {
    var s := Run(p, codec, ops);
    RunRefines(p, codec, ops);
    Later(p, codec, s, now);
    ScanRefines(p, codec, s.(last := now));
    LongestIsAdmissible(p, codec, s.history, now, Keep(p, codec, Parse(codec, s.file), now));
  }
}
