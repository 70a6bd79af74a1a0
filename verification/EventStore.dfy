/** The private event store: a one-pass retention scan, appends that may be torn,
    compaction that may fail, and the whole-history specification they refine. */
module EventStore {
  import opened Options
  import opened EventLines

  datatype Policy = Policy(maxRecords: nat, maxBytes: nat, maxAge: int)

  function Size(codec: Codec, r: Stored): nat {
    |Line(codec, r)|
  }

  function Bytes(codec: Codec, rs: seq<Stored>): nat {
    if rs == [] then 0 else Bytes(codec, rs[..|rs| - 1]) + Size(codec, rs[|rs| - 1])
  }

  predicate Fits(p: Policy, codec: Codec, rs: seq<Stored>) {
    |rs| <= p.maxRecords && Bytes(codec, rs) <= p.maxBytes
  }

  /** The longest suffix within the record and byte bounds. */
  function Longest(p: Policy, codec: Codec, rs: seq<Stored>): seq<Stored> {
    if rs == [] || Fits(p, codec, rs) then rs else Longest(p, codec, rs[1..])
  }

  predicate Expired(p: Policy, r: Stored, now: int) {
    r.storedAt < now - p.maxAge
  }

  function Unexpired(p: Policy, rs: seq<Stored>, now: int): seq<Stored> {
    if rs == [] then []
    else
      var rest := Unexpired(p, rs[..|rs| - 1], now);
      if Expired(p, rs[|rs| - 1], now) then rest else rest + [rs[|rs| - 1]]
  }

  function Keep(p: Policy, codec: Codec, rs: seq<Stored>, now: int): seq<Stored> {
    Longest(p, codec, Unexpired(p, rs, now))
  }

  function Malformed(codec: Codec, lines: seq<seq<Byte>>): nat {
    if lines == [] then 0
    else Malformed(codec, lines[..|lines| - 1]) +
         if !Blank(lines[|lines| - 1]) && codec.decode(lines[|lines| - 1]).None? then 1 else 0
  }

  predicate NeedsCompaction(p: Policy, codec: Codec, f: seq<Byte>, now: int) {
    var kept := Keep(p, codec, Parse(codec, f), now);
    Malformed(codec, Lines(f)) > 0 || |kept| < |Parse(codec, f)| || |f| != Bytes(codec, kept)
  }

  function Compacted(p: Policy, codec: Codec, f: seq<Byte>, now: int): seq<Byte> {
    if NeedsCompaction(p, codec, f, now) then Rewrite(codec, Keep(p, codec, Parse(codec, f), now)) else f
  }

  // ---- the sliding window ---------------------------------------------------------------

  lemma {:induction false} BytesConcat(codec: Codec, a: seq<Stored>, b: seq<Stored>)
    ensures Bytes(codec, a + b) == Bytes(codec, a) + Bytes(codec, b)
    decreases |b|
  {
    if b == [] {
      assert a + b == a;
    } else {
      assert (a + b)[..|a| + |b| - 1] == a + b[..|b| - 1];
      BytesConcat(codec, a, b[..|b| - 1]);
    }
  }

  lemma DropFront(codec: Codec, rs: seq<Stored>)
    requires rs != []
    ensures Bytes(codec, rs) == Size(codec, rs[0]) + Bytes(codec, rs[1..])
  {
    var front := rs[..1];
    assert rs == front + rs[1..] && front[..0] == [];
    BytesConcat(codec, front, rs[1..]);
  }

  /** Whatever contains a window that does not fit does not fit. */
  lemma FitsMonotone(p: Policy, codec: Codec, a: seq<Stored>, b: seq<Stored>, c: seq<Stored>)
    requires Fits(p, codec, a + b + c)
    ensures Fits(p, codec, b)
  {
    BytesConcat(codec, a + b, c);
    BytesConcat(codec, a, b);
  }

  /** One record more: the longest fitting suffix is found inside the old window. */
  lemma {:induction false} WindowSlides(p: Policy, codec: Codec, rs: seq<Stored>, r: Stored)
    ensures Longest(p, codec, rs + [r]) == Longest(p, codec, Longest(p, codec, rs) + [r])
    decreases |rs|
  {
    if rs != [] && !Fits(p, codec, rs) {
      assert (rs + [r])[..|rs|] == rs;
      assert (rs + [r])[1..] == rs[1..] + [r];
      WindowSlides(p, codec, rs[1..], r);
    }
  }

  lemma {:induction false} LongestIsSuffix(p: Policy, codec: Codec, rs: seq<Stored>) returns (k: nat)
    ensures k <= |rs| && Longest(p, codec, rs) == rs[k..] && Fits(p, codec, rs[k..])
    ensures forall j | 0 <= j < k :: !Fits(p, codec, rs[j..])
    decreases |rs|
  {
    if rs == [] || Fits(p, codec, rs) {
      k := 0;
      assert rs[0..] == rs;
    } else {
      k := LongestIsSuffix(p, codec, rs[1..]);
      k := k + 1;
      assert rs[1..][k - 1..] == rs[k..];
      forall j | 0 <= j < k
        ensures !Fits(p, codec, rs[j..])
      {
        if j == 0 {
          assert rs[0..] == rs;
        } else {
          assert rs[1..][j - 1..] == rs[j..];
        }
      }
    }
  }

  // ---- compaction is idempotent -------------------------------------------------------------

  lemma {:induction false} LongestTwice(p: Policy, codec: Codec, rs: seq<Stored>)
    ensures Longest(p, codec, Longest(p, codec, rs)) == Longest(p, codec, rs)
    decreases |rs|
  {
    if rs != [] && !Fits(p, codec, rs) {
      LongestTwice(p, codec, rs[1..]);
    }
  }

  lemma {:induction false} UnexpiredIdentity(p: Policy, rs: seq<Stored>, now: int)
    requires forall i | 0 <= i < |rs| :: !Expired(p, rs[i], now)
    ensures Unexpired(p, rs, now) == rs
  {
    if rs != [] {
      UnexpiredIdentity(p, rs[..|rs| - 1], now);
      assert rs == rs[..|rs| - 1] + [rs[|rs| - 1]];
    }
  }

  lemma {:induction false} UnexpiredHolds(p: Policy, rs: seq<Stored>, now: int)
    ensures forall i | 0 <= i < |Unexpired(p, rs, now)| :: !Expired(p, Unexpired(p, rs, now)[i], now)
  {
    if rs != [] {
      UnexpiredHolds(p, rs[..|rs| - 1], now);
    }
  }

  lemma KeepTwice(p: Policy, codec: Codec, rs: seq<Stored>, now: int)
    ensures Keep(p, codec, Keep(p, codec, rs, now), now) == Keep(p, codec, rs, now)
  {
    var live := Unexpired(p, rs, now);
    UnexpiredHolds(p, rs, now);
    var k := LongestIsSuffix(p, codec, live);
    assert forall i | k <= i < |live| :: live[k..][i - k] == live[i];
    UnexpiredIdentity(p, live[k..], now);
    LongestTwice(p, codec, live);
  }

  lemma {:induction false} RewriteSize(codec: Codec, rs: seq<Stored>)
    ensures |Rewrite(codec, rs)| == Bytes(codec, rs)
  {
    if rs != [] {
      RewriteSize(codec, rs[..|rs| - 1]);
    }
  }

  lemma LongestFits(p: Policy, codec: Codec, rs: seq<Stored>)
    ensures Fits(p, codec, Longest(p, codec, rs))
  {
    var k := LongestIsSuffix(p, codec, rs);
  }

  lemma {:induction false} RewriteHasNoMalformedLine(codec: Codec, rs: seq<Stored>)
    requires Lawful(codec)
    ensures Malformed(codec, Lines(Rewrite(codec, rs))) == 0
  {
    if rs != [] {
      var n := |rs| - 1;
      var body := codec.encode(rs[n]);
      RewriteHasNoMalformedLine(codec, rs[..n]);
      RewriteRoundTrip(codec, rs[..n]);
      LinesConcat(Rewrite(codec, rs[..n]), Line(codec, rs[n]));
      LinesOfBody(body);
      var lines := Lines(Rewrite(codec, rs[..n]));
      assert (lines + [body])[..|lines|] == lines;
    }
  }

  /** A rewritten file needs no compaction. */
  lemma RewrittenIsClean(p: Policy, codec: Codec, rs: seq<Stored>, now: int)
    requires Lawful(codec)
    ensures !NeedsCompaction(p, codec, Rewrite(codec, Keep(p, codec, rs, now)), now)
  {
    var kept := Keep(p, codec, rs, now);
    KeepTwice(p, codec, rs, now);
    RewriteRoundTrip(codec, kept);
    RewriteSize(codec, kept);
    RewriteHasNoMalformedLine(codec, kept);
  }

  /** Compaction enforces retention: what is left is what the scan keeps, written out, within
      both bounds and without a malformed line; and a file that is so already is not touched. */
  lemma CompactionEnforcesRetention(p: Policy, codec: Codec, f: seq<Byte>, now: int)
    requires Lawful(codec)
    ensures var kept, after := Keep(p, codec, Parse(codec, f), now), Compacted(p, codec, f, now);
            && Parse(codec, after) == kept && |after| == Bytes(codec, kept)
            && |kept| <= p.maxRecords && |after| <= p.maxBytes && Malformed(codec, Lines(after)) == 0
            && (f == Rewrite(codec, kept) ==> after == f)
  {
    var kept := Keep(p, codec, Parse(codec, f), now);
    LongestFits(p, codec, Unexpired(p, Parse(codec, f), now));
    if NeedsCompaction(p, codec, f, now) {
      RewriteRoundTrip(codec, kept);
      RewriteSize(codec, kept);
      RewriteHasNoMalformedLine(codec, kept);
    } else {
      KeptAll(p, codec, Parse(codec, f), now);
    }
  }

  lemma {:induction false} UnexpiredShrinks(p: Policy, rs: seq<Stored>, now: int)
    ensures |Unexpired(p, rs, now)| <= |rs| && (|Unexpired(p, rs, now)| == |rs| ==> Unexpired(p, rs, now) == rs)
  {
    if rs != [] {
      UnexpiredShrinks(p, rs[..|rs| - 1], now);
      assert rs == rs[..|rs| - 1] + [rs[|rs| - 1]];
    }
  }

  lemma KeptAll(p: Policy, codec: Codec, rs: seq<Stored>, now: int)
    requires |Keep(p, codec, rs, now)| >= |rs|
    ensures Keep(p, codec, rs, now) == rs
  {
    UnexpiredShrinks(p, rs, now);
    var k := LongestIsSuffix(p, codec, Unexpired(p, rs, now));
  }

  /** A record just appended whole is the last one a read returns, whether or not the file
      could be rewritten. */
  lemma AppendedIsRead(p: Policy, codec: Codec, f: seq<Byte>, r: Stored, replaceFails: bool)
    requires Lawful(codec) && |codec.encode(r)| + 1 <= p.maxBytes && p.maxRecords >= 1 && p.maxAge >= 0
    ensures var after := AppendedFile(p, codec, f, r, None, replaceFails);
            var kept := Keep(p, codec, Parse(codec, after), r.storedAt);
            kept != [] && kept[|kept| - 1] == r
  {
    var whole := f + Payload(codec, f, r);
    AppendedIsLast(codec, f, r);
    LastIsKept(p, codec, Parse(codec, f), r);
    CompactionKeepsReads(p, codec, whole, r.storedAt);
  }

  /** A read at the same time returns the same before and after compaction. */
  lemma CompactionKeepsReads(p: Policy, codec: Codec, f: seq<Byte>, now: int)
    requires Lawful(codec)
    ensures Keep(p, codec, Parse(codec, Compacted(p, codec, f, now)), now) == Keep(p, codec, Parse(codec, f), now)
  {
    CompactionEnforcesRetention(p, codec, f, now);
    KeepTwice(p, codec, Parse(codec, f), now);
  }

  lemma AppendedIsLast(codec: Codec, f: seq<Byte>, r: Stored)
    requires Lawful(codec)
    ensures Parse(codec, f + Payload(codec, f, r)) == Parse(codec, f) + [r]
  {
    assert f + Payload(codec, f, r) == f + Separator(f) + Line(codec, r);
    ParseAfterSeparator(codec, f, Line(codec, r));
    ParseBody(codec, r);
  }

  lemma LastIsKept(p: Policy, codec: Codec, rs: seq<Stored>, r: Stored)
    requires Size(codec, r) <= p.maxBytes && p.maxRecords >= 1 && p.maxAge >= 0
    ensures var kept := Keep(p, codec, rs + [r], r.storedAt);
            kept != [] && kept[|kept| - 1] == r
  {
    assert (rs + [r])[..|rs|] == rs;
    var live := Unexpired(p, rs, r.storedAt) + [r];
    var k := LongestIsSuffix(p, codec, live);
    var last := live[|live| - 1..];
    assert last == [r] && last[..0] == [];
    assert Fits(p, codec, last);
  }

  /** Lines of whitespace, such as the separators before appends to a torn file leave, are
      neither records nor malformed. */
  lemma BlankLineIsIgnored(codec: Codec, f: seq<Byte>, blank: seq<Byte>)
    requires Terminated(f)
    requires forall i | 0 <= i < |blank| :: blank[i] in {9, 11, 12, 13, 32}
    ensures Parse(codec, f + (blank + [LF])) == Parse(codec, f)
    ensures Malformed(codec, Lines(f + (blank + [LF]))) == Malformed(codec, Lines(f))
  {
    var line := blank + [LF];
    FirstLfUnique(line, |blank|);
    assert line[..|blank|] == blank && line[|blank| + 1..] == [];
    assert Lines(line) == [blank];
    LinesConcat(f, line);
    ParseConcat(codec, f, line);
    OneLine(codec, blank);
    var lines := Lines(f);
    assert (lines + [blank])[..|lines|] == lines;
  }

  /** Compacting twice at one time is compacting once. */
  lemma CompactionIsIdempotent(p: Policy, codec: Codec, f: seq<Byte>, now: int)
    requires Lawful(codec)
    ensures Compacted(p, codec, Compacted(p, codec, f, now), now) == Compacted(p, codec, f, now)
  {
    if NeedsCompaction(p, codec, f, now) {
      RewrittenIsClean(p, codec, Parse(codec, f), now);
    }
  }

  // ---- the store object -----------------------------------------------------------------

  datatype ScanResult = ScanResult(
    retained: seq<Stored>, fileBytes: nat, malformed: nat, expired: nat, dropped: nat, retainedBytes: nat)

  predicate CompactionNeeded(s: ScanResult) {
    s.malformed > 0 || s.expired + s.dropped > 0 || s.fileBytes != s.retainedBytes
  }

  /** The report of an append or a compaction. */
  datatype Maintenance = Maintenance(
    stored: bool, compacted: bool, failed: bool, retainedRecords: nat, retainedBytes: nat, fileBytes: nat,
    dropped: nat, malformed: nat, satisfied: bool)

  /** What a report says, when maintenance found `before` and left `after`: `satisfied`
      means that nothing remains to be done to the file. */
  ghost predicate Reports(p: Policy, codec: Codec, before: seq<Byte>, after: seq<Byte>, now: int,
                          replaceFails: bool, m: Maintenance)
  {
    var kept := Keep(p, codec, Parse(codec, before), now);
    && m.retainedRecords == |kept| && m.retainedBytes == Bytes(codec, kept)
    && m.dropped == |Parse(codec, before)| - |kept| && m.malformed == Malformed(codec, Lines(before))
    && m.fileBytes == |after|
    && (var needed := m.malformed > 0 || m.dropped > 0 || |before| != m.retainedBytes;
        (m.compacted <==> needed && !replaceFails) && (m.failed <==> needed && replaceFails))
    && (m.satisfied <==> !m.failed)
  }

  /** The report is right: `satisfied` exactly when the file that is left needs nothing. */
  lemma SatisfiedMeansClean(p: Policy, codec: Codec, before: seq<Byte>, after: seq<Byte>, now: int,
                            replaceFails: bool, m: Maintenance)
    requires Lawful(codec) && Reports(p, codec, before, after, now, replaceFails, m)
    requires after == if replaceFails then before else Compacted(p, codec, before, now)
    ensures m.satisfied <==> !NeedsCompaction(p, codec, after, now)
  {
    if m.compacted {
      RewrittenIsClean(p, codec, Parse(codec, before), now);
    }
  }

  class PrivateEventStore {
    const policy: Policy
    const codec: Codec
    var file: seq<Byte>

    constructor (policy: Policy, codec: Codec)
      ensures this.policy == policy && this.codec == codec && file == []
    {
      this.policy, this.codec, file := policy, codec, [];
    }

    /** Add one record at the back of the window and evict from the front until it fits. */
    method Push(window: seq<Stored>, windowBytes: nat, r: Stored)
      returns (retained: seq<Stored>, retainedBytes: nat, evicted: nat)
      requires windowBytes == Bytes(codec, window)
      ensures retained == Longest(policy, codec, window + [r])
      ensures retainedBytes == Bytes(codec, retained)
      ensures evicted + |retained| == |window| + 1
    {
      retained, retainedBytes, evicted := window + [r], windowBytes + Size(codec, r), 0;
      assert retained[..|window|] == window;
      while |retained| > policy.maxRecords || retainedBytes > policy.maxBytes
        invariant retainedBytes == Bytes(codec, retained)
        invariant Longest(policy, codec, retained) == Longest(policy, codec, window + [r])
        invariant evicted + |retained| == |window| + 1
        decreases |retained|
      {
        DropFront(codec, retained);
        retainedBytes := retainedBytes - Size(codec, retained[0]);
        retained := retained[1..];
        evicted := evicted + 1;
      }
    }

    /** One pass with a double-ended queue and a running byte count. */
    method Scan(now: int) returns (result: ScanResult)
      ensures result.retained == Keep(policy, codec, Parse(codec, file), now)
      ensures result.retainedBytes == Bytes(codec, result.retained) && result.fileBytes == |file|
      ensures result.malformed == Malformed(codec, Lines(file))
      ensures result.expired + result.dropped == |Parse(codec, file)| - |result.retained|
      ensures CompactionNeeded(result) <==> NeedsCompaction(policy, codec, file, now)
    {
      var lines := Lines(file);
      var retained: seq<Stored> := [];
      var retainedBytes: nat, malformed: nat, expired: nat, dropped: nat := 0, 0, 0, 0;
      for i := 0 to |lines|
        invariant retained == Keep(policy, codec, DecodeAll(codec, lines[..i]), now)
        invariant retainedBytes == Bytes(codec, retained)
        invariant malformed == Malformed(codec, lines[..i])
        invariant expired + dropped + |retained| == |DecodeAll(codec, lines[..i])|
      {
        assert lines[..i + 1][..i] == lines[..i];
        if Blank(lines[i]) { continue; }
        var stored := codec.decode(lines[i]);
        if stored.None? {
          malformed := malformed + 1;
          continue;
        }
        ghost var seen := DecodeAll(codec, lines[..i]);
        assert (seen + [stored.value])[..|seen|] == seen;
        if Expired(policy, stored.value, now) {
          expired := expired + 1;
          continue;
        }
        WindowSlides(policy, codec, Unexpired(policy, seen, now), stored.value);
        var evicted: nat;
        retained, retainedBytes, evicted := Push(retained, retainedBytes, stored.value);
        dropped := dropped + evicted;
      }
      assert lines[..|lines|] == lines;
      result := ScanResult(retained, |file|, malformed, expired, dropped, retainedBytes);
    }

    method AtomicReplace(rs: seq<Stored>)
      modifies `file
      ensures file == Rewrite(codec, rs)
    {
      file := [];
      for i := 0 to |rs|
        invariant file == Rewrite(codec, rs[..i])
      {
        assert rs[..i + 1][..i] == rs[..i];
        file := file + Line(codec, rs[i]);
      }
      assert rs[..|rs|] == rs;
    }

    /** Rewrite the file when the scan asks for it, unless rewriting fails. */
    method Maintain(now: int, stored: bool, replaceFails: bool) returns (report: Maintenance)
      modifies `file
      ensures file == if replaceFails then old(file) else Compacted(policy, codec, old(file), now)
      ensures Reports(policy, codec, old(file), file, now, replaceFails, report) && report.stored == stored
    {
      var scan := Scan(now);
      var needed := CompactionNeeded(scan);
      if needed && !replaceFails {
        AtomicReplace(scan.retained);
        RewriteSize(codec, scan.retained);
      }
      var compacted, failed := needed && !replaceFails, needed && replaceFails;
      var satisfied := !failed && |scan.retained| <= policy.maxRecords && scan.retainedBytes <= policy.maxBytes
                       && (compacted || !needed);
      LongestFits(policy, codec, Unexpired(policy, Parse(codec, old(file)), now));
      report := Maintenance(stored, compacted, failed, |scan.retained|, scan.retainedBytes,
                            if compacted then scan.retainedBytes else |file|,
                            scan.expired + scan.dropped, scan.malformed, satisfied);
    }

    /** Append, then enforce retention.  `written` is how many bytes reach the file before
        the process stops, if it does; `replaceFails` whether rewriting the file raises.
        There is no report when the event is too large or the process stops. */
    method Append(event: string, now: int, written: Option<nat>, replaceFails: bool)
      returns (report: Option<Maintenance>)
      modifies `file
      ensures file == AppendedFile(policy, codec, old(file), Stored(now, event), written, replaceFails)
      ensures report.Some? <==>
                && |codec.encode(Stored(now, event))| + 1 <= policy.maxBytes
                && !(written.Some? && written.value < |Payload(codec, old(file), Stored(now, event))|)
      ensures report.Some? ==>
                && report.value.stored
                && Reports(policy, codec, old(file) + Payload(codec, old(file), Stored(now, event)), file, now,
                           replaceFails, report.value)
    {
      var r := Stored(now, event);
      var encoded := Line(codec, r);
      if |encoded| > policy.maxBytes { return None; }
      var payload := Separator(file) + encoded;
      if written.Some? && written.value < |payload| {
        file := file + payload[..written.value];
        return None;
      }
      file := file + payload;
      var done := Maintain(now, true, replaceFails);
      return Some(done);
    }

    /** Rewriting may raise here, and then there is no report. */
    method Compact(now: int, replaceFails: bool) returns (report: Option<Maintenance>)
      modifies `file
      ensures file == if replaceFails then old(file) else Compacted(policy, codec, old(file), now)
      ensures report.None? <==> replaceFails && NeedsCompaction(policy, codec, old(file), now)
      ensures report.Some? ==>
                !report.value.stored && Reports(policy, codec, old(file), file, now, replaceFails, report.value)
    {
      var done := Maintain(now, false, replaceFails);
      return if done.failed then None else Some(done);
    }

    method ReadRecords(now: int, limit: Option<nat>) returns (records: seq<Stored>)
      ensures var all := Keep(policy, codec, Parse(codec, file), now);
              && (limit.None? ==> records == all)
              && (limit.Some? ==> records == all[if limit.value < |all| then |all| - limit.value else 0..])
    {
      if limit == Some(0) { return []; }
      var scan := Scan(now);
      records := scan.retained;
      if limit.Some? && limit.value < |records| {
        records := records[|records| - limit.value..];
      }
    }
  }

  // ---- operations as functions of the file -----------------------------------------------

  predicate Admitted(p: Policy, codec: Codec, r: Stored) {
    Size(codec, r) <= p.maxBytes
  }

  function Payload(codec: Codec, f: seq<Byte>, r: Stored): seq<Byte> {
    Separator(f) + Line(codec, r)
  }

  predicate Torn(codec: Codec, f: seq<Byte>, r: Stored, written: Option<nat>) {
    written.Some? && written.value < |Payload(codec, f, r)|
  }

  function AppendedFile(p: Policy, codec: Codec, f: seq<Byte>, r: Stored, written: Option<nat>,
                        replaceFails: bool): seq<Byte>
  {
    if !Admitted(p, codec, r) then f
    else if Torn(codec, f, r, written) then f + Payload(codec, f, r)[..written.value]
    else
      var f' := f + Payload(codec, f, r);
      if replaceFails then f' else Compacted(p, codec, f', r.storedAt)
  }
}
