/** Line-delimited records as bytes: how a file splits into lines, what a torn write
    leaves behind, and which records can still be read. */
module EventLines {
  import opened Options

  type Byte = b: int | 0 <= b < 256
  const LF: Byte := 10

  /** An event with its admission time, in clock ticks. */
  datatype Stored = Stored(storedAt: int, event: string)

  /** The JSON codec, without the line terminator. */
  datatype Codec = Codec(encode: Stored -> seq<Byte>, decode: seq<Byte> -> Option<Stored>)

  predicate Whitespace(b: Byte) {
    b == 32 || 9 <= b <= 13
  }

  predicate Blank(line: seq<Byte>) {
    forall i | 0 <= i < |line| :: Whitespace(line[i])
  }

  /** What one JSON object per line guarantees: encoding is invertible, starts with a brace,
      escapes every line feed, and no proper prefix of an object is an object. */
  ghost predicate Lawful(codec: Codec) {
    && (forall r :: |codec.encode(r)| > 0 && codec.encode(r)[0] == 123)
    && (forall r, i | 0 <= i < |codec.encode(r)| :: codec.encode(r)[i] != LF)
    && (forall r :: codec.decode(codec.encode(r)) == Some(r))
    && (forall r, k | 0 <= k < |codec.encode(r)| :: codec.decode(codec.encode(r)[..k]) == None)
  }

  function Line(codec: Codec, r: Stored): seq<Byte> {
    codec.encode(r) + [LF]
  }

  // ---- splitting ----------------------------------------------------------------------

  function FirstLf(f: seq<Byte>): (k: nat)
    ensures k <= |f| && (k < |f| ==> f[k] == LF)
    ensures forall i | 0 <= i < k :: f[i] != LF
  {
    if f == [] || f[0] == LF then 0 else 1 + FirstLf(f[1..])
  }

  /** The lines of a file, without terminators; a last unterminated line counts. */
  function Lines(f: seq<Byte>): seq<seq<Byte>>
    decreases |f|
  {
    if f == [] then []
    else
      var k := FirstLf(f);
      if k == |f| then [f] else [f[..k]] + Lines(f[k + 1..])
  }

  predicate Terminated(f: seq<Byte>) {
    f == [] || f[|f| - 1] == LF
  }

  lemma FirstLfUnique(f: seq<Byte>, k: nat)
    requires k <= |f| && (k < |f| ==> f[k] == LF) && forall i | 0 <= i < k :: f[i] != LF
    ensures FirstLf(f) == k
  {
  }

  /** After a terminator, lines are independent of what precedes them. */
  lemma {:induction false} LinesConcat(f: seq<Byte>, x: seq<Byte>)
    requires Terminated(f)
    ensures Lines(f + x) == Lines(f) + Lines(x)
    decreases |f|
  {
    if f == [] {
      assert f + x == x;
    } else {
      var k := FirstLf(f);
      FirstLfUnique(f + x, k);
      assert (f + x)[..k] == f[..k];
      assert (f + x)[k + 1..] == f[k + 1..] + x;
      LinesConcat(f[k + 1..], x);
    }
  }

  /** Terminating an unterminated last line does not change what it says. */
  lemma {:induction false} LinesTerminate(f: seq<Byte>)
    requires !Terminated(f)
    ensures Lines(f + [LF]) == Lines(f)
    decreases |f|
  {
    var k := FirstLf(f);
    FirstLfUnique(f + [LF], k);
    assert (f + [LF])[..k] == f[..k];
    if k == |f| {
      assert (f + [LF])[k + 1..] == [] && f[..k] == f;
    } else {
      assert (f + [LF])[k + 1..] == f[k + 1..] + [LF];
      LinesTerminate(f[k + 1..]);
    }
  }

  lemma LinesOfBody(body: seq<Byte>)
    requires body != [] && forall i | 0 <= i < |body| :: body[i] != LF
    ensures Lines(body) == [body] && Lines(body + [LF]) == [body]
  {
    FirstLfUnique(body, |body|);
    LinesTerminate(body);
  }

  // ---- decoding -----------------------------------------------------------------------

  function DecodeAll(codec: Codec, lines: seq<seq<Byte>>): seq<Stored> {
    if lines == [] then []
    else
      var n := |lines| - 1;
      var rest := DecodeAll(codec, lines[..n]);
      var r := codec.decode(lines[n]);
      if r.Some? && !Blank(lines[n]) then rest + [r.value] else rest
  }

  lemma OneLine(codec: Codec, line: seq<Byte>)
    ensures DecodeAll(codec, [line]) ==
            if codec.decode(line).Some? && !Blank(line) then [codec.decode(line).value] else []
  {
    var lines := [line];
    assert lines[..0] == [];
  }

  function Parse(codec: Codec, f: seq<Byte>): seq<Stored> {
    DecodeAll(codec, Lines(f))
  }

  lemma {:induction false} DecodeConcat(codec: Codec, a: seq<seq<Byte>>, b: seq<seq<Byte>>)
    ensures DecodeAll(codec, a + b) == DecodeAll(codec, a) + DecodeAll(codec, b)
    decreases |b|
  {
    if b == [] {
      assert a + b == a;
    } else {
      var n := |b| - 1;
      assert (a + b)[..|a| + n] == a + b[..n];
      DecodeConcat(codec, a, b[..n]);
    }
  }

  lemma ParseConcat(codec: Codec, f: seq<Byte>, x: seq<Byte>)
    requires Terminated(f)
    ensures Parse(codec, f + x) == Parse(codec, f) + Parse(codec, x)
  {
    LinesConcat(f, x);
    DecodeConcat(codec, Lines(f), Lines(x));
  }

  /** A whole body is read back, with or without its terminator. */
  lemma ParseBody(codec: Codec, r: Stored)
    requires Lawful(codec)
    ensures Parse(codec, codec.encode(r)) == [r] && Parse(codec, Line(codec, r)) == [r]
  {
    var body := codec.encode(r);
    LinesOfBody(body);
    assert !Blank(body) by { assert !Whitespace(body[0]); }
    OneLine(codec, body);
  }

  /** A torn body says nothing. */
  lemma ParseTorn(codec: Codec, r: Stored, k: nat)
    requires Lawful(codec) && k < |codec.encode(r)|
    ensures Parse(codec, codec.encode(r)[..k]) == []
  {
    var p := codec.encode(r)[..k];
    if p != [] {
      LinesOfBody(p);
      OneLine(codec, p);
    }
  }

  /** The separator that precedes an append to an unterminated file. */
  function Separator(f: seq<Byte>): seq<Byte> {
    if Terminated(f) then [] else [LF]
  }

  lemma ParseAfterSeparator(codec: Codec, f: seq<Byte>, x: seq<Byte>)
    ensures Terminated(f + Separator(f))
    ensures Parse(codec, f + Separator(f) + x) == Parse(codec, f) + Parse(codec, x)
  {
    var g := f + Separator(f);
    if !Terminated(f) {
      LinesTerminate(f);
    } else {
      assert g == f;
    }
    ParseConcat(codec, g, x);
  }

  /** An append cut off after `k` bytes: everything readable stays readable, and the torn
      record appears only if its whole body was written. */
  lemma TornAppend(codec: Codec, f: seq<Byte>, r: Stored, k: nat)
    requires Lawful(codec) && k <= |Separator(f) + Line(codec, r)|
    ensures Parse(codec, f + (Separator(f) + Line(codec, r))[..k]) ==
            Parse(codec, f) + if k < |Separator(f)| + |codec.encode(r)| then [] else [r]
  {
    var s, body := Separator(f), codec.encode(r);
    var written := (s + Line(codec, r))[..k];
    if k < |s| {
      assert f + written == f;
    } else {
      var tail := Line(codec, r)[..k - |s|];
      assert written == s + tail && f + written == f + s + tail;
      ParseAfterSeparator(codec, f, tail);
      if k < |s| + |body| {
        assert tail == body[..k - |s|];
        ParseTorn(codec, r, k - |s|);
      } else if k == |s| + |body| {
        assert tail == body;
        ParseBody(codec, r);
      } else {
        assert tail == Line(codec, r);
        ParseBody(codec, r);
      }
    }
  }

  /** An append of `record` of which only the first `written` bytes reach the file. */
  datatype Attempt = Attempt(record: Stored, written: nat)

  function AfterAttempt(codec: Codec, f: seq<Byte>, t: Attempt): seq<Byte> {
    var payload := Separator(f) + Line(codec, t.record);
    f + if t.written < |payload| then payload[..t.written] else payload
  }

  function AfterAttempts(codec: Codec, f: seq<Byte>, ts: seq<Attempt>): seq<Byte> {
    if ts == [] then f else AfterAttempt(codec, AfterAttempts(codec, f, ts[..|ts| - 1]), ts[|ts| - 1])
  }

  /** The records whose whole body was written. */
  function Whole(codec: Codec, f: seq<Byte>, ts: seq<Attempt>): seq<Stored> {
    if ts == [] then []
    else
      var n := |ts| - 1;
      var before := AfterAttempts(codec, f, ts[..n]);
      Whole(codec, f, ts[..n]) +
      if ts[n].written < |Separator(before)| + |codec.encode(ts[n].record)| then [] else [ts[n].record]
  }

  /** Any number of appends, each torn anywhere or not at all: what was readable stays
      readable, and exactly the records with a whole body are added, in order. */
  lemma {:induction false} TornAppendsAreHarmless(codec: Codec, f: seq<Byte>, ts: seq<Attempt>)
    requires Lawful(codec)
    ensures Parse(codec, AfterAttempts(codec, f, ts)) == Parse(codec, f) + Whole(codec, f, ts)
  {
    if ts != [] {
      var n := |ts| - 1;
      TornAppendsAreHarmless(codec, f, ts[..n]);
      var before, t := AfterAttempts(codec, f, ts[..n]), ts[n];
      var payload := Separator(before) + Line(codec, t.record);
      var k := if t.written < |payload| then t.written else |payload|;
      assert payload[..|payload|] == payload;
      assert AfterAttempts(codec, f, ts) == before + payload[..k];
      TornAppend(codec, before, t.record, k);
    }
  }

  // ---- rewriting ----------------------------------------------------------------------

  function Rewrite(codec: Codec, rs: seq<Stored>): seq<Byte> {
    if rs == [] then [] else Rewrite(codec, rs[..|rs| - 1]) + Line(codec, rs[|rs| - 1])
  }

  /** Writing records out and reading them back is the identity. */
  lemma {:induction false} RewriteRoundTrip(codec: Codec, rs: seq<Stored>)
    requires Lawful(codec)
    ensures Terminated(Rewrite(codec, rs)) && Parse(codec, Rewrite(codec, rs)) == rs
  {
    if rs != [] {
      var n := |rs| - 1;
      RewriteRoundTrip(codec, rs[..n]);
      ParseConcat(codec, Rewrite(codec, rs[..n]), Line(codec, rs[n]));
      ParseBody(codec, rs[n]);
      assert rs == rs[..n] + [rs[n]];
    }
  }
}
