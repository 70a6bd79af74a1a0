/** Paging through the owner's catalog: each page is the largest whose complete JSON fits
    the result limit, found by binary search over the serialized length. */
module Catalog {
  import opened Options

  const RESULT_LIMIT: nat := 20_000
  const MAX_PAGE_CHARS := 32_000

  // ---- serialization --------------------------------------------------------------------------

  function Digit(n: nat): char
    requires n < 16
  {
    if n < 10 then ('0' as int + n) as char else ('a' as int + n - 10) as char
  }

  function Decimal(n: nat): (s: string)
    ensures |s| >= 1
  {
    if n < 10 then [Digit(n)] else Decimal(n / 10) + [Digit(n % 10)]
  }

  /** How JSON writes one character when non-ASCII characters are kept. */
  function Escape(c: char): (s: string)
    ensures |s| >= 1
  {
    if c == '\"' then "\\\""
    else if c == '\\' then "\\\\"
    else if c == '\n' then "\\n"
    else if c == '\r' then "\\r"
    else if c == '\t' then "\\t"
    else if c as int == 8 then "\\b"
    else if c as int == 12 then "\\f"
    else if c as int < 32 then "\\u00" + [Digit(c as int / 16), Digit(c as int % 16)]
    else [c]
  }

  /** Each character of `s` written by `f`, one after the other. */
  function Each(f: char -> string, s: string): string {
    if s == "" then "" else Each(f, s[..|s| - 1]) + f(s[|s| - 1])
  }

  function Escaped(s: string): string {
    Each(Escape, s)
  }

  /** The text, and the metadata that precedes `next_offset` in a page at a given offset. */
  datatype Source = Source(text: string, metadata: nat -> string)

  /** A slice that is empty when its bounds cross, or lie beyond the text. */
  function Slice(text: string, from: nat, to: nat): string
    requires to <= |text|
  {
    if from <= to then text[from..to] else ""
  }

  function NextOffset(text: string, end: nat): Option<nat> {
    if end < |text| then Some(end) else None
  }

  function Serialize(src: Source, offset: nat, end: nat): string
    requires end <= |src.text|
  {
    src.metadata(offset) + ", \"next_offset\": "
    + (if end < |src.text| then Decimal(end) else "null")
    + ", \"content\": \"" + Escaped(Slice(src.text, offset, end)) + "\"}"
  }

  function SerializedSize(src: Source, offset: nat, end: nat): nat {
    if end <= |src.text| then |Serialize(src, offset, end)| else 0
  }

  lemma SizeIsLength(src: Source, offset: nat, end: nat)
    requires end <= |src.text|
    ensures SerializedSize(src, offset, end) == |Serialize(src, offset, end)|
  {
  }

  predicate Fits(src: Source, offset: nat, end: nat) {
    SerializedSize(src, offset, end) <= RESULT_LIMIT
  }

  // ---- serialized length grows with the page -----------------------------------------------------

  lemma {:induction false} DecimalGrows(a: nat, b: nat)
    requires a <= b
    ensures |Decimal(a)| <= |Decimal(b)|
    decreases b
  {
    if b >= 10 && a >= 10 {
      DecimalGrows(a / 10, b / 10);
    }
  }

  lemma {:induction false} EachGrows(f: char -> string, text: string, from: nat, to: nat, more: nat)
    requires from <= to <= more <= |text| && forall c :: |f(c)| >= 1
    ensures |Each(f, text[from..more])| >= |Each(f, text[from..to])| + (more - to)
    decreases more
  {
    if to < more {
      EachGrows(f, text, from, to, more - 1);
      var s := text[from..more];
      assert s[..|s| - 1] == text[from..more - 1];
    }
  }

  /** Over the range the search looks at -- ends short of the whole text -- the serialized
      length is strictly increasing. */
  lemma SerializedGrows(src: Source, offset: nat, a: nat, b: nat)
    requires offset <= a < b < |src.text|
    ensures SerializedSize(src, offset, a) < SerializedSize(src, offset, b)
  {
    DecimalGrows(a, b);
    EachGrows(Escape, src.text, offset, a, b);
  }

  // ---- what a reader of the JSON gets back -----------------------------------------------------------

  function HexValue(c: char): int {
    if c <= '9' then c as int - '0' as int else c as int - 'a' as int + 10
  }

  function Unescaped(c: char): Option<char> {
    match c
    case 'n' => Some('\n')
    case 'r' => Some('\r')
    case 't' => Some('\t')
    case 'b' => Some(8 as char)
    case 'f' => Some(12 as char)
    case '\"' => Some('\"')
    case '\\' => Some('\\')
    case _ => None
  }

  function Prepend(c: char, r: Option<(string, string)>): Option<(string, string)> {
    if r.None? then None else Some(([c] + r.value.0, r.value.1))
  }

  /** Reads a JSON string up to its closing quote: what it says, and what follows. */
  function ParseString(s: string): Option<(string, string)>
    decreases |s|
  {
    if s == "" || s[0] as int < 32 then None
    else if s[0] == '\"' then Some(("", s[1..]))
    else if s[0] != '\\' then Prepend(s[0], ParseString(s[1..]))
    else if |s| >= 2 && Unescaped(s[1]).Some? then Prepend(Unescaped(s[1]).value, ParseString(s[2..]))
    else if |s| >= 6 && s[1] == 'u' && s[2] == '0' && s[3] == '0'
            && 0 <= 16 * HexValue(s[4]) + HexValue(s[5]) < 32
    then Prepend((16 * HexValue(s[4]) + HexValue(s[5])) as char, ParseString(s[6..]))
    else None
  }

  lemma ParseControl(c: char, rest: string)
    requires c as int < 32 && |Escape(c)| == 6
    ensures ParseString(Escape(c) + rest) == Prepend(c, ParseString(rest))
  {
    var s := Escape(c) + rest;
    assert s[6..] == rest;
    assert s[0] == '\\' && s[1] == 'u' && s[2] == '0' && s[3] == '0';
    assert s[4] == Digit(c as int / 16) && s[5] == Digit(c as int % 16);
    assert Unescaped('u').None?;
  }

  lemma ParseEscape(c: char, rest: string)
    ensures ParseString(Escape(c) + rest) == Prepend(c, ParseString(rest))
  {
    var s := Escape(c) + rest;
    if |Escape(c)| == 1 {
      assert s[1..] == rest && s[0] == c;
    } else if |Escape(c)| == 2 {
      assert s[2..] == rest;
      assert s[0] == '\\' && s[1] == Escape(c)[1] && Unescaped(s[1]) == Some(c);
    } else {
      ParseControl(c, rest);
    }
  }

  lemma {:induction false} EachCons(f: char -> string, c: char, t: string)
    ensures Each(f, [c] + t) == f(c) + Each(f, t)
  {
    if t == "" {
      assert [c] + t == [c] && [c][..0] == "";
    } else {
      var n := |t| - 1;
      assert ([c] + t)[..|t|] == [c] + t[..n];
      EachCons(f, c, t[..n]);
    }
  }

  /** Escaping is undone by reading: every character comes back, and the string ends where it
      was closed. */
  lemma {:induction false} ParseEscaped(t: string, rest: string)
    ensures ParseString(Escaped(t) + ("\"" + rest)) == Some((t, rest))
  {
    var tail := "\"" + rest;
    if t == "" {
      assert Escaped(t) + tail == tail && tail[1..] == rest;
    } else {
      assert t == [t[0]] + t[1..];
      EachCons(Escape, t[0], t[1..]);
      ParseEscaped(t[1..], rest);
      assert Escaped(t) + tail == Escape(t[0]) + (Escaped(t[1..]) + tail);
      ParseEscape(t[0], Escaped(t[1..]) + tail);
    }
  }

  function DecimalValue(s: string): int {
    if s == "" then 0 else 10 * DecimalValue(s[..|s| - 1]) + (s[|s| - 1] as int - '0' as int)
  }

  lemma {:induction false} DecimalRoundTrip(n: nat)
    ensures DecimalValue(Decimal(n)) == n && forall i | 0 <= i < |Decimal(n)| :: '0' <= Decimal(n)[i] <= '9'
  {
    var s := Decimal(n);
    if n < 10 {
      assert s[..0] == "";
    } else {
      DecimalRoundTrip(n / 10);
      assert s[..|s| - 1] == Decimal(n / 10);
    }
  }

  /** The JSON says where to go on, and exactly the characters from `offset` to `end`. */
  predicate Says(src: Source, offset: nat, end: nat, next: string, content: string)
    requires end <= |src.text|
  {
    && (if end < |src.text| then DecimalValue(next) == end else next == "null")
    && ParseString(content) == Some((if offset <= end then src.text[offset..end] else "", "}"))
  }

  /** What a reader of a page gets: the metadata, the next offset and the characters. */
  lemma PageSays(src: Source, offset: nat, end: nat) returns (next: string, content: string)
    requires end <= |src.text|
    ensures Serialize(src, offset, end) ==
            src.metadata(offset) + ", \"next_offset\": " + next + ", \"content\": \"" + content
    ensures Says(src, offset, end, next, content)
  {
    next := if end < |src.text| then Decimal(end) else "null";
    var body := Escaped(Slice(src.text, offset, end));
    content := body + "\"}";
    DecimalRoundTrip(end);
    ParseEscaped(Slice(src.text, offset, end), "}");
    assert content == body + ("\"" + "}");
    Regroup(src.metadata(offset) + ", \"next_offset\": " + next + ", \"content\": \"", body, "\"}");
  }

  lemma Regroup(a: string, b: string, c: string)
    ensures a + b + c == a + (b + c)
  {
  }

  // ---- one page ------------------------------------------------------------------------------------

  datatype Page = Page(offset: nat, next: Option<nat>, content: string)

  datatype Reply = Content(page: Page, json: string) | BadRequest | Unavailable | CannotFit

  /** Where the page would end if there were no result limit. */
  function WantedEnd(src: Source, offset: nat, limit: nat): (end: nat)
    ensures end <= |src.text|
  {
    if offset + limit <= |src.text| then offset + limit else |src.text|
  }

  /** `end` is the largest end, within `limit` characters, of a page whose JSON fits. */
  predicate LargestFit(src: Source, offset: nat, limit: nat, end: nat) {
    && end <= |src.text| && SerializedSize(src, offset, end) <= 20_000
    && (if offset < |src.text| then offset < end <= offset + limit else end == |src.text|)
    && forall e | end < e <= |src.text| && e <= offset + limit :: SerializedSize(src, offset, e) > 20_000
  }

  /** No page that makes progress fits. */
  predicate NothingFits(src: Source, offset: nat, limit: nat) {
    if offset < |src.text|
    then forall e | offset < e <= |src.text| && e <= offset + limit :: SerializedSize(src, offset, e) > 20_000
    else SerializedSize(src, offset, |src.text|) > 20_000
  }

  function PageReply(src: Source, offset: nat, end: nat): Reply
    requires end <= |src.text|
  {
    Content(Page(offset, NextOffset(src.text, end), Slice(src.text, offset, end)), Serialize(src, offset, end))
  }

  /** The binary search, over any size that grows with the end of the page: the largest
      fitting end in a range, or the range's lower bound. */
  method Search(size: nat -> nat, from: nat, to: int) returns (low: nat)
    requires forall a: nat, b: nat | from <= a < b <= to :: size(a) < size(b)
    ensures low == from || (from < low <= to && size(low) <= RESULT_LIMIT)
    ensures forall e | low < e <= to :: size(e) > RESULT_LIMIT
  {
    var high := to;
    low := from;
    while low < high
      invariant from <= low && (from < to ==> low <= high <= to) && (from >= to ==> low == from && high == to)
      invariant low == from || size(low) <= RESULT_LIMIT
      invariant forall e | high < e <= to :: size(e) > RESULT_LIMIT
      decreases high - low
    {
      var middle := (low + high + 1) / 2;
      if size(middle) <= RESULT_LIMIT {
        low := middle;
      } else {
        high := middle - 1;
      }
    }
  }

  predicate Rejected(offset: int, limit: int) {
    offset < 0 || limit < 1 || limit > MAX_PAGE_CHARS
  }

  /** Where the page ends: at the wanted end if that fits, else where the search says. */
  method FitPage(src: Source, offset: nat, limit: nat) returns (found: bool, end: nat)
    requires limit >= 1
    ensures found <==> !NothingFits(src, offset, limit)
    ensures found ==> LargestFit(src, offset, limit, end)
    ensures end <= |src.text|
  {
    var wanted := WantedEnd(src, offset, limit);
    if Fits(src, offset, wanted) { return true, wanted; }
    if offset >= |src.text| { return false, wanted; }
    end := LargestBelow(src, offset, wanted);
    found := offset < end;
    forall e | end < e <= wanted
      ensures SerializedSize(src, offset, e) > 20_000
    {
      assert !Fits(src, offset, e);
    }
    if found {
      assert Fits(src, offset, end);
    }
  }

  /** The search below a wanted end that does not fit. */
  method LargestBelow(src: Source, offset: nat, wanted: nat) returns (end: nat)
    requires offset < wanted <= |src.text| && !Fits(src, offset, wanted)
    ensures offset <= end < wanted && (offset < end ==> Fits(src, offset, end))
    ensures forall e | end < e <= wanted :: !Fits(src, offset, e)
  {
    var size := (e: nat) => SerializedSize(src, offset, e);
    var high: int := wanted as int - 1;
    forall a: nat, b: nat | offset <= a < b <= high
      ensures size(a) < size(b)
    {
      SerializedGrows(src, offset, a, b);
    }
    end := Search(size, offset, high);
    forall e | end < e <= wanted
      ensures !Fits(src, offset, e)
    {
      assert e == wanted || size(e) > RESULT_LIMIT;
    }
  }

  /** A page is returned exactly when one fits, and then it is the largest that does. */
  method ReadPage(source: Option<Source>, offset: int, limit: int) returns (reply: Reply, end: nat)
    ensures reply.BadRequest? <==> offset < 0 || !(1 <= limit <= 32_000)
    ensures reply.Unavailable? <==> 0 <= offset && 1 <= limit <= 32_000 && source.None?
    ensures reply.CannotFit? <==>
            0 <= offset && 1 <= limit <= 32_000 && source.Some? && NothingFits(source.value, offset, limit)
    ensures reply.Content? ==>
              && LargestFit(source.value, offset, limit, end) && reply == PageReply(source.value, offset, end)
              && |reply.json| <= 20_000
  {
    if Rejected(offset, limit) { return BadRequest, 0; }
    if source.None? { return Unavailable, 0; }
    var found;
    found, end := FitPage(source.value, offset, limit);
    reply := if found then PageReply(source.value, offset, end) else CannotFit;
  }

  // ---- the whole catalog -----------------------------------------------------------------------------

  /** Following `next_offset` from zero terminates; the pages concatenate to the text, or
      the walk stops at an offset where no page that makes progress fits. */
  method ReadAll(src: Source, limit: int) returns (content: string, stopped: Option<nat>)
    requires 1 <= limit <= 32_000
    ensures stopped.None? ==> content == src.text
    ensures stopped.Some? ==> stopped.value <= |src.text| && content == src.text[..stopped.value]
                              && NothingFits(src, stopped.value, limit)
  {
    content := "";
    var offset := 0;
    while true
      invariant offset <= |src.text| && content == src.text[..offset]
      decreases |src.text| - offset
    {
      var reply, end := ReadPage(Some(src), offset, limit);
      if reply.CannotFit? { return content, Some(offset); }
      content := content + reply.page.content;
      assert content == src.text[..end];
      if reply.page.next.None? { return content, None; }
      offset := reply.page.next.value;
    }
  }
}
