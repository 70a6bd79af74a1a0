/** A codec that satisfies what the event store asks of one: times and characters as
    decimal tokens between braces. */
module EventCodec {
  import opened Options
  import opened EventLines

  const OPEN: Byte := 123
  const CLOSE: Byte := 125
  const COMMA: Byte := 44

  // ---- tokens -----------------------------------------------------------------------------

  predicate DecimalDigits(s: seq<Byte>) {
    forall i | 0 <= i < |s| :: 48 <= s[i] <= 57
  }

  /** Decimal digits, least significant first. */
  function Digits(n: nat): (s: seq<Byte>)
    ensures DecimalDigits(s)
  {
    [48 + n % 10] + if n < 10 then [] else Digits(n / 10)
  }

  function Value(s: seq<Byte>): int {
    if s == [] then 0 else s[0] - 48 + 10 * Value(s[1..])
  }

  lemma {:induction false} ValueOfDigits(n: nat)
    ensures Value(Digits(n)) == n
  {
    var s := Digits(n);
    if n >= 10 {
      assert s[1..] == Digits(n / 10);
      ValueOfDigits(n / 10);
    } else {
      assert s[1..] == [];
    }
  }

  /** Each number as its digits and a comma. */
  function Tokens(ns: seq<nat>): seq<Byte> {
    if ns == [] then [] else Digits(ns[0]) + [COMMA] + Tokens(ns[1..])
  }

  /** Two digit strings in front of a comma are equal when the whole strings are. */
  lemma FirstTokenUnique(a: seq<Byte>, restA: seq<Byte>, b: seq<Byte>, restB: seq<Byte>)
    requires DecimalDigits(a) && DecimalDigits(b) && a + [COMMA] + restA == b + [COMMA] + restB
    ensures a == b && restA == restB
  {
    var s, t := a + [COMMA] + restA, b + [COMMA] + restB;
    assert s[|a|] == COMMA && t[|b|] == COMMA;
    assert forall i | 0 <= i < |a| :: s[i] == a[i];
    assert forall i | 0 <= i < |b| :: t[i] == b[i];
    assert |a| == |b|;
    assert a == s[..|a|] && b == t[..|b|];
    assert restA == s[|a| + 1..] && restB == t[|b| + 1..];
  }

  lemma {:induction false} TokensInjective(a: seq<nat>, b: seq<nat>)
    requires Tokens(a) == Tokens(b)
    ensures a == b
    decreases |a|
  {
    if a != [] && b != [] {
      FirstTokenUnique(Digits(a[0]), Tokens(a[1..]), Digits(b[0]), Tokens(b[1..]));
      ValueOfDigits(a[0]);
      ValueOfDigits(b[0]);
      TokensInjective(a[1..], b[1..]);
      assert a == [a[0]] + a[1..] && b == [b[0]] + b[1..];
    }
  }

  predicate TokenBytes(s: seq<Byte>) {
    forall i | 0 <= i < |s| :: 48 <= s[i] <= 57 || s[i] == COMMA
  }

  lemma {:induction false} TokensAreTokenBytes(ns: seq<nat>)
    ensures TokenBytes(Tokens(ns))
  {
    if ns != [] {
      TokensAreTokenBytes(ns[1..]);
    }
  }

  // ---- records ----------------------------------------------------------------------------

  /** A time as a natural number, and the characters of the event. */
  function Numbers(r: Stored): (ns: seq<nat>)
    ensures |ns| == |r.event| + 1
  {
    [if r.storedAt >= 0 then 2 * r.storedAt else -2 * r.storedAt - 1] +
    seq(|r.event|, i requires 0 <= i < |r.event| => r.event[i] as int)
  }

  lemma NumbersInjective(a: Stored, b: Stored)
    requires Numbers(a) == Numbers(b)
    ensures a == b
  {
    assert Numbers(a)[0] == Numbers(b)[0];
    forall i | 0 <= i < |a.event|
      ensures a.event[i] == b.event[i]
    {
      assert Numbers(a)[i + 1] == Numbers(b)[i + 1];
    }
  }

  function Encode(r: Stored): seq<Byte> {
    [OPEN] + Tokens(Numbers(r)) + [CLOSE]
  }

  lemma EncodeShape(r: Stored)
    ensures |Encode(r)| >= 2 && Encode(r)[0] == OPEN && Encode(r)[|Encode(r)| - 1] == CLOSE
    ensures forall i | 0 <= i < |Encode(r)| - 1 :: Encode(r)[i] != CLOSE
    ensures forall i | 0 <= i < |Encode(r)| :: Encode(r)[i] != LF
  {
    TokensAreTokenBytes(Numbers(r));
  }

  lemma EncodeInjective(a: Stored, b: Stored)
    requires Encode(a) == Encode(b)
    ensures a == b
  {
    var s, t := Encode(a), Encode(b);
    assert Tokens(Numbers(a)) == s[1..|s| - 1] && Tokens(Numbers(b)) == t[1..|t| - 1];
    TokensInjective(Numbers(a), Numbers(b));
    NumbersInjective(a, b);
  }

  ghost function Decode(line: seq<Byte>): Option<Stored> {
    if r :| Encode(r) == line then Some(r) else None
  }

  ghost function TokenCodec(): Codec {
    Codec(Encode, line => Decode(line))
  }

  /** The store's assumptions about its codec can be met. */
  lemma TokenCodecIsLawful()
    ensures Lawful(TokenCodec())
  {
    forall r
      ensures |Encode(r)| > 0 && Encode(r)[0] == OPEN && Decode(Encode(r)) == Some(r)
    {
      EncodeShape(r);
      DecodeEncode(r);
    }
    forall r, i | 0 <= i < |Encode(r)|
      ensures Encode(r)[i] != LF
    {
      EncodeShape(r);
    }
    forall r, k | 0 <= k < |Encode(r)|
      ensures Decode(Encode(r)[..k]) == None
    {
      DecodeTorn(r, k);
    }
  }

  lemma DecodeEncode(r: Stored)
    ensures Decode(Encode(r)) == Some(r)
  {
    var found := Decode(Encode(r));
    assert found.Some? && Encode(found.value) == Encode(r);
    EncodeInjective(found.value, r);
  }

  /** No encoding is a proper prefix of another: only the last byte closes a brace. */
  lemma DecodeTorn(r: Stored, k: nat)
    requires k < |Encode(r)|
    ensures Decode(Encode(r)[..k]) == None
  {
    var torn := Encode(r)[..k];
    EncodeShape(r);
    if other :| Encode(other) == torn {
      EncodeShape(other);
    }
  }
}
