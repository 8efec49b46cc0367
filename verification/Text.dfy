/**
 Go strings and the number formats the tunnel prints into them.
 A Go string is modelled as a `string` with one `char` per byte, so `|s|` is its length in bytes.
 */
module Text {
  type byte = x: int | 0 <= x < 256

  const MIN_INT64 := -0x8000_0000_0000_0000
  const MAX_INT64 := 0x7FFF_FFFF_FFFF_FFFF

  predicate InInt64(n: int) { MIN_INT64 <= n <= MAX_INT64 }

  type int64 = n: int | InInt64(n)

  predicate HasPrefix(s: string, prefix: string) { prefix <= s }

  function TrimPrefix(s: string, prefix: string): string {
    if HasPrefix(s, prefix) then s[|prefix|..] else s
  }

  predicate ContainsAt(s: string, sub: string, i: int) {
    0 <= i && i + |sub| <= |s| && s[i..i + |sub|] == sub
  }

  /** strings.Contains. */
  ghost predicate Contains(s: string, sub: string) {
    exists i :: ContainsAt(s, sub, i)
  }

  /** A witness for Contains, in the form in which parsers produce it. */
  lemma ContainsSplit(s: string, before: string, sub: string, after: string)
    requires s == before + sub + after
    ensures Contains(s, sub)
  {
    assert ContainsAt(s, sub, |before|);
  }

  lemma SplitContained(s: string, sub: string) returns (before: string, after: string)
    requires Contains(s, sub)
    ensures s == before + sub + after
  {
    var i :| ContainsAt(s, sub, i);
    before, after := s[..i], s[i + |sub|..];
    assert s == s[..i] + s[i..i + |sub|] + s[i + |sub|..];
  }

  lemma Assoc(a: string, b: string, c: string)
    ensures (a + b) + c == a + (b + c)
  {
  }

  // ---- decimal: fmt's %d ----

  predicate IsDigit(c: char) { '0' <= c <= '9' }

  function DigitChar(d: int): (c: char)
    requires 0 <= d < 10
    ensures IsDigit(c) && DigitValue(c) == d
  {
    '0' + d as char
  }

  function DigitValue(c: char): (d: int)
    requires IsDigit(c)
    ensures 0 <= d < 10
  {
    (c - '0') as int
  }

  predicate AllDigits(s: string) { forall i :: 0 <= i < |s| ==> IsDigit(s[i]) }

  /** The length of the leading run of digits. */
  function DigitSpan(s: string): (n: nat)
    ensures n <= |s| && AllDigits(s[..n])
    ensures n < |s| ==> !IsDigit(s[n])
  {
    if s == "" || !IsDigit(s[0]) then 0 else 1 + DigitSpan(s[1..])
  }

  function NatDigits(n: nat): (s: string)
    ensures |s| > 0 && AllDigits(s)
  {
    if n < 10 then [DigitChar(n)] else NatDigits(n / 10) + [DigitChar(n % 10)]
  }

  function Decimal(n: int): (s: string)
    ensures |s| > 0
  {
    if n < 0 then "-" + NatDigits(-n) else NatDigits(n)
  }

  /** The number a digit string denotes, most significant digit first. */
  function DigitsValue(s: string): (n: nat)
    requires AllDigits(s)
  {
    if s == "" then 0 else DigitsValue(s[..|s| - 1]) * 10 + DigitValue(s[|s| - 1])
  }

  lemma {:induction false} DigitsRoundTrip(n: nat)
    ensures DigitsValue(NatDigits(n)) == n
  {
    if n < 10 {
      assert NatDigits(n)[..0] == "";
    } else {
      DigitsRoundTrip(n / 10);
      assert NatDigits(n)[..|NatDigits(n)| - 1] == NatDigits(n / 10);
    }
  }

  lemma DecimalInjective(m: int, n: int)
    requires Decimal(m) == Decimal(n)
    ensures m == n
  {
    DigitsRoundTrip(if m < 0 then -m else m);
    DigitsRoundTrip(if n < 0 then -n else n);
    assert m < 0 <==> Decimal(m)[0] == '-';
    assert n < 0 <==> Decimal(n)[0] == '-';
    assert m < 0 ==> NatDigits(-m) == Decimal(m)[1..];
    assert n < 0 ==> NatDigits(-n) == Decimal(n)[1..];
  }

  lemma {:induction false} DigitCountMonotone(m: nat, n: nat)
    requires m <= n
    ensures |NatDigits(m)| <= |NatDigits(n)|
    decreases n
  {
    if m >= 10 {
      DigitCountMonotone(m / 10, n / 10);
    }
  }

  /** Decimal prints only digits and a leading minus. */
  lemma DecimalCharacters(n: int)
    ensures forall c :: c in Decimal(n) ==> c == '-' || IsDigit(c)
  {
  }

  predicate IsAscii(s: string) { forall i :: 0 <= i < |s| ==> s[i] < 128 as char }

  /** Only zero is printed with a leading zero. */
  lemma {:induction false} NoLeadingZero(n: nat)
    ensures n > 0 ==> NatDigits(n)[0] != '0'
  {
    if n >= 10 {
      NoLeadingZero(n / 10);
    }
  }

  /** The octets of a Go string. */
  function Octets(s: string): (b: seq<byte>)
    ensures |b| == |s|
  {
    seq(|s|, i requires 0 <= i < |s| => s[i] as int % 256)
  }

  function OfOctets(b: seq<byte>): (s: string)
    ensures |s| == |b|
  {
    seq(|b|, i requires 0 <= i < |b| => b[i] as char)
  }

  predicate IsOctets(s: string) { forall i :: 0 <= i < |s| ==> s[i] < 256 as char }

  lemma OctetsRoundTrip(s: string)
    requires IsOctets(s)
    ensures OfOctets(Octets(s)) == s
  {
  }
}
