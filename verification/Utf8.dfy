/**
 UTF-8 in Go strings (section 4 of RFC 3629): which octets make a character, and the replacement
 that encoding/json puts in the place of those that do not.
 */
module Utf8 {
  import opened Text

  predicate InRange(c: char, low: int, high: int) { low <= c as int <= high }

  predicate IsTail(c: char) { InRange(c, 0x80, 0xBF) }

  /** How many octets the character at the start of `s` takes; 0 when there is none. */
  function RuneLength(s: string): (n: nat)
    ensures n <= |s| && n <= 4
    ensures n == 1 ==> s[0] < 128 as char
    ensures n > 1 ==> forall i :: 0 <= i < n ==> InRange(s[i], 0x80, 0xFF)
  {
    if s == "" then 0
    else if s[0] < 128 as char then 1
    else if InRange(s[0], 0xC2, 0xDF) && |s| >= 2 && IsTail(s[1]) then 2
    else if InRange(s[0], 0xE0, 0xEF) && |s| >= 3 && IsSecond(s[0], s[1]) && IsTail(s[2]) then 3
    else if InRange(s[0], 0xF0, 0xF4) && |s| >= 4 && IsSecond(s[0], s[1]) && IsTail(s[2]) && IsTail(s[3]) then 4
    else 0
  }

  /** Overlong forms, surrogates and values past U+10FFFF are excluded by the second octet. */
  predicate IsSecond(lead: char, c: char) {
    InRange(c, if lead == 0xE0 as char then 0xA0 else if lead == 0xF0 as char then 0x90 else 0x80,
               if lead == 0xED as char then 0x9F else if lead == 0xF4 as char then 0x8F else 0xBF)
  }

  lemma RuneLengthLocal(s: string, rest: string)
    requires RuneLength(s) > 0
    ensures RuneLength(s[..RuneLength(s)] + rest) == RuneLength(s)
  {
  }

  /** U+FFFD. */
  const REPLACEMENT := [0xEF as char, 0xBF as char, 0xBD as char]

  /** The octets taken at a time: those of a character, or one that starts none. */
  function Step(s: string): (n: nat)
    requires s != ""
    ensures 0 < n <= |s|
  {
    if RuneLength(s) == 0 then 1 else RuneLength(s)
  }

  function CoerceHead(s: string): string
    requires s != ""
  {
    if RuneLength(s) == 0 then REPLACEMENT else s[..RuneLength(s)]
  }

  /** The string with every octet that belongs to no character replaced. */
  function Coerce(s: string): string {
    if s == "" then "" else CoerceHead(s) + Coerce(s[Step(s)..])
  }

  predicate Valid(s: string) {
    s == "" || (RuneLength(s) > 0 && Valid(s[RuneLength(s)..]))
  }

  /** Coercion changes exactly the strings that are not UTF-8, and makes those longer. */
  lemma {:induction false} CoerceValid(s: string)
    ensures if Valid(s) then Coerce(s) == s else |Coerce(s)| > |s|
    decreases |s|
  {
    if s != "" {
      CoerceValid(s[Step(s)..]);
      assert s == s[..Step(s)] + s[Step(s)..];
    }
  }

  lemma {:induction false} AsciiValid(s: string)
    requires IsAscii(s)
    ensures Valid(s)
  {
    if s != "" {
      AsciiValid(s[1..]);
    }
  }

  /** The last octets of a character, six bits each. */
  function Tail(v: nat): char { (0x80 + v % 0x40) as char }

  /** The octets of a code point: utf8.EncodeRune. */
  function EncodeRune(v: int): string
    requires 0 <= v < 0x110000
  {
    if v < 0x80 then [v as char]
    else if v < 0x800 then [(0xC0 + v / 0x40) as char, Tail(v)]
    else if v < 0x1_0000 then [(0xE0 + v / 0x40 / 0x40) as char, Tail(v / 0x40), Tail(v)]
    else [(0xF0 + v / 0x40 / 0x40 / 0x40) as char, Tail(v / 0x40 / 0x40), Tail(v / 0x40), Tail(v)]
  }

  // ---- the octets are those of the scalar values ----

  /** A Unicode scalar value: a code point that is not a surrogate. */
  predicate IsScalar(v: int) { 0 <= v < 0x110000 && !(0xD800 <= v < 0xE000) }

  /** Six more bits. */
  function Append(v: int, c: char): int { v * 0x40 + (c as int - 0x80) }

  lemma AppendSplits(v: nat, c: char)
    requires IsTail(c)
    ensures Append(v, c) >= 0 && Append(v, c) / 0x40 == v && Tail(Append(v, c)) == c
  {
  }

  /** The code point of the character at the start of `s`. */
  function RuneValue(s: string): int
    requires RuneLength(s) > 0
  {
    var b := s[0] as int;
    match RuneLength(s)
    case 1 => b
    case 2 => Append(b - 0xC0, s[1])
    case 3 => Append(Append(b - 0xE0, s[1]), s[2])
    case _ => Append(Append(Append(b - 0xF0, s[1]), s[2]), s[3])
  }

  /** A character at the start of a string is a scalar value, and its octets are those of that value. */
  lemma RuneIsEncoded(s: string)
    requires RuneLength(s) > 0
    ensures IsScalar(RuneValue(s)) && EncodeRune(RuneValue(s)) == s[..RuneLength(s)]
  {
    var n := RuneLength(s);
    if n == 2 {
      AppendSplits(s[0] as int - 0xC0, s[1]);
    } else if n == 3 {
      AppendSplits(s[0] as int - 0xE0, s[1]);
      AppendSplits(Append(s[0] as int - 0xE0, s[1]), s[2]);
    } else if n == 4 {
      AppendSplits(s[0] as int - 0xF0, s[1]);
      AppendSplits(Append(s[0] as int - 0xF0, s[1]), s[2]);
      AppendSplits(Append(Append(s[0] as int - 0xF0, s[1]), s[2]), s[3]);
    }
  }

  /** Conversely the octets of every scalar value are a character. */
  lemma EncodedIsRune(v: int, rest: string)
    requires IsScalar(v)
    ensures RuneLength(EncodeRune(v) + rest) == |EncodeRune(v)| > 0
  {
  }

  predicate AllScalar(vs: seq<int>) { forall i :: 0 <= i < |vs| ==> IsScalar(vs[i]) }

  /** A string is UTF-8 if and only if it is the octets of scalar values, one after the other. */
  function EncodeRunes(vs: seq<int>): string
    requires AllScalar(vs)
  {
    if vs == [] then ""
    else
      assert IsScalar(vs[0]);
      EncodeRune(vs[0]) + EncodeRunes(vs[1..])
  }

  lemma EncodeFirst(v: int, vs: seq<int>)
    requires IsScalar(v) && AllScalar(vs)
    ensures AllScalar([v] + vs) && EncodeRunes([v] + vs) == EncodeRune(v) + EncodeRunes(vs)
  {
    assert ([v] + vs)[1..] == vs;
  }

  lemma {:induction false} ValidIsEncoded(s: string) returns (vs: seq<int>)
    requires Valid(s)
    ensures AllScalar(vs) && s == EncodeRunes(vs)
    decreases |s|
  {
    if s == "" {
      return [];
    }
    var n := RuneLength(s);
    var rest := ValidIsEncoded(s[n..]);
    RuneIsEncoded(s);
    EncodeFirst(RuneValue(s), rest);
    assert s == s[..n] + s[n..];
    return [RuneValue(s)] + rest;
  }

  lemma {:induction false} EncodedIsValid(vs: seq<int>)
    requires AllScalar(vs)
    ensures Valid(EncodeRunes(vs))
    decreases |vs|
  {
    if vs != [] {
      EncodedIsValid(vs[1..]);
      RuneThenValid(vs[0], EncodeRunes(vs[1..]));
    }
  }

  lemma RuneThenValid(v: int, rest: string)
    requires IsScalar(v) && Valid(rest)
    ensures Valid(EncodeRune(v) + rest)
  {
    EncodedIsRune(v, rest);
    assert (EncodeRune(v) + rest)[|EncodeRune(v)|..] == rest;
  }

  lemma {:induction false} CoercedIsValid(s: string)
    ensures Valid(Coerce(s))
    decreases |s|
  {
    if s != "" {
      CoercedIsValid(s[Step(s)..]);
      HeadThenValid(s, Coerce(s[Step(s)..]));
    }
  }

  lemma HeadThenValid(s: string, rest: string)
    requires s != "" && Valid(rest)
    ensures Valid(CoerceHead(s) + rest)
  {
    if RuneLength(s) == 0 {
      assert EncodeRune(0xFFFD) == REPLACEMENT;
      RuneThenValid(0xFFFD, rest);
    } else {
      RuneIsEncoded(s);
      RuneThenValid(RuneValue(s), rest);
    }
  }
}
