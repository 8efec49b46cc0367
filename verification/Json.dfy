/**
 The JSON an attestation travels in: encoding/json's rendering of numbers and strings (sections 6
 and 7 of RFC 8259), and a reader for the one object shape it prints.
 */
module Json {
  import opened Wrappers
  import opened Text
  import opened Utf8
  import Hex

  const QUOTE := '\"'
  const BACKSLASH := '\\'

  /** The second character of a two-character escape. */
  function ShortEscape(c: char): Option<char> {
    if c == QUOTE || c == BACKSLASH then Some(c)
    else if c == 8 as char then Some('b')
    else if c == 12 as char then Some('f')
    else if c == '\n' then Some('n')
    else if c == '\r' then Some('r')
    else if c == '\t' then Some('t')
    else None
  }

  /** What a two-character escape stands for; a solidus may be escaped although it never is. */
  function Unescaped(e: char): Option<char> {
    if e == QUOTE || e == BACKSLASH || e == '/' then Some(e)
    else if e == 'b' then Some(8 as char)
    else if e == 'f' then Some(12 as char)
    else if e == 'n' then Some('\n')
    else if e == 'r' then Some('\r')
    else if e == 't' then Some('\t')
    else None
  }

  /** json.Marshal also escapes the characters that are special in HTML. */
  predicate NeedsUnicodeEscape(c: char) { c < ' ' || c in {'<', '>', '&'} }

  function EscapeChar(c: char): (s: string)
    ensures |s| > 0
  {
    if ShortEscape(c).Some? then [BACKSLASH, ShortEscape(c).value]
    else if NeedsUnicodeEscape(c) then [BACKSLASH, 'u', '0', '0', Hex.Digit(c as int / 16), Hex.Digit(c as int % 16)]
    else [c]
  }

  /** U+2028 and U+2029, which end a line in JavaScript. */
  predicate IsLineSeparator(s: string) {
    RuneLength(s) == 3 && s[0] == 0xE2 as char && s[1] == 0x80 as char && s[2] in {0xA8 as char, 0xA9 as char}
  }

  /** The first character of a string as printed; one for an octet that starts none. */
  function EscapeHead(s: string): (piece: string)
    requires s != ""
    ensures |piece| > 0
  {
    if RuneLength(s) == 0 then [BACKSLASH] + "ufffd"
    else if RuneLength(s) == 1 then EscapeChar(s[0])
    else if IsLineSeparator(s) then [BACKSLASH] + "u202" + [if s[2] == 0xA8 as char then '8' else '9']
    else s[..RuneLength(s)]
  }

  function Escape(s: string): string {
    if s == "" then "" else EscapeHead(s) + Escape(s[Step(s)..])
  }

  function Quoted(s: string): string { [QUOTE] + (Escape(s) + [QUOTE]) }

  /** The 16 bits of four hexadecimal digits. */
  function Hex4(s: string): (v: Option<int>)
    requires |s| == 4
    ensures v.Some? ==> 0 <= v.value < 0x1_0000
  {
    var octets :- Hex.Decode(s);
    if |octets| != 2 then None
    else
      var high: int := octets[0];
      Some(high * 256 + octets[1])
  }

  predicate IsSurrogate(v: int) { 0xD800 <= v < 0xE000 }

  /** The low surrogate that an escape right after a high one stands for. */
  function LowSurrogate(s: string): (v: Option<int>)
    ensures v.Some? ==> 0xDC00 <= v.value < 0xE000
  {
    if |s| >= 6 && s[0] == BACKSLASH && s[1] == 'u' then
      var v :- Hex4(s[2..6]);
      if 0xDC00 <= v < 0xE000 then Some(v) else None
    else None
  }

  /** A \u escape, with the one after it if they are a pair: the octets it stands for and its length. */
  function ReadUnicode(s: string): (r: Option<(string, nat)>)
    requires |s| >= 6
    ensures r.Some? ==> 0 < r.value.1 <= |s|
  {
    var v :- Hex4(s[2..6]);
    if !IsSurrogate(v) then Some((EncodeRune(v), 6))
    else if v < 0xDC00 && LowSurrogate(s[6..]).Some? then
      Some((EncodeRune(0x1_0000 + (v - 0xD800) * 0x400 + (LowSurrogate(s[6..]).value - 0xDC00)), 12))
    else Some((REPLACEMENT, 6))
  }

  /** A string from just after its opening quote: its value, and what follows its closing quote. */
  function ReadBody(s: string): Option<(string, string)> {
    if s == "" then None
    else if s[0] == QUOTE then Some(("", s[1..]))
    else if s[0] == BACKSLASH then
      if |s| >= 6 && s[1] == 'u' then
        var (octets, n) :- ReadUnicode(s);
        Prepend(octets, ReadBody(s[n..]))
      else if |s| >= 2 then
        var c :- Unescaped(s[1]);
        Prepend([c], ReadBody(s[2..]))
      else None
    else if s[0] < ' ' then None
    else Prepend(CoerceHead(s), ReadBody(s[Step(s)..]))
  }

  function Prepend(octets: string, rest: Option<(string, string)>): Option<(string, string)> {
    if rest.Some? then Some((octets + rest.value.0, rest.value.1)) else None
  }

  function ReadString(s: string): Option<(string, string)> {
    if s != "" && s[0] == QUOTE then ReadBody(s[1..]) else None
  }

  /** An integer: a minus if any, then digits without a leading zero. */
  function ReadInt(s: string): Option<(int, string)> {
    var negative := HasPrefix(s, "-");
    var t := if negative then s[1..] else s;
    var n := DigitSpan(t);
    if n == 0 || (n > 1 && t[0] == '0') then None
    else
      var magnitude: int := DigitsValue(t[..n]);
      Some((if negative then -magnitude else magnitude, t[n..]))
  }

  function Expect(token: string, s: string): Option<string> {
    if HasPrefix(s, token) then Some(s[|token|..]) else None
  }

  // ---- what is printed is read back ----

  lemma ExpectPrinted(token: string, rest: string)
    ensures Expect(token, token + rest) == Some(rest)
  {
  }

  lemma EscapeRoundTrip(c: char)
    requires c < 128 as char
    ensures ShortEscape(c).Some? ==> Unescaped(ShortEscape(c).value) == Some(c) && ShortEscape(c).value != 'u'
    ensures ShortEscape(c).None? && NeedsUnicodeEscape(c) ==>
              Hex4(['0', '0', Hex.Digit(c as int / 16), Hex.Digit(c as int % 16)]) == Some(c as int)
  {
    if ShortEscape(c).None? && NeedsUnicodeEscape(c) {
      var code: byte := c as int;
      Hex4Digits("00", 0, [Hex.Digit(code / 16), Hex.Digit(code % 16)], code);
    }
  }

  lemma Hex4Digits(high: string, h: byte, low: string, l: byte)
    requires high == [Hex.Digit(h / 16), Hex.Digit(h % 16)] && low == [Hex.Digit(l / 16), Hex.Digit(l % 16)]
    ensures var value: int := h; Hex4(high + low) == Some(value * 256 + l)
  {
    Hex.EncodeDecode([h, l]);
    assert [h, l][1..] == [l] && [l][1..] == [];
    assert Hex.Encode([h, l]) == high + low;
  }

  lemma ReadEscape(digits: string, v: int, rest: string)
    requires |digits| == 4 && Hex4(digits) == Some(v) && !IsSurrogate(v)
    ensures ReadBody([BACKSLASH] + "u" + digits + rest) == Prepend(EncodeRune(v), ReadBody(rest))
  {
    var s := [BACKSLASH] + "u" + digits + rest;
    assert s[2..6] == digits && s[6..] == rest;
  }

  lemma ReadEscapedChar(c: char, rest: string)
    requires c < 128 as char
    ensures ReadBody(EscapeChar(c) + rest) == Prepend([c], ReadBody(rest))
  {
    EscapeRoundTrip(c);
    var s := EscapeChar(c) + rest;
    assert s[|EscapeChar(c)|..] == rest;
    if ShortEscape(c).None? {
      if NeedsUnicodeEscape(c) {
        var digits := ['0', '0', Hex.Digit(c as int / 16), Hex.Digit(c as int % 16)];
        assert EscapeChar(c) == [BACKSLASH] + "u" + digits;
        ReadEscape(digits, c as int, rest);
      } else {
        assert CoerceHead(s) == [c];
      }
    }
  }

  /** Each piece printed is read back as the character it was printed for. */
  lemma ReadEscapedHead(v: string, rest: string)
    requires v != ""
    ensures ReadBody(EscapeHead(v) + rest) == Prepend(CoerceHead(v), ReadBody(rest))
  {
    var n := RuneLength(v);
    if n == 0 {
      Hex4Digits("ff", 255, "fd", 253);
      assert EscapeHead(v) == [BACKSLASH] + "u" + "fffd";
      ReadEscape("fffd", 0xFFFD, rest);
    } else if n == 1 {
      assert v[..1] == [v[0]];
      ReadEscapedChar(v[0], rest);
    } else if IsLineSeparator(v) {
      ReadLineSeparator(v, rest);
    } else {
      RuneLengthLocal(v, rest);
      var s := v[..n] + rest;
      assert s[0] == v[0] && s[..n] == v[..n] && s[n..] == rest;
    }
  }

  lemma ReadLineSeparator(v: string, rest: string)
    requires IsLineSeparator(v)
    ensures ReadBody(EscapeHead(v) + rest) == Prepend(CoerceHead(v), ReadBody(rest))
  {
    var first := v[2] == 0xA8 as char;
    var digits := if first then "2028" else "2029";
    LineSeparatorDigits(first);
    assert EscapeHead(v) == [BACKSLASH] + "u" + digits;
    ReadEscape(digits, if first then 0x2028 else 0x2029, rest);
    assert v[..3] == [v[0], v[1], v[2]];
  }

  lemma LineSeparatorDigits(first: bool)
    ensures Hex4(if first then "2028" else "2029") == Some(if first then 0x2028 else 0x2029)
    ensures EncodeRune(if first then 0x2028 else 0x2029)
        == [0xE2 as char, 0x80 as char, (if first then 0xA8 else 0xA9) as char]
  {
    if first {
      Hex4Digits("20", 0x20, "28", 0x28);
    } else {
      Hex4Digits("20", 0x20, "29", 0x29);
    }
  }

  lemma {:induction false} ReadEscaped(v: string, rest: string)
    ensures ReadBody(Escape(v) + ([QUOTE] + rest)) == Some((Coerce(v), rest))
    decreases |v|
  {
    var tail := [QUOTE] + rest;
    if v == "" {
      assert tail[1..] == rest && Escape(v) + tail == tail;
    } else {
      var w := v[Step(v)..];
      ReadEscaped(w, rest);
      ReadEscapedHead(v, Escape(w) + tail);
      Assoc(EscapeHead(v), Escape(w), tail);
    }
  }

  /** A printed string is read back, with the octets that are not UTF-8 replaced. */
  lemma ReadQuoted(v: string, rest: string)
    ensures ReadString(Quoted(v) + rest) == Some((Coerce(v), rest))
  {
    ReadEscaped(v, rest);
    Assoc([QUOTE], Escape(v) + [QUOTE], rest);
    Assoc(Escape(v), [QUOTE], rest);
    assert ([QUOTE] + (Escape(v) + ([QUOTE] + rest)))[1..] == Escape(v) + ([QUOTE] + rest);
  }

  lemma {:induction false} DigitSpanOf(digits: string, rest: string)
    requires AllDigits(digits) && (rest == "" || !IsDigit(rest[0]))
    ensures DigitSpan(digits + rest) == |digits|
  {
    var s := digits + rest;
    if digits == "" {
      assert s == rest;
    } else {
      DigitSpanOf(digits[1..], rest);
      assert s[1..] == digits[1..] + rest;
    }
  }

  lemma ReadDecimal(n: int, rest: string)
    requires rest == "" || !IsDigit(rest[0])
    ensures ReadInt(Decimal(n) + rest) == Some((n, rest))
  {
    var magnitude: nat := if n < 0 then -n else n;
    ReadDigits(magnitude, rest);
    if n < 0 {
      Assoc("-", NatDigits(magnitude), rest);
      assert ("-" + (NatDigits(magnitude) + rest))[1..] == NatDigits(magnitude) + rest;
    }
  }

  lemma ReadDigits(n: nat, rest: string)
    requires rest == "" || !IsDigit(rest[0])
    ensures ReadInt(NatDigits(n) + rest) == Some((n as int, rest))
    ensures var s := NatDigits(n) + rest;
      IsDigit(s[0]) && DigitSpan(s) == |NatDigits(n)| && (|NatDigits(n)| > 1 ==> s[0] != '0')
      && DigitsValue(s[..|NatDigits(n)|]) == n && s[|NatDigits(n)|..] == rest
  {
    var digits := NatDigits(n);
    var s := digits + rest;
    DigitsRoundTrip(n);
    NoLeadingZero(n);
    DigitSpanOf(digits, rest);
    assert s[..|digits|] == digits && s[|digits|..] == rest;
    assert s[0] == digits[0] && IsDigit(digits[0]);
  }

  // ---- what is read ----

  /** The escapes of section 7 of RFC 8259, and the ones that keep HTML harmless. */
  lemma KnownEscapes()
    ensures EscapeChar('\"') == [BACKSLASH, '\"'] && EscapeChar(BACKSLASH) == [BACKSLASH, BACKSLASH]
    ensures EscapeChar(8 as char) == [BACKSLASH, 'b'] && EscapeChar(12 as char) == [BACKSLASH, 'f']
    ensures EscapeChar('\n') == [BACKSLASH, 'n'] && EscapeChar('\r') == [BACKSLASH, 'r']
    ensures EscapeChar('\t') == [BACKSLASH, 't'] && EscapeChar(0 as char) == [BACKSLASH] + "u0000"
    ensures EscapeChar('<') == [BACKSLASH] + "u003c" && EscapeChar('>') == [BACKSLASH] + "u003e"
    ensures EscapeChar('&') == [BACKSLASH] + "u0026"
  {
  }

  /** A pair of surrogate escapes is one character; a surrogate on its own is replaced. */
  lemma SurrogatesRead(high: int, low: int, first: string, second: string, rest: string)
    requires 0xD800 <= high < 0xDC00 <= low < 0xE000
    requires |first| == |second| == 4 && Hex4(first) == Some(high) && Hex4(second) == Some(low)
    ensures var pair := [BACKSLASH] + "u" + first + ([BACKSLASH] + "u" + second);
      ReadBody(pair + rest) == Prepend(EncodeRune(0x1_0000 + (high - 0xD800) * 0x400 + (low - 0xDC00)), ReadBody(rest))
    ensures ReadBody([BACKSLASH] + "u" + second + rest) == Prepend(REPLACEMENT, ReadBody(rest))
  {
    var tail := [BACKSLASH] + "u" + second;
    var s := [BACKSLASH] + "u" + first + tail + rest;
    assert s[2..6] == first && s[6..][2..6] == second && s[12..] == rest;
    var t := tail + rest;
    assert t[2..6] == second && t[6..] == rest;
  }

  lemma UnicodeIsRune(s: string)
    requires |s| >= 6 && ReadUnicode(s).Some?
    ensures exists v :: IsScalar(v) && ReadUnicode(s).value.0 == EncodeRune(v)
  {
    var v := Hex4(s[2..6]).value;
    assert EncodeRune(0xFFFD) == REPLACEMENT;
    if !IsSurrogate(v) {
      assert IsScalar(v);
    } else if v < 0xDC00 && LowSurrogate(s[6..]).Some? {
      assert IsScalar(0x1_0000 + (v - 0xD800) * 0x400 + (LowSurrogate(s[6..]).value - 0xDC00));
    } else {
      assert IsScalar(0xFFFD);
    }
  }

  /** Whatever is read, the value of a string is UTF-8. */
  lemma {:induction false} ReadIsValid(s: string)
    ensures ReadBody(s).Some? ==> Valid(ReadBody(s).value.0)
    decreases |s|
  {
    if s != "" && s[0] != QUOTE && ReadBody(s).Some? {
      if s[0] == BACKSLASH && |s| >= 6 && s[1] == 'u' {
        var n := ReadUnicode(s).value.1;
        ReadIsValid(s[n..]);
        UnicodeIsRune(s);
        var v :| IsScalar(v) && ReadUnicode(s).value.0 == EncodeRune(v);
        RuneThenValid(v, ReadBody(s[n..]).value.0);
      } else if s[0] == BACKSLASH {
        ReadIsValid(s[2..]);
        var v := Unescaped(s[1]).value as int;
        assert EncodeRune(v) == [Unescaped(s[1]).value];
        RuneThenValid(v, ReadBody(s[2..]).value.0);
      } else {
        ReadIsValid(s[Step(s)..]);
        HeadThenValid(s, ReadBody(s[Step(s)..]).value.0);
      }
    }
  }

  lemma {:induction false} DigitsCanonical(digits: string)
    requires digits != "" && AllDigits(digits) && (|digits| > 1 ==> digits[0] != '0')
    ensures NatDigits(DigitsValue(digits)) == digits && (|digits| > 1 ==> DigitsValue(digits) > 0)
    decreases |digits|
  {
    var n := |digits| - 1;
    var before, d := digits[..n], digits[n];
    assert digits == before + [d] && DigitChar(DigitValue(d)) == d;
    if n > 0 {
      DigitsCanonical(before);
      if n == 1 {
        assert DigitsValue(before) == DigitsValue(before[..0]) * 10 + DigitValue(before[0]);
      }
    } else {
      assert digits[..0] == "";
    }
  }

  /** An integer is read only as it would be printed, but for a negative zero. */
  lemma IntegersReadAsPrinted(s: string)
    ensures ReadInt(s).Some? ==>
      var (n, rest) := ReadInt(s).value;
      s == Decimal(n) + rest || (n == 0 && s == "-0" + rest)
  {
    if ReadInt(s).Some? {
      var negative := HasPrefix(s, "-");
      var t := if negative then s[1..] else s;
      var k := DigitSpan(t);
      DigitsCanonical(t[..k]);
      assert t == t[..k] + t[k..];
      if negative {
        assert s == "-" + t;
        Assoc("-", t[..k], t[k..]);
      }
    }
  }

  // ---- the envelope ----

  /** The decoded envelope carried in the header. */
  datatype Attestation = Attestation(version: int, signer: string, issuedAt: int64, nonce: string, signature: string)

  const OPEN := "{\"v\":"
  const SIGNER_KEY := ",\"signer\":"
  const ISSUED_KEY := ",\"issued_at\":"
  const NONCE_KEY := ",\"nonce\":"
  const SIGNATURE_KEY := ",\"signature\":"
  const CLOSE := "}"

  function Marshal(att: Attestation): string {
    OPEN + (Decimal(att.version) + (SIGNER_KEY + (Quoted(att.signer) + MarshalTail(att))))
  }

  function MarshalTail(att: Attestation): string {
    ISSUED_KEY + (Decimal(att.issuedAt) + (NONCE_KEY + (Quoted(att.nonce)
        + (SIGNATURE_KEY + (Quoted(att.signature) + CLOSE)))))
  }

  /** Text that is printed as it is: no control characters, none special in JSON or HTML, all ASCII. */
  predicate IsPlain(s: string) {
    forall i :: 0 <= i < |s| ==> ' ' <= s[i] < 128 as char && s[i] !in {QUOTE, BACKSLASH, '<', '>', '&'}
  }

  lemma {:induction false} PlainUnescaped(s: string)
    requires IsPlain(s)
    ensures Escape(s) == s
    decreases |s|
  {
    if s != "" {
      PlainUnescaped(s[1..]);
      assert EscapeHead(s) == [s[0]];
      assert s == [s[0]] + s[1..];
    }
  }

  function InQuotes(s: string): string { "\"" + (s + "\"") }

  /** The envelope as documented, field by field. */
  function Documented(version: string, signer: string, issuedAt: string, nonce: string, signature: string): string {
    "{\"v\":" + (version + (",\"signer\":" + (InQuotes(signer)
    + (",\"issued_at\":" + (issuedAt + (",\"nonce\":" + (InQuotes(nonce)
    + (",\"signature\":" + (InQuotes(signature) + "}")))))))))
  }

  lemma EnvelopeLayout(att: Attestation)
    requires IsPlain(att.signer) && IsPlain(att.nonce) && IsPlain(att.signature)
    ensures Marshal(att) ==
      Documented(Decimal(att.version), att.signer, Decimal(att.issuedAt), att.nonce, att.signature)
  {
    PlainUnescaped(att.signer);
    PlainUnescaped(att.nonce);
    PlainUnescaped(att.signature);
  }

  /** Reads exactly the shape Marshal prints, into fields of Go's integer widths. */
  function Unmarshal(s: string): Option<Attestation> {
    var s :- Expect(OPEN, s);
    var (version, s) :- ReadInt(s);
    var s :- Expect(SIGNER_KEY, s);
    var (signer, s) :- ReadString(s);
    UnmarshalTail(version, signer, s)
  }

  function UnmarshalTail(version: int, signer: string, s: string): Option<Attestation> {
    var s :- Expect(ISSUED_KEY, s);
    var (issuedAt, s) :- ReadInt(s);
    var s :- Expect(NONCE_KEY, s);
    var (nonce, s) :- ReadString(s);
    var s :- Expect(SIGNATURE_KEY, s);
    var (signature, s) :- ReadString(s);
    if s == CLOSE && InInt64(version) && InInt64(issuedAt)
    then Some(Attestation(version, signer, issuedAt, nonce, signature))
    else None
  }

  /** What comes back: every string with the octets that are not UTF-8 replaced. */
  function Coerced(att: Attestation): Attestation {
    att.(signer := Coerce(att.signer), nonce := Coerce(att.nonce), signature := Coerce(att.signature))
  }

  lemma TailRoundTrip(att: Attestation)
    requires InInt64(att.version)
    ensures UnmarshalTail(att.version, att.signer, MarshalTail(att)) == Some(Coerced(att).(signer := att.signer))
  {
    var s5 := Quoted(att.signature) + CLOSE;
    var s4 := SIGNATURE_KEY + s5;
    var s3 := Quoted(att.nonce) + s4;
    var s2 := NONCE_KEY + s3;
    var s1 := Decimal(att.issuedAt) + s2;
    ExpectPrinted(ISSUED_KEY, s1);
    ReadDecimal(att.issuedAt, s2);
    ExpectPrinted(NONCE_KEY, s3);
    ReadQuoted(att.nonce, s4);
    ExpectPrinted(SIGNATURE_KEY, s5);
    ReadQuoted(att.signature, CLOSE);
  }

  lemma MarshalRoundTrip(att: Attestation)
    requires InInt64(att.version)
    ensures Unmarshal(Marshal(att)) == Some(Coerced(att))
  {
    var s4 := MarshalTail(att);
    var s3 := Quoted(att.signer) + s4;
    var s2 := SIGNER_KEY + s3;
    var s1 := Decimal(att.version) + s2;
    ExpectPrinted(OPEN, s1);
    ReadDecimal(att.version, s2);
    ExpectPrinted(SIGNER_KEY, s3);
    ReadQuoted(att.signer, s4);
    TailRoundTrip(att.(signer := Coerce(att.signer)));
  }

  // ---- what is printed is octets ----

  lemma OctetsConcat(s: string, t: string, u: string)
    requires IsOctets(s) && IsOctets(t) && IsOctets(u)
    ensures IsOctets(s + (t + u))
  {
  }

  lemma {:induction false} EscapeIsOctets(s: string)
    ensures IsOctets(Escape(s))
    decreases |s|
  {
    if s != "" {
      EscapeIsOctets(s[Step(s)..]);
      assert IsOctets(EscapeHead(s));
    }
  }

  lemma DecimalIsOctets(n: int)
    ensures IsOctets(Decimal(n))
  {
  }

  lemma QuotedIsOctets(s: string)
    ensures IsOctets(Quoted(s))
  {
    EscapeIsOctets(s);
  }

  lemma TailIsOctets(att: Attestation)
    ensures IsOctets(MarshalTail(att))
  {
    QuotedIsOctets(att.nonce);
    QuotedIsOctets(att.signature);
    DecimalIsOctets(att.issuedAt);
    TailPartsAreOctets(Decimal(att.issuedAt), Quoted(att.nonce), Quoted(att.signature));
  }

  lemma TailPartsAreOctets(issuedAt: string, nonce: string, signature: string)
    requires IsOctets(issuedAt) && IsOctets(nonce) && IsOctets(signature)
    ensures IsOctets(ISSUED_KEY + (issuedAt + (NONCE_KEY + (nonce + (SIGNATURE_KEY + (signature + CLOSE))))))
  {
    OctetsConcat(SIGNATURE_KEY, signature, CLOSE);
    OctetsConcat(NONCE_KEY, nonce, SIGNATURE_KEY + (signature + CLOSE));
  }

  lemma MarshalIsOctets(att: Attestation)
    ensures IsOctets(Marshal(att))
  {
    QuotedIsOctets(att.signer);
    DecimalIsOctets(att.version);
    TailIsOctets(att);
    OctetsConcat(SIGNER_KEY, Quoted(att.signer), MarshalTail(att));
    OctetsConcat(OPEN, Decimal(att.version), SIGNER_KEY + (Quoted(att.signer) + MarshalTail(att)));
  }

  // ---- nothing is left over ----

  predicate IsSuffix(t: string, s: string) { |t| <= |s| && s[|s| - |t|..] == t }

  lemma SuffixOfSuffix(t: string, s: string, u: string)
    requires IsSuffix(t, s) && IsSuffix(s, u)
    ensures IsSuffix(t, u)
  {
    assert u[|u| - |t|..] == u[|u| - |s|..][|s| - |t|..];
  }

  /** How much of a string body its first character takes. */
  function Taken(s: string): (n: nat)
    requires s != "" && s[0] != QUOTE && ReadBody(s).Some?
    ensures 0 < n <= |s|
  {
    if s[0] != BACKSLASH then Step(s) else if |s| >= 6 && s[1] == 'u' then ReadUnicode(s).value.1 else 2
  }

  lemma BodyGoesOn(s: string)
    requires s != "" && s[0] != QUOTE && ReadBody(s).Some?
    ensures ReadBody(s[Taken(s)..]).Some? && ReadBody(s[Taken(s)..]).value.1 == ReadBody(s).value.1
  {
  }

  lemma {:induction false} BodyLeavesSuffix(s: string)
    ensures ReadBody(s).Some? ==> IsSuffix(ReadBody(s).value.1, s)
    decreases |s|
  {
    if s != "" && s[0] != QUOTE && ReadBody(s).Some? {
      var t := s[Taken(s)..];
      BodyGoesOn(s);
      BodyLeavesSuffix(t);
      SuffixOfSuffix(ReadBody(s).value.1, t, s);
    }
  }

  /** Each reader leaves a part at the end of what it was given. */
  lemma StringLeavesSuffix(s: string)
    ensures ReadString(s).Some? ==> IsSuffix(ReadString(s).value.1, s)
  {
    if ReadString(s).Some? {
      BodyLeavesSuffix(s[1..]);
      SuffixOfSuffix(ReadString(s).value.1, s[1..], s);
    }
  }

  lemma IntLeavesSuffix(s: string)
    ensures ReadInt(s).Some? ==> IsSuffix(ReadInt(s).value.1, s)
  {
  }

  lemma ExpectLeavesSuffix(token: string, s: string)
    ensures Expect(token, s).Some? ==> IsSuffix(Expect(token, s).value, s)
  {
  }

  lemma KeyedString(key: string, s: string)
    requires Expect(key, s).Some? && ReadString(Expect(key, s).value).Some?
    ensures IsSuffix(ReadString(Expect(key, s).value).value.1, s)
  {
    ExpectLeavesSuffix(key, s);
    StringLeavesSuffix(Expect(key, s).value);
    SuffixOfSuffix(ReadString(Expect(key, s).value).value.1, Expect(key, s).value, s);
  }

  lemma KeyedInt(key: string, s: string)
    requires Expect(key, s).Some? && ReadInt(Expect(key, s).value).Some?
    ensures IsSuffix(ReadInt(Expect(key, s).value).value.1, s)
  {
    ExpectLeavesSuffix(key, s);
    IntLeavesSuffix(Expect(key, s).value);
    SuffixOfSuffix(ReadInt(Expect(key, s).value).value.1, Expect(key, s).value, s);
  }

  /** An envelope starts and ends as documented: nothing may follow the closing brace. */
  lemma EnvelopeIsAll(s: string)
    requires Unmarshal(s).Some?
    ensures "{\"v\":" <= s && IsSuffix("}", s)
  {
    var s1 := ReadInt(Expect(OPEN, s).value).value.1;
    var (signer, s2) := ReadString(Expect(SIGNER_KEY, s1).value).value;
    KeyedInt(OPEN, s);
    KeyedString(SIGNER_KEY, s1);
    SuffixOfSuffix(s2, s1, s);
    TailIsAll(ReadInt(Expect(OPEN, s).value).value.0, signer, s2);
    SuffixOfSuffix(CLOSE, s2, s);
  }

  lemma TailIsAll(version: int, signer: string, s: string)
    requires UnmarshalTail(version, signer, s).Some?
    ensures IsSuffix(CLOSE, s)
  {
    var s1 := ReadInt(Expect(ISSUED_KEY, s).value).value.1;
    var s2 := ReadString(Expect(NONCE_KEY, s1).value).value.1;
    KeyedInt(ISSUED_KEY, s);
    KeyedString(NONCE_KEY, s1);
    KeyedString(SIGNATURE_KEY, s2);
    SuffixOfSuffix(s2, s1, s);
    SuffixOfSuffix(CLOSE, s2, s);
  }
}
