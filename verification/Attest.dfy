/**
 Attesting a challenge and verifying the attestation (tunnel/internal/attest/attest.go).
 The curve is abstract: signing and recovery are the functions of a `Crypto` value.
 */
module Attest {
  import opened Wrappers
  import opened Text
  import opened Utf8
  import opened Canonical
  import opened PersonalSign
  import opened Json
  import Hex
  import Base64Url

  type Address = a: seq<byte> | |a| == 20 witness seq(20, i => 0)
  type Signature = s: seq<byte> | |s| == 65 witness seq(65, i => 0)
  type Random16 = r: seq<byte> | |r| == 16 witness seq(16, i => 0)

  datatype Key = Key(scalar: nat)

  datatype Crypto = Crypto(
    sign: (Digest, Key) -> Option<Signature>,
    recover: (Digest, Signature) -> Option<Address>,
    addressOf: Key -> Address,
    upperCase: (Address, nat) -> bool)

  /** What signing promises: a recovery bit of 0 or 1, and a signature that recovers to the signer. */
  ghost predicate Correct(crypto: Crypto) {
    forall digest, key :: crypto.sign(digest, key).Some? ==>
      var sig := crypto.sign(digest, key).value;
      sig[64] in {0, 1} && crypto.recover(digest, sig) == Some(crypto.addressOf(key))
  }

  datatype Error =
    | MissingAttestation
    | Malformed
    | UnsupportedVersion(version: int)
    | NotAnAddress(expected: string)
    | Expired
    | FutureDated
    | SignerMismatch(recovered: Address)
    | NonceFailed
    | SignFailed

  const VERSION := 1
  const SECOND := 1_000_000_000
  const DEFAULT_MAX_AGE := 300 * SECOND

  // ---- addresses ----

  function WithCase(digits: string, upper: nat -> bool): (s: string)
    ensures |s| == |digits|
  {
    seq(|digits|, i requires 0 <= i < |digits| =>
      if 'a' <= digits[i] <= 'f' && upper(i) then digits[i] - 'a' + 'A' else digits[i])
  }

  /** common.Address.Hex: the digits in the mixed case of EIP-55, which depends on the address alone. */
  function AddressHex(crypto: Crypto, a: Address): string {
    "0x" + WithCase(Hex.Encode(a), (i: nat) => crypto.upperCase(a, i))
  }

  function StripHexPrefix(s: string): string {
    if HasPrefix(s, "0x") || HasPrefix(s, "0X") then s[2..] else s
  }

  /** common.IsHexAddress, and the address common.HexToAddress then yields. */
  function ParseAddress(s: string): Option<Address> {
    if |StripHexPrefix(s)| != 40 then None
    else
      var bytes :- Hex.Decode(StripHexPrefix(s));
      if |bytes| == 20 then Some(bytes) else None
  }

  lemma CaseIsNoMatter(digits: string, upper: nat -> bool)
    requires Hex.IsHex(digits)
    ensures Hex.SameDigits(WithCase(digits, upper), digits)
    ensures IsAscii(WithCase(digits, upper))
  {
  }

  lemma ParsePrintedAddress(crypto: Crypto, a: Address)
    ensures ParseAddress(AddressHex(crypto, a)) == Some(a)
    ensures IsAscii(AddressHex(crypto, a))
  {
    var upper := (i: nat) => crypto.upperCase(a, i);
    var digits := WithCase(Hex.Encode(a), upper);
    assert StripHexPrefix("0x" + digits) == digits;
    Hex.EncodeIsHex(a);
    Hex.EncodeDecode(a);
    CaseIsNoMatter(Hex.Encode(a), upper);
    Hex.DecodeIgnoresCase(digits, Hex.Encode(a));
  }

  function Unprefixed(s: string): string { if |s| >= 2 && s[0] == '0' && s[1] in {'x', 'X'} then s[2..] else s }

  lemma UnprefixedExactly(s: string)
    ensures Unprefixed(s) == StripHexPrefix(s)
  {
    if |s| >= 2 {
      assert s[..2] == [s[0], s[1]];
    }
  }

  /** common.IsHexAddress: forty hexadecimal digits, with or without a prefix of either case. */
  lemma ParseAddressExactly(s: string)
    ensures ParseAddress(s).Some? <==> |Unprefixed(s)| == 40 && Hex.AllInAlphabet(Unprefixed(s))
  {
    UnprefixedExactly(s);
    Hex.IsHexExactly(Unprefixed(s));
    Hex.DecodeAccepts(Unprefixed(s));
  }

  // ---- attesting ----

  /** The clock and the random source at the moment of signing. */
  datatype Env = Env(now: int64, random: Option<Random16>)

  /** The challenge as signed: the timestamp and the nonce filled in where the caller left them unset. */
  function Filled(ch: Challenge, env: Env): Result<Challenge, Error> {
    var dated := if ch.issuedAt == 0 then ch.(issuedAt := env.now) else ch;
    if dated.nonce != "" then Ok(dated)
    else
      match env.random
      case None => Err(NonceFailed)
      case Some(bytes) => Ok(dated.(nonce := Hex.Encode(bytes)))
  }

  /** Date and nonce of the caller stay; a missing nonce becomes 32 lower-case digits, or there is no attestation. */
  lemma FilledExactly(ch: Challenge, env: Env)
    ensures Filled(ch, env).Err? <==> ch.nonce == "" && env.random.None?
    ensures Filled(ch, env).Err? ==> Filled(ch, env).error == NonceFailed
    ensures Filled(ch, env).Ok? ==>
      var filled := Filled(ch, env).value;
      && filled.(issuedAt := ch.issuedAt, nonce := ch.nonce) == ch
      && filled.issuedAt == (if ch.issuedAt != 0 then ch.issuedAt else env.now)
      && (ch.nonce != "" ==> filled.nonce == ch.nonce)
      && (ch.nonce == "" ==>
            && |filled.nonce| == 32 && Hex.Decode(filled.nonce) == Some(env.random.value)
            && forall c :: c in filled.nonce ==> '0' <= c <= '9' || 'a' <= c <= 'f')
  {
    if ch.nonce == "" && env.random.Some? {
      Hex.EncodeDecode(env.random.value);
      Hex.EncodeIsHex(env.random.value);
    }
  }

  /** personal_sign consumers expect a V of 27 or 28; a byte wraps around. */
  function ShiftV(sig: Signature): Signature {
    var v: int := sig[64];
    sig[64 := (v + 27) % 256]
  }

  function UnshiftV(sig: Signature): Signature { if sig[64] >= 27 then sig[64 := sig[64] - 27] else sig }

  function Envelope(crypto: Crypto, key: Key, ch: Challenge, sig: Signature): Attestation {
    Attestation(VERSION, AddressHex(crypto, crypto.addressOf(key)), ch.issuedAt, ch.nonce, PrintSignature(ShiftV(sig)))
  }

  /** The header value Signer.Attest returns. */
  function AttestValue(crypto: Crypto, key: Key, ch: Challenge, env: Env): Result<string, Error> {
    var filled :- Filled(ch, env);
    match crypto.sign(DigestOf(filled), key)
    case None => Err(SignFailed)
    case Some(sig) => Ok(Base64Url.Encode(Octets(Marshal(Envelope(crypto, key, filled, sig)))))
  }

  /** A fresh buffer holding a signature. */
  method SignatureBuffer(sig: Signature) returns (buffer: array<byte>)
    ensures fresh(buffer) && buffer[..] == sig
  {
    buffer := new byte[65](i requires 0 <= i < 65 => sig[i]);
  }

  class Signer {
    const crypto: Crypto
    const key: Key
    const address: Address

    constructor (crypto: Crypto, key: Key)
      ensures this.crypto == crypto && this.key == key && address == crypto.addressOf(key)
    {
      this.crypto, this.key := crypto, key;
      address := crypto.addressOf(key);
    }

    /** Signer.Attest: signs and shifts V in the signature's own buffer. */
    method Attest(challenge: Challenge, env: Env) returns (r: Result<string, Error>)
      requires address == crypto.addressOf(key)
      ensures r == AttestValue(crypto, key, challenge, env)
    {
      var ch := challenge;
      if ch.issuedAt == 0 {
        ch := ch.(issuedAt := env.now);
      }
      if ch.nonce == "" {
        if env.random.None? {
          return Err(NonceFailed);
        }
        ch := ch.(nonce := Hex.Encode(env.random.value));
      }
      var canonical := WriteCanonical(ch);
      var signed := crypto.sign(TextHash(canonical), key);
      if signed.None? {
        return Err(SignFailed);
      }
      var sig := SignatureBuffer(signed.value);
      var v: int := sig[64];
      sig[64] := (v + 27) % 256;
      assert sig[..] == ShiftV(signed.value);
      var envelope := Marshal(Attestation(VERSION, AddressHex(crypto, address), ch.issuedAt, ch.nonce,
          PrintSignature(sig[..])));
      return Ok(Base64Url.Encode(Octets(envelope)));
    }
  }

  // ---- decoding and verifying ----

  predicate IsSpace(c: char) { c in {' ', '\t', '\n', '\r', 11 as char, 12 as char} }

  function TrimSpace(s: string): string {
    if s == "" then ""
    else if IsSpace(s[0]) then TrimSpace(s[1..])
    else if IsSpace(s[|s| - 1]) then TrimSpace(s[..|s| - 1])
    else s
  }

  function Decode(headerValue: string): Result<Attestation, Error> {
    var value := TrimSpace(headerValue);
    if value == "" then Err(MissingAttestation)
    else
      match Base64Url.Decode(value)
      case None => Err(Malformed)
      case Some(raw) =>
        match Unmarshal(OfOctets(raw))
        case None => Err(Malformed)
        case Some(att) => if att.version != VERSION then Err(UnsupportedVersion(att.version)) else Ok(att)
  }

  type Decoder = string -> Result<Attestation, Error>

  function MaxAge(maxAge: int): int { if maxAge <= 0 then DEFAULT_MAX_AGE else maxAge }

  /** The checks on the timestamp; times are in nanoseconds. */
  function CheckAge(issuedAt: int64, maxAge: int, now: int): Result<(), Error> {
    var issued := issuedAt * SECOND;
    if now - issued > MaxAge(maxAge) then Err(Expired)
    else if issued > now + MaxAge(maxAge) then Err(FutureDated)
    else Ok(())
  }

  /** Hexadecimal, with or without a prefix, of exactly 65 bytes. */
  function ParseSignature(s: string): Option<Signature> {
    var sig :- Hex.Decode(TrimPrefix(s, "0x"));
    if |sig| == 65 then Some(sig) else None
  }

  function PrintSignature(sig: Signature): string { "0x" + Hex.Encode(sig) }

  /** The signature bytes an envelope carries, with V brought back to 0 or 1. */
  function SignatureOf(att: Attestation): Result<Signature, Error> {
    match ParseSignature(att.signature)
    case None => Err(Malformed)
    case Some(sig) => Ok(UnshiftV(sig))
  }

  /** The challenge a payer checks: what it received, dated and numbered as the attestation says. */
  function Claimed(ch: Challenge, att: Attestation): Challenge {
    ch.(issuedAt := att.issuedAt, nonce := att.nonce)
  }

  /** Verify, for any way of decoding the header value. */
  function Verify(crypto: Crypto, decode: Decoder, headerValue: string, ch: Challenge,
                  expectedSigner: string, maxAge: int, now: int): Result<(), Error>
  {
    var att :- decode(headerValue);
    match ParseAddress(expectedSigner)
    case None => Err(NotAnAddress(expectedSigner))
    case Some(expected) =>
      var _ :- CheckAge(att.issuedAt, maxAge, now);
      var sig :- SignatureOf(att);
      match crypto.recover(DigestOf(Claimed(ch, att)), sig)
      case None => Err(Malformed)
      case Some(recovered) =>
        if recovered != expected then Err(SignerMismatch(recovered))
        else if ParseAddress(att.signer) != Some(recovered) then Err(Malformed)
        else Ok(())
  }

  /** V brought back to 0 or 1, in a copy. */
  method Normalize(sig: Signature) returns (normalized: Signature)
    ensures normalized == UnshiftV(sig)
  {
    var buffer := SignatureBuffer(sig);
    if buffer[64] >= 27 {
      buffer[64] := buffer[64] - 27;
    }
    normalized := buffer[..];
  }

  /** Verify as written: V is normalised in a copy of the signature. */
  method VerifyHeader(crypto: Crypto, headerValue: string, challenge: Challenge,
                      expectedSigner: string, maxAge: int, now: int) returns (r: Result<(), Error>)
    ensures r == Verify(crypto, Decode, headerValue, challenge, expectedSigner, maxAge, now)
  {
    var decoded := Decode(headerValue);
    if decoded.Err? {
      return Err(decoded.error);
    }
    var att := decoded.value;
    var expected := ParseAddress(expectedSigner);
    if expected.None? {
      return Err(NotAnAddress(expectedSigner));
    }
    var limit := if maxAge <= 0 then DEFAULT_MAX_AGE else maxAge;
    var issued := att.issuedAt * SECOND;
    if now - issued > limit {
      return Err(Expired);
    }
    if issued > now + limit {
      return Err(FutureDated);
    }
    var sig := ParseSignature(att.signature);
    if sig.None? {
      return Err(Malformed);
    }
    var normalized := Normalize(sig.value);
    var ch := challenge.(issuedAt := att.issuedAt, nonce := att.nonce);
    var canonical := WriteCanonical(ch);
    var recovered := crypto.recover(TextHash(canonical), normalized);
    if recovered.None? {
      return Err(Malformed);
    }
    if recovered != expected {
      return Err(SignerMismatch(recovered.value));
    }
    if ParseAddress(att.signer) != recovered {
      return Err(Malformed);
    }
    return Ok(());
  }

  // ---- what the verdict means ----

  /** The verdict is that of the window around the date: maxAge nanoseconds to either side, else five minutes. */
  predicate AgeDecides(verdict: Result<(), Error>, issuedAt: int, maxAge: int, now: int) {
    var age, limit := now - issuedAt * 1_000_000_000, if maxAge > 0 then maxAge else 300_000_000_000;
    && (verdict == Err(Expired) <==> age > limit)
    && (verdict == Err(FutureDated) <==> age < -limit)
    && (verdict == Ok(()) <==> -limit <= age <= limit)
  }

  /** Within the window: maxAge nanoseconds to either side of the date, five minutes if none is given. */
  predicate IsFresh(issuedAt: int, maxAge: int, now: int) {
    var limit := if maxAge > 0 then maxAge else 300_000_000_000;
    -limit <= now - issuedAt * 1_000_000_000 <= limit
  }

  /** The signature that a text in an envelope stands for: 65 octets, the last one lowered by 27 from 27 on. */
  predicate Denotes(text: string, sig: Signature) {
    var raw := Hex.Decode(if "0x" <= text then text[2..] else text);
    && raw.Some? && |raw.value| == 65
    && sig[..64] == raw.value[..64]
    && sig[64] == (if raw.value[64] >= 27 then raw.value[64] - 27 else raw.value[64])
  }

  lemma SignatureDenoted(att: Attestation, sig: Signature)
    ensures SignatureOf(att) == Ok(sig) <==> Denotes(att.signature, sig)
  {
    if Denotes(att.signature, sig) {
      var raw := ParseSignature(att.signature).value;
      assert sig == UnshiftV(raw) by {
        assert sig[..64] == raw[..64];
        assert forall i :: 0 <= i < 64 ==> sig[i] == sig[..64][i] && raw[i] == raw[..64][i];
      }
    }
  }

  /** The message a payer checks: its own site and headers, with the envelope's date and nonce. */
  predicate IsClaimed(claimed: Challenge, ch: Challenge, att: Attestation) {
    claimed == Challenge(ch.robotID, ch.httpMethod, ch.path, ch.paymentRequired, ch.wwwAuthenticate,
                         att.issuedAt, att.nonce)
  }

  /**
   An attestation is accepted, with any decoder, if and only if it decodes, is within the window around
   its date, and its signature over what the payer received recovers to the address that both the
   payer expects and the envelope claims.
   */
  lemma AcceptsExactly(crypto: Crypto, decode: Decoder, h: string, ch: Challenge, expectedSigner: string,
                       maxAge: int, now: int)
    ensures Verify(crypto, decode, h, ch, expectedSigner, maxAge, now).Ok? <==>
      && decode(h).Ok?
      && var (att, limit) := (decode(h).value, if maxAge > 0 then maxAge else 300_000_000_000);
      && -limit <= now - att.issuedAt * 1_000_000_000 <= limit
      && ParseAddress(expectedSigner).Some? && ParseAddress(att.signer) == ParseAddress(expectedSigner)
      && exists sig, claimed ::
           && Denotes(att.signature, sig) && IsClaimed(claimed, ch, att)
           && crypto.recover(TextHash(CanonicalBytes(claimed)), sig) == ParseAddress(expectedSigner)
  {
    if decode(h).Ok? {
      var att := decode(h).value;
      if SignatureOf(att).Ok? {
        SignatureDenoted(att, SignatureOf(att).value);
        assert IsClaimed(Claimed(ch, att), ch, att);
      }
      forall sig | Denotes(att.signature, sig) ensures SignatureOf(att) == Ok(sig) {
        SignatureDenoted(att, sig);
      }
    }
  }

  /** Which refusal comes back: the first of the checks, in the source's order, that fails. */
  lemma RefusesInOrder(crypto: Crypto, decode: Decoder, h: string, ch: Challenge, expectedSigner: string,
                       maxAge: int, now: int)
    ensures var verdict := Verify(crypto, decode, h, ch, expectedSigner, maxAge, now);
      if decode(h).Err? then verdict == Err(decode(h).error)
      else if ParseAddress(expectedSigner).None? then verdict == Err(NotAnAddress(expectedSigner))
      else
        var (att, limit) := (decode(h).value, if maxAge > 0 then maxAge else 300_000_000_000);
        var age := now - att.issuedAt * 1_000_000_000;
        if age > limit then verdict == Err(Expired)
        else if age < -limit then verdict == Err(FutureDated)
        else if SignatureOf(att).Err? then verdict == Err(Malformed)
        else
          var recovered := crypto.recover(DigestOf(Claimed(ch, att)), SignatureOf(att).value);
          if recovered.None? then verdict == Err(Malformed)
          else if recovered != ParseAddress(expectedSigner) then verdict == Err(SignerMismatch(recovered.value))
          else verdict == if ParseAddress(att.signer) == recovered then Ok(()) else Err(Malformed)
  {
  }

  // ---- round trip ----

  lemma ShiftRoundTrip(sig: Signature)
    requires sig[64] in {0, 1}
    ensures UnshiftV(ShiftV(sig)) == sig
  {
  }

  lemma EncodedValueIsTrimmed(b: seq<byte>)
    requires b != []
    ensures Base64Url.Encode(b) != "" && TrimSpace(Base64Url.Encode(b)) == Base64Url.Encode(b)
  {
    var s := Base64Url.Encode(b);
    assert forall c :: IsSpace(c) ==> Base64Url.Index(c).None?;
    assert s != "";
    assert Base64Url.Index(s[0]).Some? && Base64Url.Index(s[|s| - 1]).Some?;
  }

  lemma ParsePrintedSignature(sig: Signature)
    ensures ParseSignature(PrintSignature(sig)) == Some(sig)
    ensures IsAscii(PrintSignature(sig))
  {
    var s := PrintSignature(sig);
    assert TrimPrefix(s, "0x") == Hex.Encode(sig);
    Hex.EncodeDecode(sig);
    Hex.EncodeIsHex(sig);
  }

  lemma DecodeEnvelope(att: Attestation)
    requires InInt64(att.version)
    ensures var h := Base64Url.Encode(Octets(Marshal(att)));
      Decode(h) == if att.version == VERSION then Ok(Coerced(att)) else Err(UnsupportedVersion(att.version))
  {
    var text := Marshal(att);
    MarshalIsOctets(att);
    OctetsRoundTrip(text);
    assert |text| > 0;
    EncodedValueIsTrimmed(Octets(text));
    Base64Url.EncodeDecode(Octets(text));
    MarshalRoundTrip(att);
  }

  lemma AsciiUnchanged(s: string)
    requires IsAscii(s)
    ensures Valid(s) && Coerce(s) == s
  {
    AsciiValid(s);
    CoerceValid(s);
  }

  /** The signature as personal_sign consumers read it: 65 octets in hexadecimal, the last one 27 or 28. */
  predicate Printed(text: string, sig: Signature) {
    && |text| == 132 && text[..2] == "0x"
    && Hex.Decode(text[2..]).Some? && |Hex.Decode(text[2..]).value| == 65
    && Hex.Decode(text[2..]).value[..64] == sig[..64]
    && sig[64] in {0, 1} && Hex.Decode(text[2..]).value[64] == 27 + sig[64]
  }

  lemma ShiftedIsPrinted(sig: Signature)
    requires sig[64] in {0, 1}
    ensures Printed(PrintSignature(ShiftV(sig)), sig)
  {
    var text := PrintSignature(ShiftV(sig));
    Hex.EncodeDecode(ShiftV(sig));
    assert text[2..] == Hex.Encode(ShiftV(sig));
  }

  /** Decoding a header value gives back every field of the envelope that was signed; a nonce comes back as UTF-8. */
  lemma DecodeAttested(crypto: Crypto, key: Key, ch: Challenge, env: Env, h: string)
    requires Correct(crypto) && AttestValue(crypto, key, ch, env) == Ok(h)
    ensures var filled := Filled(ch, env).value;
      && Decode(h).Ok?
      && Decode(h).value.version == VERSION
      && ParseAddress(Decode(h).value.signer) == Some(crypto.addressOf(key))
      && Decode(h).value.issuedAt == filled.issuedAt
      && Decode(h).value.nonce == Coerce(filled.nonce)
      && crypto.sign(DigestOf(filled), key).Some?
      && SignatureOf(Decode(h).value) == Ok(crypto.sign(DigestOf(filled), key).value)
      && Printed(Decode(h).value.signature, crypto.sign(DigestOf(filled), key).value)
  {
    var filled := Filled(ch, env).value;
    var sig := crypto.sign(DigestOf(filled), key).value;
    ParsePrintedAddress(crypto, crypto.addressOf(key));
    AsciiUnchanged(AddressHex(crypto, crypto.addressOf(key)));
    ParsePrintedSignature(ShiftV(sig));
    AsciiUnchanged(PrintSignature(ShiftV(sig)));
    ShiftRoundTrip(sig);
    ShiftedIsPrinted(sig);
    DecodeEnvelope(Envelope(crypto, key, filled, sig));
  }

  lemma HexIsPlain(s: string)
    requires Hex.IsHex(s)
    ensures IsPlain(s) && IsPlain("0x" + s)
  {
  }

  /**
   What the header decodes to, octet for octet: version 1, the signer's address, the date, a plain
   nonce, and the signature over the documented bytes with a V of 27 or 28.
   */
  lemma HeaderLayout(crypto: Crypto, key: Key, ch: Challenge, env: Env, h: string) returns (sig: Signature)
    requires Correct(crypto) && AttestValue(crypto, key, ch, env) == Ok(h) && IsPlain(Filled(ch, env).value.nonce)
    ensures var filled := Filled(ch, env).value;
      && crypto.sign(TextHash(CanonicalBytes(filled)), key) == Some(sig) && sig[64] in {0, 1}
      && Base64Url.Decode(h) == Some(Octets(Documented("1", AddressHex(crypto, crypto.addressOf(key)),
           Decimal(filled.issuedAt), filled.nonce, "0x" + Hex.Encode(sig[64 := sig[64] + 27]))))
  {
    var filled := Filled(ch, env).value;
    sig := crypto.sign(DigestOf(filled), key).value;
    var att := Envelope(crypto, key, filled, sig);
    Base64Url.EncodeDecode(Octets(Marshal(att)));
    EnvelopeIsDocumented(crypto, key, filled, sig);
  }

  lemma EnvelopeIsDocumented(crypto: Crypto, key: Key, filled: Challenge, sig: Signature)
    requires IsPlain(filled.nonce) && sig[64] in {0, 1}
    ensures Marshal(Envelope(crypto, key, filled, sig)) ==
      Documented("1", AddressHex(crypto, crypto.addressOf(key)), Decimal(filled.issuedAt), filled.nonce,
                 "0x" + Hex.Encode(sig[64 := sig[64] + 27]))
  {
    assert ShiftV(sig) == sig[64 := sig[64] + 27];
    AddressIsPlain(crypto, crypto.addressOf(key));
    Hex.EncodeIsHex(ShiftV(sig));
    HexIsPlain(Hex.Encode(ShiftV(sig)));
    EnvelopeLayout(Envelope(crypto, key, filled, sig));
    assert Decimal(1) == "1";
  }

  lemma AddressIsPlain(crypto: Crypto, a: Address)
    ensures IsPlain(AddressHex(crypto, a))
  {
    var digits := WithCase(Hex.Encode(a), (i: nat) => crypto.upperCase(a, i));
    Hex.EncodeIsHex(a);
    assert Hex.IsHex(digits);
    HexIsPlain(digits);
  }

  // ---- header values that are not printed ----

  predicate AllSpace(s: string) { forall i :: 0 <= i < |s| ==> s[i] in {' ', '\t', '\n', '\r', 11 as char, 12 as char} }

  lemma {:induction false} TrimDropsTrailing(s: string, after: string)
    requires AllSpace(after)
    ensures TrimSpace(s + after) == TrimSpace(s)
    decreases |s| + |after|
  {
    var t := s + after;
    if after == "" {
      assert t == s;
    } else if s != "" && IsSpace(s[0]) {
      TrimDropsTrailing(s[1..], after);
      assert t[1..] == s[1..] + after;
    } else if s == "" {
      TrimDropsTrailing("", after[1..]);
      assert t == after && t[1..] == "" + after[1..];
    } else {
      TrimDropsTrailing(s, after[..|after| - 1]);
      assert t[..|t| - 1] == s + after[..|after| - 1];
    }
  }

  lemma {:induction false} TrimDropsLeading(before: string, s: string)
    requires AllSpace(before)
    ensures TrimSpace(before + s) == TrimSpace(s)
    decreases |before|
  {
    if before == "" {
      assert before + s == s;
    } else {
      TrimDropsLeading(before[1..], s);
      assert (before + s)[1..] == before[1..] + s;
    }
  }

  /** Blanks around a header value do not matter, and a blank one is no attestation. */
  lemma DecodeIgnoresBlanks(before: string, h: string, after: string)
    requires AllSpace(before) && AllSpace(after)
    ensures Decode(before + (h + after)) == Decode(h)
    ensures Decode(before) == Err(MissingAttestation)
  {
    TrimDropsLeading(before, h + after);
    TrimDropsTrailing(h, after);
    TrimDropsLeading(before, "");
    assert before + "" == before;
  }

  /** A value that is not base64url is malformed. */
  lemma ForeignSymbolIsMalformed(h: string, i: nat)
    requires TrimSpace(h) == h && i < |h| && h[i] !in {'\r', '\n', '-', '_'} && !IsDigit(h[i])
    requires !('A' <= h[i] <= 'Z') && !('a' <= h[i] <= 'z')
    ensures Decode(h) == Err(Malformed)
  {
    Base64Url.DecodeAccepts(h);
    Base64Url.StripKeeps(h, i);
  }

  lemma FilledIsValid(ch: Challenge, env: Env)
    requires Valid(ch.nonce) && Filled(ch, env).Ok?
    ensures Valid(Filled(ch, env).value.nonce)
  {
    if ch.nonce == "" {
      Hex.EncodeIsHex(env.random.value);
      AsciiValid(Hex.Encode(env.random.value));
    }
  }

  /** The payer received the challenge as it was served; its timestamp and nonce do not matter. */
  predicate SameServed(a: Challenge, b: Challenge) {
    a.(issuedAt := 0, nonce := "") == b.(issuedAt := 0, nonce := "")
  }

  /** A genuine attestation is accepted exactly within the window around its date, and refused for its age outside. */
  lemma VerifyAttested(crypto: Crypto, key: Key, ch: Challenge, env: Env, h: string,
                       received: Challenge, expectedSigner: string, maxAge: int, now: int)
    requires Correct(crypto) && AttestValue(crypto, key, ch, env) == Ok(h)
    requires Valid(ch.nonce) && SameServed(ch, received)
    requires ParseAddress(expectedSigner) == Some(crypto.addressOf(key))
    ensures AgeDecides(Verify(crypto, Decode, h, received, expectedSigner, maxAge, now),
                       if ch.issuedAt != 0 then ch.issuedAt else env.now, maxAge, now)
  {
    DecodeAttested(crypto, key, ch, env, h);
    FilledIsValid(ch, env);
    CoerceValid(Filled(ch, env).value.nonce);
    assert Claimed(received, Decode(h).value) == Filled(ch, env).value;
  }

  /** The condition on the nonce is exact: any other nonce leaves the payer with another digest than the signed one. */
  lemma DigestSurvivesExactly(crypto: Crypto, key: Key, ch: Challenge, env: Env, h: string, received: Challenge)
    requires Correct(crypto) && AttestValue(crypto, key, ch, env) == Ok(h) && SameServed(ch, received)
    ensures Decode(h).Ok?
    ensures DigestOf(Claimed(received, Decode(h).value)) == DigestOf(Filled(ch, env).value) <==> Valid(ch.nonce)
  {
    var filled := Filled(ch, env).value;
    DecodeAttested(crypto, key, ch, env, h);
    CoerceValid(filled.nonce);
    if Valid(ch.nonce) {
      FilledIsValid(ch, env);
    }
    NonceLength(filled, Coerce(filled.nonce));
    assert Claimed(received, Decode(h).value) == filled.(nonce := Coerce(filled.nonce));
    if DigestOf(Claimed(received, Decode(h).value)) == DigestOf(filled) {
      PreimageInjective(CanonicalBytes(Claimed(received, Decode(h).value)), CanonicalBytes(filled));
    }
  }

  // ---- soundness ----

  /** Among the signatures in circulation, only digests the operator signed recover to the operator. */
  ghost predicate Unforgeable(crypto: Crypto, operator: Address, log: seq<SignedMessage>, circulating: set<Signature>) {
    forall digest, sig :: sig in circulating && crypto.recover(digest, sig) == Some(operator) ==>
      exists m :: m in log && SignedDigest(m) == digest
  }

  /** Accepting a challenge means that the operator signed something with its digest. */
  lemma AcceptedWasSigned(crypto: Crypto, decode: Decoder, headerValue: string, ch: Challenge, expectedSigner: string,
                          maxAge: int, now: int, log: seq<SignedMessage>, circulating: set<Signature>)
    returns (m: SignedMessage)
    requires Verify(crypto, decode, headerValue, ch, expectedSigner, maxAge, now).Ok?
    requires Unforgeable(crypto, ParseAddress(expectedSigner).value, log, circulating)
    requires SignatureOf(decode(headerValue).value).value in circulating
    ensures m in log && SignedDigest(m) == DigestOf(Claimed(ch, decode(headerValue).value))
  {
    m :| m in log && SignedDigest(m) == DigestOf(Claimed(ch, decode(headerValue).value));
  }

  /**
   Whatever the decoder does, accepting a challenge without a swallowed tag means that the operator
   attested exactly that challenge, and not a handshake or another challenge.
   */
  lemma AcceptedWasAttested(crypto: Crypto, decode: Decoder, headerValue: string, ch: Challenge, expectedSigner: string,
                            maxAge: int, now: int, log: seq<SignedMessage>, circulating: set<Signature>)
    requires Verify(crypto, decode, headerValue, ch, expectedSigner, maxAge, now).Ok?
    requires Unforgeable(crypto, ParseAddress(expectedSigner).value, log, circulating)
    requires SignatureOf(decode(headerValue).value).value in circulating
    requires TagFree(Claimed(ch, decode(headerValue).value))
    ensures IsFresh(decode(headerValue).value.issuedAt, maxAge, now)
    ensures Attested(Claimed(ch, decode(headerValue).value)) in log
  {
    AcceptsExactly(crypto, decode, headerValue, ch, expectedSigner, maxAge, now);
    var att := decode(headerValue).value;
    var m := AcceptedWasSigned(crypto, decode, headerValue, ch, expectedSigner, maxAge, now, log, circulating);
    DigestNamesChallenge(Claimed(ch, att));
  }

  /** The same for challenges without newlines: then the nonce, which is not checked, may be anything. */
  lemma AcceptedWasAttestedAnyNonce(crypto: Crypto, decode: Decoder, headerValue: string, ch: Challenge,
          expectedSigner: string,
                                    maxAge: int, now: int, log: seq<SignedMessage>, circulating: set<Signature>)
    requires Verify(crypto, decode, headerValue, ch, expectedSigner, maxAge, now).Ok?
    requires Unforgeable(crypto, ParseAddress(expectedSigner).value, log, circulating)
    requires SignatureOf(decode(headerValue).value).value in circulating
    requires NewlineFreeExcept(ch, NONCE_FIELD)
    requires forall c :: Attested(c) in log ==> NewlineFreeExcept(c, NONCE_FIELD)
    ensures IsFresh(decode(headerValue).value.issuedAt, maxAge, now)
    ensures Attested(Claimed(ch, decode(headerValue).value)) in log
  {
    AcceptsExactly(crypto, decode, headerValue, ch, expectedSigner, maxAge, now);
    var att := decode(headerValue).value;
    var m := AcceptedWasSigned(crypto, decode, headerValue, ch, expectedSigner, maxAge, now, log, circulating);
    var other := AttestedUnder(m, Claimed(ch, att));
    ClaimedNewlineFree(ch, att);
    InjectiveExceptOneField(other, Claimed(ch, att), NONCE_FIELD);
  }

  /** The place of the nonce among the text fields. */
  const NONCE_FIELD := 3

  lemma ClaimedNewlineFree(ch: Challenge, att: Attestation)
    requires NewlineFreeExcept(ch, NONCE_FIELD)
    ensures NewlineFreeExcept(Claimed(ch, att), NONCE_FIELD)
  {
    var fs, gs := Fields(ch), Fields(Claimed(ch, att));
    assert forall i :: 0 <= i < 6 && i != NONCE_FIELD ==> gs[i] == fs[i];
  }

  lemma PlainIsTagFree(ch: Challenge)
    requires forall i :: 0 <= i < 6 ==> NewlineFree(Fields(ch)[i])
    ensures TagFree(ch) && NewlineFreeExcept(ch, NONCE_FIELD)
  {
    forall i | 0 <= i < 5 ensures !HasTag(Fields(ch)[i], i) && !HasTag(Fields(ch)[i + 1], i) {
      if HasTag(Fields(ch)[i], i) {
        TagsStartWithNewline(Fields(ch)[i], i);
      } else if HasTag(Fields(ch)[i + 1], i) {
        TagsStartWithNewline(Fields(ch)[i + 1], i);
      }
    }
  }

  const ZERO_ADDRESS: Address := seq(20, i => 0)
  const ZERO_SIGNATURE: Signature := seq(65, i => 0)

  /** A curve on which one digest alone is ever signed. */
  function OneDigestCurve(digest: Digest): Crypto {
    Crypto((d, k) => if d == digest then Some(ZERO_SIGNATURE) else None,
           (d, s) => if d == digest then Some(ZERO_ADDRESS) else None, k => ZERO_ADDRESS, (a, i) => false)
  }

  lemma OneDigestCurveIsSound(ch: Challenge)
    ensures var crypto := OneDigestCurve(DigestOf(ch));
      Correct(crypto) && Unforgeable(crypto, ZERO_ADDRESS, [Attested(ch)], {ZERO_SIGNATURE})
  {
    assert SignedDigest([Attested(ch)][0]) == DigestOf(ch);
  }

  /**
   The assumptions of the two results above can be met together: for every challenge of plain fields
   with a nonce and a date there is a curve, and an operator who attested it and nothing else.
   */
  lemma SoundnessAssumptionsConsistent(ch: Challenge, key: Key)
    returns (crypto: Crypto, h: string, operator: string)
    requires ch.issuedAt != 0 && ch.nonce != "" && Valid(ch.nonce)
    requires forall i :: 0 <= i < 6 ==> NewlineFree(Fields(ch)[i])
    ensures Correct(crypto)
    ensures Verify(crypto, Decode, h, ch, operator, 0, ch.issuedAt * SECOND).Ok?
    ensures ParseAddress(operator).Some? && SignatureOf(Decode(h).value).Ok?
    ensures Unforgeable(crypto, ParseAddress(operator).value, [Attested(ch)], {SignatureOf(Decode(h).value).value})
    ensures Claimed(ch, Decode(h).value) == ch && TagFree(ch) && NewlineFreeExcept(ch, NONCE_FIELD)
  {
    crypto := OneDigestCurve(DigestOf(ch));
    var env := Env(0, None);
    h := AttestValue(crypto, key, ch, env).value;
    operator := AddressHex(crypto, ZERO_ADDRESS);
    OneDigestCurveIsSound(ch);
    ParsePrintedAddress(crypto, ZERO_ADDRESS);
    DecodeAttested(crypto, key, ch, env, h);
    VerifyAttested(crypto, key, ch, env, h, ch, operator, 0, ch.issuedAt * SECOND);
    CoerceValid(ch.nonce);
    PlainIsTagFree(ch);
  }
}
