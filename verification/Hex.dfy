/** encoding/hex as the attestation uses it: lower-case output, either case accepted on input. */
module Hex {
  import opened Wrappers
  import opened Text

  function Digit(d: int): (c: char)
    requires 0 <= d < 16
    ensures Value(c) == Some(d)
  {
    if d < 10 then '0' + d as char else 'a' + (d - 10) as char
  }

  /** The value of a hexadecimal digit, in either case. */
  function Value(c: char): (v: Option<int>)
    ensures v.Some? ==> 0 <= v.value < 16
  {
    if '0' <= c <= '9' then Some((c - '0') as int)
    else if 'a' <= c <= 'f' then Some((c - 'a') as int + 10)
    else if 'A' <= c <= 'F' then Some((c - 'A') as int + 10)
    else None
  }

  /** The digits of either case, and nothing else. */
  lemma ValueExactly(c: char)
    ensures Value(c).Some? <==> c in "0123456789abcdefABCDEF"
  {
    var all := "0123456789abcdefABCDEF";
    if '0' <= c <= '9' {
      assert all[(c - '0') as int] == c;
    } else if 'a' <= c <= 'f' {
      assert all[(c - 'a') as int + 10] == c;
    } else if 'A' <= c <= 'F' {
      assert all[(c - 'A') as int + 16] == c;
    }
  }

  predicate AllInAlphabet(s: string) { forall i :: 0 <= i < |s| ==> s[i] in "0123456789abcdefABCDEF" }

  lemma IsHexExactly(s: string)
    ensures IsHex(s) <==> AllInAlphabet(s)
  {
    forall i | 0 <= i < |s| ensures Value(s[i]).Some? <==> s[i] in "0123456789abcdefABCDEF" {
      ValueExactly(s[i]);
    }
  }

  predicate IsHex(s: string) { forall i :: 0 <= i < |s| ==> Value(s[i]).Some? }

  function Encode(bytes: seq<byte>): (s: string)
    ensures |s| == 2 * |bytes|
  {
    if bytes == [] then "" else [Digit(bytes[0] / 16), Digit(bytes[0] % 16)] + Encode(bytes[1..])
  }

  /** hex.DecodeString: pairs of digits, or an error for an odd length or a foreign character. */
  function Decode(s: string): Option<seq<byte>> {
    if s == "" then Some([])
    else if |s| == 1 then None
    else
      match (Value(s[0]), Value(s[1]), Decode(s[2..]))
      case (Some(hi), Some(lo), Some(rest)) => Some([16 * hi + lo] + rest)
      case _ => None
  }

  lemma {:induction false} EncodeDecode(bytes: seq<byte>)
    ensures Decode(Encode(bytes)) == Some(bytes)
  {
    if bytes != [] {
      EncodeDecode(bytes[1..]);
      assert Encode(bytes)[2..] == Encode(bytes[1..]);
      assert bytes == [bytes[0]] + bytes[1..];
    }
  }

  /** Two strings that differ only in the case of their hexadecimal digits. */
  predicate SameDigits(s: string, t: string) {
    |s| == |t| && forall i :: 0 <= i < |s| ==> Value(s[i]) == Value(t[i])
  }

  lemma {:induction false} DecodeIgnoresCase(s: string, t: string)
    requires SameDigits(s, t)
    ensures Decode(s) == Decode(t)
    decreases |s|
  {
    if |s| > 1 {
      assert forall i :: 0 <= i < |s| - 2 ==> s[2..][i] == s[i + 2] && t[2..][i] == t[i + 2];
      DecodeIgnoresCase(s[2..], t[2..]);
    }
  }

  /** What decodes, and to how many octets. */
  lemma {:induction false} DecodeAccepts(s: string)
    ensures Decode(s).Some? <==> |s| % 2 == 0 && IsHex(s)
    ensures Decode(s).Some? ==> |Decode(s).value| == |s| / 2
    decreases |s|
  {
    if |s| > 1 {
      DecodeAccepts(s[2..]);
      if IsHex(s) {
        assert forall i :: 0 <= i < |s| - 2 ==> s[2..][i] == s[i + 2];
      } else {
        var i :| 0 <= i < |s| && Value(s[i]).None?;
        if i >= 2 {
          assert Value(s[2..][i - 2]).None?;
        }
      }
    }
  }

  lemma {:induction false} EncodeIsHex(bytes: seq<byte>)
    ensures IsHex(Encode(bytes))
    ensures forall c :: c in Encode(bytes) ==> '0' <= c <= '9' || 'a' <= c <= 'f'
  {
    if bytes != [] {
      EncodeIsHex(bytes[1..]);
    }
  }
}
