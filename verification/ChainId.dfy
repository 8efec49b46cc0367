/**
 The two parsers for the chain ID of an eip155 network (tunnel/config/config.go): math/big without a
 bound for x402, and strconv in 64-bit words for MPP.
 */
module ChainId {
  import opened Wrappers
  import opened Text

  const EIP155_PREFIX := "eip155:"
  const MAX_UINT64 := 0xFFFF_FFFF_FFFF_FFFF
  const TWO_64 := 0x1_0000_0000_0000_0000

  /** big.Int.SetString in base 10: a sign if any, then digits to the end. */
  function ParseBig(s: string): Option<int> {
    var signed := s != "" && s[0] in {'+', '-'};
    var digits := if signed then s[1..] else s;
    if digits == "" || !AllDigits(digits) then None
    else
      var magnitude: int := DigitsValue(digits);
      Some(if s[0] == '-' then -magnitude else magnitude)
  }

  /** Config.ChainID. */
  function ChainID(network: string): Option<int> {
    if HasPrefix(network, EIP155_PREFIX) then ParseBig(network[|EIP155_PREFIX|..]) else None
  }

  lemma ParsesUnsigned(digits: string)
    requires digits != "" && AllDigits(digits)
    ensures ParseBig(digits) == Some(DigitsValue(digits) as int)
  {
    assert IsDigit(digits[0]);
  }

  lemma ParsesSigned(sign: char, digits: string)
    requires sign in {'+', '-'} && digits != "" && AllDigits(digits)
    ensures ParseBig([sign] + digits) ==
      Some(if sign == '-' then -(DigitsValue(digits) as int) else DigitsValue(digits) as int)
  {
    assert ([sign] + digits)[1..] == digits;
  }

  lemma ParsesBack(digits: string)
    requires digits != "" && AllDigits(digits)
    ensures ParseBig(digits) == ParseBig("+" + digits) == ParseBig("0" + digits) == Some(DigitsValue(digits) as int)
    ensures ParseBig("-" + digits) == Some(-(DigitsValue(digits) as int))
  {
    LeadingZero(digits);
    ParsesUnsigned(digits);
    ParsesUnsigned("0" + digits);
    ParsesSigned('+', digits);
    ParsesSigned('-', digits);
  }

  /** Every integer's chain ID is read back, however large, and with a leading plus or zero too. */
  lemma ChainIDRoundTrip(n: int)
    ensures ChainID("eip155:" + Decimal(n)) == Some(n)
    ensures n >= 0 ==> ChainID("eip155:" + ("+" + Decimal(n))) == Some(n)
    ensures n >= 0 ==> ChainID("eip155:" + ("0" + Decimal(n))) == Some(n)
  {
    var magnitude: nat := if n < 0 then -n else n;
    DigitsRoundTrip(magnitude);
    ParsesBack(NatDigits(magnitude));
    AfterPrefix(Decimal(n));
    AfterPrefix("+" + Decimal(n));
    AfterPrefix("0" + Decimal(n));
  }

  lemma AfterPrefix(t: string)
    ensures ChainID("eip155:" + t) == ParseBig(t)
  {
    assert ("eip155:" + t)[|EIP155_PREFIX|..] == t;
  }

  lemma {:induction false} LeadingZero(digits: string)
    requires AllDigits(digits)
    ensures AllDigits("0" + digits) && DigitsValue("0" + digits) == DigitsValue(digits)
    decreases |digits|
  {
    var s := "0" + digits;
    if digits == "" {
      assert s[..0] == "";
    } else {
      LeadingZero(digits[..|digits| - 1]);
      assert s[..|s| - 1] == "0" + digits[..|digits| - 1];
    }
  }

  /** Nothing else is a chain ID: not another namespace, not an empty number, not a foreign character. */
  lemma NotAChainID(network: string)
    requires !("eip155:" <= network) || network in {"eip155:", "eip155:+", "eip155:-"}
      || exists i :: 8 <= i < |network| && !IsDigit(network[i])
    ensures ChainID(network).None?
  {
    if "eip155:" <= network {
      var t := network[7..];
      assert forall i :: 8 <= i < |network| ==> network[i] == t[i - 7];
      if t != "" && t[0] in {'+', '-'} {
        assert forall i :: 8 <= i < |network| ==> network[i] == t[1..][i - 8];
      }
    }
  }

  /** The chain IDs that fit a 64-bit word. */
  function FitInt64(id: Option<int>): Option<int64> {
    match id
    case Some(v) => if InInt64(v) then Some(v) else None
    case None => None
  }

  /** Config.MPPChainID, as the method of that name below computes it. */
  function MPPChainID(network: string): Option<int64> { FitInt64(ChainID(network)) }

  function UintValue(s: string): Option<int> {
    if s != "" && AllDigits(s) && DigitsValue(s) <= MAX_UINT64 then Some(DigitsValue(s) as int) else None
  }

  lemma {:induction false} PrefixValueSmaller(s: string, i: nat)
    requires AllDigits(s) && i <= |s|
    ensures DigitsValue(s[..i]) <= DigitsValue(s)
    decreases |s|
  {
    if i < |s| {
      PrefixValueSmaller(s[..|s| - 1], i);
      assert s[..|s| - 1][..i] == s[..i];
    } else {
      assert s[..i] == s;
    }
  }

  lemma PrefixTooLarge(s: string, i: nat)
    requires i <= |s| && AllDigits(s[..i]) && DigitsValue(s[..i]) > MAX_UINT64
    ensures UintValue(s).None?
  {
    if AllDigits(s) {
      PrefixValueSmaller(s, i);
    }
  }

  lemma NextDigit(s: string, i: nat)
    requires i < |s| && AllDigits(s[..i]) && IsDigit(s[i])
    ensures AllDigits(s[..i + 1]) && DigitsValue(s[..i + 1]) == DigitsValue(s[..i]) * 10 + DigitValue(s[i])
  {
    assert s[..i + 1][..i] == s[..i];
  }

  /** strconv.ParseUint in base 10: a wrap-around is noticed before or just after it happens. */
  method ParseUint64(s: string) returns (r: Option<int>)
    ensures r == UintValue(s)
  {
    if s == "" {
      return None;
    }
    var cutoff := MAX_UINT64 / 10 + 1;
    var n: int := 0;
    for i := 0 to |s|
      invariant AllDigits(s[..i]) && n == DigitsValue(s[..i]) <= MAX_UINT64
    {
      if !IsDigit(s[i]) {
        return None;
      }
      NextDigit(s, i);
      var d := DigitValue(s[i]);
      if n >= cutoff {
        PrefixTooLarge(s, i + 1);
        return None;
      }
      n := n * 10 % TWO_64;
      var n1 := (n + d) % TWO_64;
      if n1 < n || n1 > MAX_UINT64 {
        PrefixTooLarge(s, i + 1);
        return None;
      }
      n := n1;
    }
    assert s[..|s|] == s;
    return Some(n);
  }

  /** strconv.ParseInt in base 10: the two parsers agree on everything a 64-bit word can hold. */
  method ParseInt64(s: string) returns (r: Option<int64>)
    ensures r == FitInt64(ParseBig(s))
  {
    if s == "" {
      return None;
    }
    var neg := s[0] == '-';
    var digits := if s[0] == '+' || neg then s[1..] else s;
    var un := ParseUint64(digits);
    if un.None? {
      return None;
    }
    var cutoff := TWO_64 / 2;
    if !neg && un.value >= cutoff {
      return None;
    }
    if neg && un.value > cutoff {
      return None;
    }
    return Some(if neg then -un.value else un.value);
  }

  /**
   The 64-bit parse of a network succeeds exactly when the unbounded one yields a 64-bit number, and
   then they are equal.
   */
  method MPPChainIDOf(network: string) returns (r: Option<int64>)
    ensures r == FitInt64(ChainID(network))
  {
    if !HasPrefix(network, EIP155_PREFIX) {
      return None;
    }
    r := ParseInt64(network[|EIP155_PREFIX|..]);
  }
}
