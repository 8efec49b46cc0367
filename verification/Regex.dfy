/**
 The three regular expressions of tunnel/config/config.go as they are written, and proofs that the
 predicates of the validation recognise exactly their languages.
 */
module Regex {
  import opened Text
  import opened Config
  import Hex

  /** A run of characters of a class, or an optional group; an expression is anchored at both ends. */
  datatype Piece =
    | Run(member: char -> bool, least: nat, most: nat)
    | RunFrom(member: char -> bool, least: nat)
    | Optional(group: seq<Piece>)

  ghost predicate PieceMatches(p: Piece, s: string)
    decreases p, 0
  {
    match p
    case Run(member, least, most) => least <= |s| <= most && forall i :: 0 <= i < |s| ==> member(s[i])
    case RunFrom(member, least) => least <= |s| && forall i :: 0 <= i < |s| ==> member(s[i])
    case Optional(group) => s == "" || Matches(group, s)
  }

  ghost predicate Matches(ps: seq<Piece>, s: string)
    decreases ps, 1
  {
    if ps == [] then s == ""
    else exists i :: SplitsAt(ps, s, i)
  }

  ghost predicate SplitsAt(ps: seq<Piece>, s: string, i: int)
    requires ps != []
    decreases ps, 0
  {
    0 <= i <= |s| && PieceMatches(ps[0], s[..i]) && Matches(ps[1..], s[i..])
  }

  lemma FirstPiece(ps: seq<Piece>, s: string) returns (i: nat)
    requires ps != [] && Matches(ps, s)
    ensures i <= |s| && PieceMatches(ps[0], s[..i]) && Matches(ps[1..], s[i..])
  {
    i :| SplitsAt(ps, s, i);
  }

  lemma Joined(p: Piece, ps: seq<Piece>, s: string, i: nat)
    requires i <= |s| && PieceMatches(p, s[..i]) && Matches(ps, s[i..])
    ensures Matches([p] + ps, s)
  {
    assert ([p] + ps)[1..] == ps;
    assert SplitsAt([p] + ps, s, i);
  }

  lemma Single(p: Piece, s: string)
    ensures Matches([p], s) <==> PieceMatches(p, s)
  {
    if Matches([p], s) {
      var i := FirstPiece([p], s);
      assert [p][1..] == [] && s[i..] == "" && s[..i] == s;
    }
    if PieceMatches(p, s) {
      assert s[..|s|] == s && s[|s|..] == "";
      Joined(p, [], s, |s|);
      assert [p] + [] == [p];
    }
  }

  /** One character of a class and then one more piece. */
  lemma OneThen(member: char -> bool, q: Piece, t: string)
    ensures Matches([Run(member, 1, 1)] + [q], t) <==> t != "" && member(t[0]) && PieceMatches(q, t[1..])
  {
    var ps := [Run(member, 1, 1)] + [q];
    assert ps[0] == Run(member, 1, 1) && ps[1..] == [q];
    if Matches(ps, t) {
      var i := FirstPiece(ps, t);
      Single(q, t[i..]);
      assert i == 1 && t[..1][0] == t[0];
    }
    if t != "" && member(t[0]) && PieceMatches(q, t[1..]) {
      Single(q, t[1..]);
      Joined(Run(member, 1, 1), [q], t, 1);
    }
  }

  predicate IsDollar(c: char) { c == '$' }
  predicate IsPoint(c: char) { c == '.' }
  predicate IsDecimalDigit(c: char) { '0' <= c <= '9' }
  predicate IsColon(c: char) { c == ':' }
  predicate IsLowerOrDigit(c: char) { 'a' <= c <= 'z' || '0' <= c <= '9' }
  predicate IsWordOrHyphen(c: char) { c == '-' || c == '_' || 'a' <= c <= 'z' || 'A' <= c <= 'Z' || '0' <= c <= '9' }
  predicate IsZero(c: char) { c == '0' }
  predicate IsX(c: char) { c == 'x' }
  predicate IsHexDigit(c: char) { '0' <= c <= '9' || 'a' <= c <= 'f' || 'A' <= c <= 'F' }

  // ---- ^0x[0-9a-fA-F]{40}$ ----

  function AddressPattern(): seq<Piece> { [Run(IsZero, 1, 1)] + ([Run(IsX, 1, 1)] + [Run(IsHexDigit, 40, 40)]) }

  lemma HexDigitsExactly(s: string)
    ensures Hex.IsHex(s) <==> forall i :: 0 <= i < |s| ==> IsHexDigit(s[i])
  {
  }

  lemma PrefixedDigits(t: string)
    ensures Matches([Run(IsX, 1, 1)] + [Run(IsHexDigit, 40, 40)], t) <==> |t| == 41 && t[0] == 'x' && Hex.IsHex(t[1..])
  {
    OneThen(IsX, Run(IsHexDigit, 40, 40), t);
    if t != "" {
      HexDigitsExactly(t[1..]);
    }
  }

  lemma AddressExactly(s: string)
    ensures IsAddress(s) <==> Matches(AddressPattern(), s)
  {
    var x := [Run(IsX, 1, 1)] + [Run(IsHexDigit, 40, 40)];
    if IsAddress(s) {
      assert s[0] == "0x"[0] && s[1] == "0x"[1];
      assert s[1..][1..] == s[2..];
      PrefixedDigits(s[1..]);
      Joined(Run(IsZero, 1, 1), x, s, 1);
    }
    if Matches(AddressPattern(), s) {
      var i := FirstPiece(AddressPattern(), s);
      assert AddressPattern()[1..] == x;
      PrefixedDigits(s[i..]);
      PrefixRead(s);
    }
  }

  lemma PrefixRead(s: string)
    requires |s| == 42 && s[..1][0] == '0' && s[1..][0] == 'x' && Hex.IsHex(s[1..][1..])
    ensures IsAddress(s)
  {
    assert s[1..][1..] == s[2..];
    assert s[..2] == "0x";
  }

  // ---- ^[a-z0-9]{3,8}:[-_a-zA-Z0-9]{1,32}$ ----

  function ReferencePattern(): seq<Piece> { [Run(IsColon, 1, 1)] + [Run(IsWordOrHyphen, 1, 32)] }

  function NetworkPattern(): seq<Piece> { [Run(IsLowerOrDigit, 3, 8)] + ReferencePattern() }

  lemma ReferenceExactly(t: string)
    ensures Matches(ReferencePattern(), t) <==>
      2 <= |t| <= 33 && t[0] == ':' && forall k :: 1 <= k < |t| ==> IsWordOrHyphen(t[k])
  {
    OneThen(IsColon, Run(IsWordOrHyphen, 1, 32), t);
    assert forall k :: 1 <= k < |t| ==> t[k] == t[1..][k - 1];
  }

  lemma NetworkSplitExactly(s: string, i: nat)
    requires i <= |s|
    ensures i < |s| && IsNetworkSplitAt(s, i) <==>
      PieceMatches(Run(IsLowerOrDigit, 3, 8), s[..i]) && Matches(ReferencePattern(), s[i..])
  {
    ReferenceExactly(s[i..]);
    assert forall k :: i < k < |s| ==> s[k] == s[i..][k - i];
    assert forall k :: 1 <= k < |s[i..]| ==> s[i..][k] == s[k + i];
    assert forall k :: 0 <= k < i ==> s[k] == s[..i][k];
  }

  lemma NetworkExactly(s: string)
    ensures IsNetwork(s) <==> Matches(NetworkPattern(), s)
  {
    if IsNetwork(s) {
      var i: nat :| i < |s| && IsNetworkSplitAt(s, i);
      NetworkSplitExactly(s, i);
      Joined(Run(IsLowerOrDigit, 3, 8), ReferencePattern(), s, i);
    }
    if Matches(NetworkPattern(), s) {
      var i := FirstPiece(NetworkPattern(), s);
      assert NetworkPattern()[1..] == ReferencePattern();
      NetworkSplitExactly(s, i);
    }
  }

  // ---- ^\$?\d+(\.\d+)?$ ----

  function FractionPattern(): seq<Piece> { [Run(IsPoint, 1, 1)] + [RunFrom(IsDecimalDigit, 1)] }

  function AmountPattern(): seq<Piece> { [RunFrom(IsDecimalDigit, 1)] + [Optional(FractionPattern())] }

  function PricePattern(): seq<Piece> { [Run(IsDollar, 0, 1)] + AmountPattern() }

  lemma DigitsExactly(s: string)
    ensures PieceMatches(RunFrom(IsDecimalDigit, 1), s) <==> s != "" && AllDigits(s)
  {
  }

  lemma FractionExactly(s: string)
    ensures Matches(FractionPattern(), s) <==> |s| > 1 && s[0] == '.' && AllDigits(s[1..])
  {
    OneThen(IsPoint, RunFrom(IsDecimalDigit, 1), s);
    if s != "" {
      DigitsExactly(s[1..]);
    }
  }

  lemma AmountSplitExactly(s: string, n: nat)
    requires n <= |s|
    ensures PieceMatches(RunFrom(IsDecimalDigit, 1), s[..n]) && PieceMatches(Optional(FractionPattern()), s[n..])
       <==> IsAmountSplitAt(s, n)
  {
    DigitsExactly(s[..n]);
    FractionExactly(s[n..]);
    if n < |s| {
      assert s[n..][0] == s[n] && s[n..][1..] == s[n + 1..];
    } else {
      assert s[n..] == "";
    }
  }

  lemma AmountExactly(s: string)
    ensures Matches(AmountPattern(), s) <==> exists n: nat :: n <= |s| && IsAmountSplitAt(s, n)
  {
    var fraction := Optional(FractionPattern());
    if Matches(AmountPattern(), s) {
      var n := FirstPiece(AmountPattern(), s);
      assert AmountPattern()[1..] == [fraction];
      Single(fraction, s[n..]);
      AmountSplitExactly(s, n);
    }
    if exists n: nat :: n <= |s| && IsAmountSplitAt(s, n) {
      var n: nat :| n <= |s| && IsAmountSplitAt(s, n);
      AmountSplitExactly(s, n);
      Single(fraction, s[n..]);
      Joined(RunFrom(IsDecimalDigit, 1), [fraction], s, n);
    }
  }

  lemma AmountHasNoDollar(t: string)
    requires Matches(AmountPattern(), t)
    ensures t != "" && t[0] != '$'
  {
    AmountExactly(t);
    var n: nat :| n <= |t| && IsAmountSplitAt(t, n);
    assert t[0] == t[..n][0];
  }

  lemma PriceExactly(s: string)
    ensures IsPrice(s) <==> Matches(PricePattern(), s)
  {
    var t := TrimPrefix(s, "$");
    AmountExactly(t);
    if IsPrice(s) {
      assert s[|s| - |t|..] == t;
      Joined(Run(IsDollar, 0, 1), AmountPattern(), s, |s| - |t|);
    }
    if Matches(PricePattern(), s) {
      var i := FirstPiece(PricePattern(), s);
      assert PricePattern()[1..] == AmountPattern();
      AmountHasNoDollar(s[i..]);
      DollarTrimmed(s, i);
    }
  }

  lemma DollarTrimmed(s: string, i: nat)
    requires i <= |s| && PieceMatches(Run(IsDollar, 0, 1), s[..i]) && s[i..] != "" && s[i..][0] != '$'
    ensures TrimPrefix(s, "$") == s[i..]
  {
    if i == 0 {
      assert s[0..] == s;
    } else {
      assert s[..1] == "$";
    }
  }
}
