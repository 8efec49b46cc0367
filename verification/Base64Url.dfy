/**
 base64.RawURLEncoding: the URL-safe alphabet without padding (sections 3.2 and 5 of RFC 4648).
 The decoder skips CR and LF and does not look at the unused bits of a short last group, as Go's
 non-strict decoder does.
 */
module Base64Url {
  import opened Wrappers
  import opened Text

  function Symbol(v: int): (c: char)
    requires 0 <= v < 64
    ensures Index(c) == Some(v)
  {
    if v < 26 then 'A' + v as char
    else if v < 52 then 'a' + (v - 26) as char
    else if v < 62 then '0' + (v - 52) as char
    else if v == 62 then '-' else '_'
  }

  function Index(c: char): (v: Option<int>)
    ensures v.Some? ==> 0 <= v.value < 64
  {
    if 'A' <= c <= 'Z' then Some((c - 'A') as int)
    else if 'a' <= c <= 'z' then Some((c - 'a') as int + 26)
    else if '0' <= c <= '9' then Some((c - '0') as int + 52)
    else if c == '-' then Some(62)
    else if c == '_' then Some(63)
    else None
  }

  type sextet = v: int | 0 <= v < 64

  function Group(x: byte, y: byte, z: byte): (vs: seq<sextet>)
    ensures |vs| == 4
  {
    [x / 4, x % 4 * 16 + y / 16, y % 16 * 4 + z / 64, z % 64]
  }

  /** Three octets become four sextets; a last group of one or two octets becomes two or three. */
  function Sextets(b: seq<byte>): seq<sextet> {
    if b == [] then []
    else if |b| == 1 then [b[0] / 4, b[0] % 4 * 16]
    else if |b| == 2 then [b[0] / 4, b[0] % 4 * 16 + b[1] / 16, b[1] % 16 * 4]
    else Group(b[0], b[1], b[2]) + Sextets(b[3..])
  }

  function Symbols(vs: seq<sextet>): (s: string)
    ensures forall i :: 0 <= i < |s| ==> Index(s[i]).Some?
  {
    if vs == [] then "" else [Symbol(vs[0])] + Symbols(vs[1..])
  }

  function Encode(b: seq<byte>): string {
    Symbols(Sextets(b))
  }

  /** The line breaks the decoder skips. */
  function StripBreaks(s: string): string {
    if s == "" then ""
    else if s[0] == '\r' || s[0] == '\n' then StripBreaks(s[1..])
    else [s[0]] + StripBreaks(s[1..])
  }

  function Decode(s: string): Option<seq<byte>> {
    match Indices(StripBreaks(s))
    case None => None
    case Some(vs) => DecodeIndices(vs)
  }

  function Indices(s: string): Option<seq<sextet>> {
    if s == "" then Some([])
    else
      match (Index(s[0]), Indices(s[1..]))
      case (Some(v), Some(vs)) => Some([v] + vs)
      case _ => None
  }

  function DecodeIndices(vs: seq<sextet>): Option<seq<byte>> {
    if vs == [] then Some([])
    else if |vs| == 1 then None
    else if |vs| == 2 then Some([First(vs[0], vs[1])])
    else if |vs| == 3 then Some([First(vs[0], vs[1]), Second(vs[1], vs[2])])
    else
      match DecodeIndices(vs[4..])
      case None => None
      case Some(rest) => Some(Ungroup(vs[0], vs[1], vs[2], vs[3]) + rest)
  }

  function First(v0: sextet, v1: sextet): byte { v0 * 4 + v1 / 16 }
  function Second(v1: sextet, v2: sextet): byte { v1 % 16 * 16 + v2 / 4 }
  function Third(v2: sextet, v3: sextet): byte { v2 % 4 * 64 + v3 }

  function Ungroup(v0: sextet, v1: sextet, v2: sextet, v3: sextet): seq<byte> {
    [First(v0, v1), Second(v1, v2), Third(v2, v3)]
  }

  lemma GroupRoundTrip(x: byte, y: byte, z: byte)
    ensures First(x / 4, x % 4 * 16 + y / 16) == x
    ensures Second(x % 4 * 16 + y / 16, y % 16 * 4 + z / 64) == y
    ensures Third(y % 16 * 4 + z / 64, z % 64) == z
  {
  }

  lemma {:induction false} NothingToStrip(s: string)
    requires forall i :: 0 <= i < |s| ==> Index(s[i]).Some?
    ensures StripBreaks(s) == s
    decreases |s|
  {
    if s != "" {
      assert Index(s[0]).Some?;
      NothingToStrip(s[1..]);
      assert s == [s[0]] + s[1..];
    }
  }

  lemma {:induction false} IndicesOfSymbols(vs: seq<sextet>)
    ensures Indices(Symbols(vs)) == Some(vs)
  {
    if vs != [] {
      IndicesOfSymbols(vs[1..]);
      assert Symbols(vs)[1..] == Symbols(vs[1..]);
      assert vs == [vs[0]] + vs[1..];
    }
  }

  lemma OneOctetLeft(x: byte)
    ensures DecodeIndices(Sextets([x])) == Some([x])
  {
  }

  lemma TwoOctetsLeft(x: byte, y: byte)
    ensures DecodeIndices(Sextets([x, y])) == Some([x, y])
  {
  }

  lemma GroupDecodes(x: byte, y: byte, z: byte, rest: seq<sextet>, decoded: seq<byte>)
    requires DecodeIndices(rest) == Some(decoded)
    ensures DecodeIndices(Group(x, y, z) + rest) == Some([x, y, z] + decoded)
  {
    GroupRoundTrip(x, y, z);
    assert (Group(x, y, z) + rest)[4..] == rest;
  }

  lemma {:induction false} SextetsRoundTrip(b: seq<byte>)
    ensures DecodeIndices(Sextets(b)) == Some(b)
    decreases |b|
  {
    if |b| == 1 {
      OneOctetLeft(b[0]);
      assert b == [b[0]];
    } else if |b| == 2 {
      TwoOctetsLeft(b[0], b[1]);
      assert b == [b[0], b[1]];
    } else if |b| > 2 {
      SextetsRoundTrip(b[3..]);
      GroupDecodes(b[0], b[1], b[2], Sextets(b[3..]), b[3..]);
      assert b == [b[0], b[1], b[2]] + b[3..];
    }
  }

  /** Decoding undoes encoding for octet strings of every length. */
  lemma EncodeDecode(b: seq<byte>)
    ensures Decode(Encode(b)) == Some(b)
  {
    IndicesOfSymbols(Sextets(b));
    NothingToStrip(Encode(b));
    SextetsRoundTrip(b);
  }

  // ---- what the decoder accepts ----

  lemma {:induction false} IndicesAccept(s: string)
    ensures Indices(s).Some? <==> forall i :: 0 <= i < |s| ==> Index(s[i]).Some?
    ensures Indices(s).Some? ==> |Indices(s).value| == |s|
    decreases |s|
  {
    if s != "" {
      IndicesAccept(s[1..]);
      assert forall i :: 1 <= i < |s| ==> s[i] == s[1..][i - 1];
    }
  }

  lemma {:induction false} GroupsAccept(vs: seq<sextet>)
    ensures DecodeIndices(vs).Some? <==> |vs| % 4 != 1
    decreases |vs|
  {
    if |vs| >= 4 {
      var rest := vs[4..];
      GroupsAccept(rest);
      assert |vs| % 4 == |rest| % 4;
      assert DecodeIndices(vs).Some? <==> DecodeIndices(rest).Some?;
    }
  }

  lemma {:induction false} StripKeeps(s: string, i: nat)
    requires i < |s| && s[i] !in {'\r', '\n'}
    ensures s[i] in StripBreaks(s)
    decreases |s|
  {
    if i > 0 {
      StripKeeps(s[1..], i - 1);
    }
  }

  lemma {:induction false} StripConcat(s: string, t: string)
    ensures StripBreaks(s + t) == StripBreaks(s) + StripBreaks(t)
    decreases |s|
  {
    if s == "" {
      assert s + t == t;
    } else {
      StripConcat(s[1..], t);
      assert (s + t)[1..] == s[1..] + t;
    }
  }

  /** Line breaks may stand anywhere. */
  lemma BreaksIgnored(s: string, c: char, t: string)
    requires c in {'\r', '\n'}
    ensures Decode(s + ([c] + t)) == Decode(s + t)
  {
    StripConcat(s, [c] + t);
    StripConcat([c], t);
    StripConcat(s, t);
    assert [c][1..] == "";
  }

  /** Symbols of the alphabet, with line breaks anywhere, and no group of a single symbol. */
  lemma DecodeAccepts(s: string)
    ensures Decode(s).Some? <==>
      (forall i :: 0 <= i < |StripBreaks(s)| ==> Index(StripBreaks(s)[i]).Some?) && |StripBreaks(s)| % 4 != 1
  {
    var t := StripBreaks(s);
    IndicesAccept(t);
    if Indices(t).Some? {
      GroupsAccept(Indices(t).value);
    }
  }

  /** Vectors of section 10 of RFC 4648 without their padding, and one that shows the URL-safe symbols. */
  lemma KnownVectors()
    ensures Encode([102]) == "Zg" && Encode([102, 111]) == "Zm8" && Encode([102, 111, 111]) == "Zm9v"
    ensures Encode([0xFB, 0xFF]) == "-_8"
  {
    var foo: seq<byte> := [102, 111, 111];
    assert foo[3..] == [];
    assert Sextets(foo) == [25, 38, 61, 47];
    assert Sextets([102]) == [25, 32];
    assert Sextets([102, 111]) == [25, 38, 60];
    assert Sextets([0xFB, 0xFF]) == [62, 63, 60];
    SymbolsAt([25, 38, 61, 47]);
    SymbolsAt([25, 32]);
    SymbolsAt([25, 38, 60]);
    SymbolsAt([62, 63, 60]);
  }

  lemma {:induction false} SymbolsAt(vs: seq<sextet>)
    ensures |Symbols(vs)| == |vs| && forall i :: 0 <= i < |vs| ==> Symbols(vs)[i] == Symbol(vs[i])
    decreases |vs|
  {
    if vs != [] {
      SymbolsAt(vs[1..]);
      assert forall i :: 1 <= i < |vs| ==> vs[i] == vs[1..][i - 1];
    }
  }
}
