/**
 The byte string an attestation signs (tunnel/internal/attest/attest.go, Challenge.canonical), and
 exactly when it determines the challenge it came from.
 */
module Canonical {
  import opened Text

  datatype Challenge = Challenge(
    robotID: string,
    httpMethod: string,
    path: string,
    paymentRequired: string,
    wwwAuthenticate: string,
    issuedAt: int64,
    nonce: string)

  const MESSAGE_PREFIX := "RoboPay-Payment-Requirements-v1"

  /** The labelled values in signing order; the timestamp is printed with %d. */
  function Lines(ch: Challenge): seq<(string, string)> {
    [("robot_id", ch.robotID),
     ("method", ch.httpMethod),
     ("path", ch.path),
     ("issued_at", Decimal(ch.issuedAt)),
     ("nonce", ch.nonce),
     ("payment_required", ch.paymentRequired),
     ("www_authenticate", ch.wwwAuthenticate)]
  }

  /** What precedes a value on its line. */
  function Label(name: string): string { "\n" + name + ":" }

  function Render(lines: seq<(string, string)>): string {
    if lines == [] then "" else Label(lines[0].0) + (lines[0].1 + Render(lines[1..]))
  }

  function CanonicalBytes(ch: Challenge): string {
    MESSAGE_PREFIX + Render(Lines(ch))
  }

  /** Challenge.canonical: a builder filled line by line. */
  method WriteCanonical(ch: Challenge) returns (b: string)
    ensures b == CanonicalBytes(ch)
  {
    b := WriteLines(MESSAGE_PREFIX, Lines(ch));
  }

  method WriteLines(start: string, lines: seq<(string, string)>) returns (b: string)
    ensures b == start + Render(lines)
  {
    b := start;
    for i := 0 to |lines|
      invariant b + Render(lines[i..]) == start + Render(lines)
    {
      assert lines[i..][1..] == lines[i + 1..];
      b := b + "\n";
      b := b + lines[i].0;
      b := b + ":";
      b := b + lines[i].1;
    }
    assert lines[|lines|..] == [];
  }

  /** The documented bytes: newline-delimited, the fields in this order, headers verbatim. */
  lemma DocumentedLayout(ch: Challenge)
    ensures CanonicalBytes(ch) ==
      "RoboPay-Payment-Requirements-v1" + ("\nrobot_id:" + (ch.robotID + ("\nmethod:" + (ch.httpMethod
      + ("\npath:" + (ch.path + ("\nissued_at:" + (Decimal(ch.issuedAt) + ("\nnonce:" + (ch.nonce
      + ("\npayment_required:" + (ch.paymentRequired + ("\nwww_authenticate:" + ch.wwwAuthenticate)))))))))))))
  {
    var lines := Lines(ch);
    LastLines(ch);
    RenderStep(lines, 3);
    RenderStep(lines, 2);
    RenderStep(lines, 1);
    RenderStep(lines, 0);
    assert lines[0..] == lines;
    FirstLabels();
  }

  lemma FirstLabels()
    ensures Label("robot_id") == "\nrobot_id:" && Label("method") == "\nmethod:"
    ensures Label("path") == "\npath:" && Label("issued_at") == "\nissued_at:"
  {
  }

  lemma LastLabels()
    ensures Label("nonce") == "\nnonce:" && Label("payment_required") == "\npayment_required:"
    ensures Label("www_authenticate") == "\nwww_authenticate:"
  {
  }

  lemma LastLines(ch: Challenge)
    ensures Render(Lines(ch)[4..]) == "\nnonce:" + (ch.nonce
      + ("\npayment_required:" + (ch.paymentRequired + ("\nwww_authenticate:" + ch.wwwAuthenticate))))
  {
    var lines := Lines(ch);
    RenderStep(lines, 6);
    RenderStep(lines, 5);
    RenderStep(lines, 4);
    var last := Render(lines[7..]);
    assert last == "" && ch.wwwAuthenticate + last == ch.wwwAuthenticate;
    LastLabels();
  }

  // ---- a canonical string as text fields joined by tags ----

  const METHOD_TAG := Label("method")
  const PATH_TAG := Label("path")
  const PAYMENT_TAG := Label("payment_required")
  const WWW_TAG := Label("www_authenticate")

  /** The timestamp line together with the label of the nonce: the only tag that varies. */
  function IssuedTag(issuedAt: int): string {
    Label("issued_at") + Decimal(issuedAt) + Label("nonce")
  }

  function Fields(ch: Challenge): seq<string> {
    [ch.robotID, ch.httpMethod, ch.path, ch.nonce, ch.paymentRequired, ch.wwwAuthenticate]
  }

  function Tags(ch: Challenge): seq<string> {
    [METHOD_TAG, PATH_TAG, IssuedTag(ch.issuedAt), PAYMENT_TAG, WWW_TAG]
  }

  function Join(fields: seq<string>, tags: seq<string>): string
    requires |fields| == |tags| + 1
  {
    if tags == [] then fields[0] else fields[0] + (tags[0] + Join(fields[1..], tags[1..]))
  }

  /** Two strings agree when one is a prefix of the other. */
  predicate Agree(x: string, y: string) {
    forall k :: 0 <= k < |x| && k < |y| ==> x[k] == y[k]
  }

  /** No copy of `y` starts strictly inside a copy of `x`. */
  predicate NoOverlap(x: string, y: string) {
    forall k :: 0 < k < |x| ==> !Agree(x[k..], y)
  }

  /** Copies of the two tags never touch, and never start together. */
  predicate Apart(x: string, y: string) {
    NoOverlap(x, y) && NoOverlap(y, x) && !Agree(x, y)
  }

  /** Tags at one position do not overlap, and are equal if they agree. */
  predicate SamePlace(t: string, u: string) {
    NoOverlap(t, u) && NoOverlap(u, t) && (Agree(t, u) ==> t == u)
  }

  /** Each tag of `ts` is apart from the tag of the other reading one position before it. */
  predicate Chained(prev: string, ts: seq<string>, us: seq<string>)
    requires |ts| == |us|
    decreases |ts|
  {
    ts == [] || (Apart(ts[0], prev) && Chained(us[0], ts[1..], us[1..]))
  }

  /** All that telling two readings of one string apart relies on. */
  predicate Separable(ts: seq<string>, us: seq<string>)
    requires |ts| == |us|
  {
    ts == [] ||
    (&& SamePlace(ts[0], us[0])
     && Chained(us[0], ts[1..], us[1..])
     && Chained(ts[0], us[1..], ts[1..])
     && Separable(ts[1..], us[1..]))
  }

  /** Two tags found in the same string, the second no earlier than the first, agree where they overlap. */
  lemma OverlapAgrees(s: string, x: string, p: int, y: string, q: int)
    requires 0 <= p <= q && ContainsAt(s, x, p) && ContainsAt(s, y, q)
    ensures q <= p + |x| ==> Agree(x[q - p..], y)
  {
  }

  /** Tags that cannot be mistaken for one another are found at distinct, non-overlapping places. */
  lemma ApartInOrder(s: string, x: string, p: int, y: string, q: int)
    requires Apart(x, y) && ContainsAt(s, x, p) && ContainsAt(s, y, q)
    ensures p + |x| <= q || q + |y| <= p
  {
    if p <= q {
      OverlapAgrees(s, x, p, y, q);
      assert x[0..] == x;
    } else {
      OverlapAgrees(s, y, q, x, p);
    }
  }

  /** One step of a reading that has overrun by `m`: its field swallows the tag, or it stays overrun. */
  lemma OverrunStep(f: string, t: string, fRest: string, m: string, prev: string, g: string, u: string, gRest: string)
    returns (m': string)
    requires f + (t + fRest) == m + prev + (g + (u + gRest))
    requires Apart(t, prev)
    ensures Contains(f, prev) || fRest == m' + u + gRest
  {
    var s := f + (t + fRest);
    m' := "";
    if |m| + |prev| <= |f| {
      assert f == s[..|f|];
      assert ContainsAt(f, prev, |m|);
    } else {
      assert ContainsAt(s, t, |f|) && ContainsAt(s, prev, |m|);
      ApartInOrder(s, t, |f|, prev, |m|);
      m' := m[|f| + |t|..] + prev + g;
      assert fRest == s[|f| + |t|..];
    }
  }

  /**
   Reading `fs` when the other reading has already overrun by `m`: some later field must
   swallow the tag that precedes it in the other reading.
   */
  lemma {:induction false} Overrun(fs: seq<string>, ts: seq<string>, m: string, prev: string, gs: seq<string>,
          us: seq<string>)
    returns (i: nat)
    requires |fs| == |ts| + 1 == |gs| && |ts| == |us|
    requires Join(fs, ts) == m + prev + Join(gs, us)
    requires Chained(prev, ts, us)
    ensures i < |fs| && Contains(fs[i], ([prev] + us)[i])
    decreases |fs|
  {
    if ts == [] {
      assert fs[0] == m + prev + gs[0];
      ContainsSplit(fs[0], m, prev, gs[0]);
      return 0;
    }
    var m' := OverrunStep(fs[0], ts[0], Join(fs[1..], ts[1..]), m, prev, gs[0], us[0], Join(gs[1..], us[1..]));
    if Contains(fs[0], prev) {
      return 0;
    }
    var i' := Overrun(fs[1..], ts[1..], m', us[0], gs[1..], us[1..]);
    return i' + 1;
  }

  /** How two different readings of one string must differ: one field swallows the tag after it,
      and a later field of the other reading swallows the tag before it. */
  ghost predicate Swallows(fs: seq<string>, ts: seq<string>, gs: seq<string>, us: seq<string>, i: nat, j: nat)
    requires |fs| == |ts| + 1 == |gs| && |ts| == |us|
  {
    j < i < |fs| && Contains(gs[j], ts[j]) && Contains(fs[i], us[i - 1])
  }

  /** Fields of equal length at the same place are the same field, followed by the same tag. */
  lemma SameFirstField(f: string, t: string, fRest: string, g: string, u: string, gRest: string)
    requires f + (t + fRest) == g + (u + gRest)
    requires |f| == |g| && SamePlace(t, u)
    ensures f == g && t == u && fRest == gRest
  {
    SamePrefixLength(f, t + fRest, g, u + gRest);
    var s := t + fRest;
    forall k | 0 <= k < |t| && k < |u| ensures t[k] == u[k] {
      assert t[k] == s[k] && u[k] == (u + gRest)[k];
    }
    assert Agree(t, u);
    SamePrefixLength(t, fRest, u, gRest);
  }

  lemma SamePrefixLength(f: string, x: string, g: string, y: string)
    requires f + x == g + y && |f| == |g|
    ensures f == g && x == y
  {
    assert f == (f + x)[..|f|] && g == (g + y)[..|g|];
    assert x == (f + x)[|f|..] && y == (g + y)[|g|..];
  }

  lemma {:induction false} TwoReadings(fs: seq<string>, ts: seq<string>, gs: seq<string>, us: seq<string>)
    returns (i: nat, j: nat)
    requires |fs| == |ts| + 1 == |gs| && |ts| == |us|
    requires Join(fs, ts) == Join(gs, us)
    requires Separable(ts, us)
    ensures (fs == gs && ts == us) || Swallows(fs, ts, gs, us, i, j) || Swallows(gs, us, fs, ts, i, j)
    decreases |fs|
  {
    i, j := 0, 0;
    if ts == [] {
      return;
    }
    if |fs[0]| == |gs[0]| {
      SameFirstField(fs[0], ts[0], Join(fs[1..], ts[1..]), gs[0], us[0], Join(gs[1..], us[1..]));
      i, j := TwoReadings(fs[1..], ts[1..], gs[1..], us[1..]);
      i, j := i + 1, j + 1;
      assert fs == [fs[0]] + fs[1..] && gs == [gs[0]] + gs[1..];
      assert ts == [ts[0]] + ts[1..] && us == [us[0]] + us[1..];
    } else if |fs[0]| < |gs[0]| {
      i := FirstDifference(fs, ts, gs, us);
    } else {
      i := FirstDifference(gs, us, fs, ts);
    }
  }

  lemma FirstDifference(fs: seq<string>, ts: seq<string>, gs: seq<string>, us: seq<string>) returns (i: nat)
    requires |fs| == |ts| + 1 == |gs| && |ts| == |us| > 0
    requires Join(fs, ts) == Join(gs, us)
    requires NoOverlap(ts[0], us[0]) && Chained(us[0], ts[1..], us[1..])
    requires |fs[0]| < |gs[0]|
    ensures Swallows(fs, ts, gs, us, i, 0)
  {
    var s := Join(fs, ts);
    assert ContainsAt(s, ts[0], |fs[0]|) && ContainsAt(s, us[0], |gs[0]|);
    OverlapAgrees(s, ts[0], |fs[0]|, us[0], |gs[0]|);
    assert |fs[0]| + |ts[0]| <= |gs[0]|;
    assert gs[0] == s[..|gs[0]|];
    assert ContainsAt(gs[0], ts[0], |fs[0]|);
    var m := gs[0][|fs[0]| + |ts[0]|..];
    assert Join(fs[1..], ts[1..]) == s[|fs[0]| + |ts[0]|..] == m + us[0] + Join(gs[1..], us[1..]);
    var i' := Overrun(fs[1..], ts[1..], m, us[0], gs[1..], us[1..]);
    i := i' + 1;
    assert ([us[0]] + us[1..])[i'] == us[i'];
  }

  // ---- the tags of a challenge ----

  /** A tag made of one line: it starts with its only newline. */
  predicate OneLine(tag: string) {
    |tag| > 1 && tag[0] == '\n' && forall k :: 1 <= k < |tag| ==> tag[k] != '\n'
  }

  lemma OneLineNoOverlap(x: string, y: string)
    requires OneLine(x) && |y| > 0 && y[0] == '\n'
    ensures NoOverlap(x, y)
  {
  }

  lemma IssuedTagShape(n: int)
    ensures var t, cut := IssuedTag(n), |Label("issued_at")| + |Decimal(n)|;
            && t[0] == '\n' && t[1] == 'i'
            && cut + 1 < |t| && t[cut] == '\n' && t[cut + 1] == 'n'
            && (forall k :: 0 < k < |t| && k != cut ==> t[k] != '\n')
  {
    DecimalCharacters(n);
    BetweenLabels(Decimal(n));
  }

  lemma BetweenLabels(d: string)
    requires '\n' !in d
    ensures var t, cut := Label("issued_at") + d + Label("nonce"), |Label("issued_at")| + |d|;
            && t[0] == '\n' && t[1] == 'i'
            && cut + 1 < |t| && t[cut] == '\n' && t[cut + 1] == 'n'
            && (forall k :: 0 < k < |t| && k != cut ==> t[k] != '\n')
  {
    assert forall k :: 0 < k < |Label("issued_at")| ==> Label("issued_at")[k] != '\n';
    assert forall k :: 0 < k < |Label("nonce")| ==> Label("nonce")[k] != '\n';
  }

  lemma IssuedTagNoOverlap(n: int, y: string)
    requires |y| > 1 && y[0] == '\n' && y[1] != 'n'
    ensures NoOverlap(IssuedTag(n), y)
  {
    IssuedTagShape(n);
    var x := IssuedTag(n);
    forall k | 0 < k < |x| ensures !Agree(x[k..], y) {
      assert x[k..][0] == x[k];
      if x[k] == '\n' {
        assert x[k..][1] == 'n';
      }
    }
  }

  lemma IssuedTagsAgree(m: int, n: int)
    requires Agree(IssuedTag(m), IssuedTag(n))
    ensures m == n
  {
    IssuedTagShape(m);
    IssuedTagShape(n);
    var x, y := IssuedTag(m), IssuedTag(n);
    var start := |Label("issued_at")|;
    var i, j := start + |Decimal(m)|, start + |Decimal(n)|;
    assert x[i] == '\n' && y[j] == '\n';
    assert i == j;
    assert Decimal(m) == x[start..i] == y[start..j] == Decimal(n);
    DecimalInjective(m, n);
  }

  lemma OneLineApart(x: string, y: string)
    requires OneLine(x) && OneLine(y) && x[1] != y[1]
    ensures Apart(x, y)
  {
  }

  lemma IssuedTagApart(n: int, y: string)
    requires OneLine(y) && y[1] !in {'i', 'n'}
    ensures Apart(IssuedTag(n), y) && Apart(y, IssuedTag(n))
  {
    IssuedTagShape(n);
    IssuedTagNoOverlap(n, y);
    OneLineNoOverlap(y, IssuedTag(n));
  }

  /** A fixed tag put in front of tags that begin with a tag apart from it. */
  lemma FixedTagFirst(t: string, p: string, ts: seq<string>, q: string, us: seq<string>)
    requires |ts| == |us| && SamePlace(t, t) && Apart(p, t) && Apart(q, t)
    requires Separable([p] + ts, [q] + us)
    ensures Separable([t] + ([p] + ts), [t] + ([q] + us))
  {
  }

  lemma FiveTagsSeparable(t0: string, t1: string, p: string, q: string, t3: string, t4: string)
    requires SamePlace(t0, t0) && SamePlace(t1, t1) && SamePlace(p, q) && SamePlace(t3, t3) && SamePlace(t4, t4)
    requires Apart(t1, t0) && Apart(p, t1) && Apart(q, t1) && Apart(t3, p) && Apart(t3, q) && Apart(t4, t3)
    ensures Separable([t0] + ([t1] + ([p] + ([t3] + [t4]))), [t0] + ([t1] + ([q] + ([t3] + [t4]))))
  {
    assert Separable([t4] + [], [t4] + []);
    assert [t4] + [] == [t4];
    FixedTagFirst(t3, t4, [], t4, []);
    var tail := [t3] + [t4];
    assert tail[1..] == [t4] && ([p] + tail)[1..] == tail && ([q] + tail)[1..] == tail;
    assert Separable([p] + tail, [q] + tail);
    FixedTagFirst(t1, p, tail, q, tail);
    FixedTagFirst(t0, t1, [p] + tail, t1, [q] + tail);
  }

  lemma IssuedTagsSamePlace(m: int, n: int)
    ensures SamePlace(IssuedTag(m), IssuedTag(n))
  {
    IssuedTagShape(m);
    IssuedTagShape(n);
    IssuedTagNoOverlap(m, IssuedTag(n));
    IssuedTagNoOverlap(n, IssuedTag(m));
    if Agree(IssuedTag(m), IssuedTag(n)) {
      IssuedTagsAgree(m, n);
    }
  }

  lemma TagsSeparable(a: Challenge, b: Challenge)
    ensures Separable(Tags(a), Tags(b))
  {
    OneLineApart(PATH_TAG, METHOD_TAG);
    OneLineApart(WWW_TAG, PAYMENT_TAG);
    OneLineNoOverlap(METHOD_TAG, METHOD_TAG);
    OneLineNoOverlap(PATH_TAG, PATH_TAG);
    OneLineNoOverlap(PAYMENT_TAG, PAYMENT_TAG);
    OneLineNoOverlap(WWW_TAG, WWW_TAG);
    IssuedTagApart(a.issuedAt, PATH_TAG);
    IssuedTagApart(b.issuedAt, PATH_TAG);
    IssuedTagApart(a.issuedAt, PAYMENT_TAG);
    IssuedTagApart(b.issuedAt, PAYMENT_TAG);
    IssuedTagsSamePlace(a.issuedAt, b.issuedAt);
    FiveTagsSeparable(METHOD_TAG, PATH_TAG, IssuedTag(a.issuedAt), IssuedTag(b.issuedAt), PAYMENT_TAG, WWW_TAG);
    NestedTags(a);
    NestedTags(b);
  }

  lemma NestedTags(ch: Challenge)
    ensures Tags(ch) == [METHOD_TAG] + ([PATH_TAG] + ([IssuedTag(ch.issuedAt)] + ([PAYMENT_TAG] + [WWW_TAG])))
  {
  }

  lemma RenderStep(lines: seq<(string, string)>, i: nat)
    requires i < |lines|
    ensures Render(lines[i..]) == Label(lines[i].0) + (lines[i].1 + Render(lines[i + 1..]))
  {
  }

  lemma JoinStep(fs: seq<string>, ts: seq<string>, i: nat)
    requires |fs| == |ts| + 1 && i < |ts|
    ensures Join(fs[i..], ts[i..]) == fs[i] + (ts[i] + Join(fs[i + 1..], ts[i + 1..]))
  {
  }

  /** The last two lines are the last three fields with their tags, and so on backwards. */
  lemma RenderIsJoinFrom(ch: Challenge, lines: seq<(string, string)>, fs: seq<string>, ts: seq<string>)
    requires lines == Lines(ch) && fs == Fields(ch) && ts == Tags(ch)
    ensures Render(lines[5..]) == PAYMENT_TAG + Join(fs[4..], ts[4..])
  {
    RenderStep(lines, 6);
    RenderStep(lines, 5);
    JoinStep(fs, ts, 4);
    var last := Render(lines[7..]);
    assert last == "" && ch.wwwAuthenticate + last == ch.wwwAuthenticate == Join(fs[5..], ts[5..]);
  }

  lemma IssuedTagJoins(d: string, rest: string)
    ensures Label("issued_at") + (d + (Label("nonce") + rest)) == Label("issued_at") + d + Label("nonce") + rest
  {
  }

  /** The rendered lines are the joined fields, after a fixed opening. */
  lemma CanonicalIsJoin(ch: Challenge)
    ensures CanonicalBytes(ch) == MESSAGE_PREFIX + (Label("robot_id") + Join(Fields(ch), Tags(ch)))
  {
    var lines, fs, ts := Lines(ch), Fields(ch), Tags(ch);
    RenderIsJoinFrom(ch, lines, fs, ts);
    RenderStep(lines, 4);
    RenderStep(lines, 3);
    JoinStep(fs, ts, 3);
    IssuedTagJoins(Decimal(ch.issuedAt), Join(fs[3..], ts[3..]));
    RenderStep(lines, 2);
    RenderStep(lines, 1);
    RenderStep(lines, 0);
    JoinStep(fs, ts, 2);
    JoinStep(fs, ts, 1);
    JoinStep(fs, ts, 0);
    assert lines[0..] == lines && fs[0..] == fs && ts[0..] == ts;
  }

  // ---- when the encoding is unambiguous ----

  /** The field contains the tag at place `i`; the timestamp tag counts for every timestamp. */
  ghost predicate HasTag(field: string, i: nat) {
    match i
    case 0 => Contains(field, METHOD_TAG)
    case 1 => Contains(field, PATH_TAG)
    case 2 => exists n: int64 :: Contains(field, IssuedTag(n))
    case 3 => Contains(field, PAYMENT_TAG)
    case 4 => Contains(field, WWW_TAG)
    case _ => false
  }

  /** No field contains the tag just before it or the tag just after it. */
  ghost predicate TagFree(ch: Challenge) {
    forall i :: 0 <= i < 5 ==> !HasTag(Fields(ch)[i], i) && !HasTag(Fields(ch)[i + 1], i)
  }

  /** Nothing but the challenge itself has its canonical bytes. */
  ghost predicate Unambiguous(ch: Challenge) {
    forall other :: CanonicalBytes(other) == CanonicalBytes(ch) ==> other == ch
  }

  lemma OwnTag(ch: Challenge, field: string, i: nat)
    requires i < 5 && Contains(field, Tags(ch)[i])
    ensures HasTag(field, i)
  {
  }

  /** Two challenges with the same bytes: they are equal, or each has a field that swallows a tag. */
  lemma SameBytes(a: Challenge, b: Challenge) returns (i: nat, j: nat)
    requires CanonicalBytes(a) == CanonicalBytes(b)
    ensures a == b || (j < i < 6 &&
      (|| (HasTag(Fields(b)[j], j) && HasTag(Fields(a)[i], i - 1))
       || (HasTag(Fields(a)[j], j) && HasTag(Fields(b)[i], i - 1))))
  {
    CanonicalIsJoin(a);
    CanonicalIsJoin(b);
    SamePrefixLength(MESSAGE_PREFIX, Label("robot_id") + Join(Fields(a), Tags(a)), MESSAGE_PREFIX,
        Label("robot_id") + Join(Fields(b), Tags(b)));
    SamePrefixLength(Label("robot_id"), Join(Fields(a), Tags(a)), Label("robot_id"), Join(Fields(b), Tags(b)));
    TagsSeparable(a, b);
    i, j := TwoReadings(Fields(a), Tags(a), Fields(b), Tags(b));
    if Fields(a) == Fields(b) && Tags(a) == Tags(b) {
      SameFieldsAndTags(a, b);
    } else if Swallows(Fields(a), Tags(a), Fields(b), Tags(b), i, j) {
      OwnTag(a, Fields(b)[j], j);
      OwnTag(b, Fields(a)[i], i - 1);
    } else {
      OwnTag(b, Fields(a)[j], j);
      OwnTag(a, Fields(b)[i], i - 1);
    }
  }

  lemma SameFieldsAndTags(a: Challenge, b: Challenge)
    requires Fields(a) == Fields(b) && Tags(a) == Tags(b)
    ensures a == b
  {
    var fs, gs := Fields(a), Fields(b);
    assert fs[0] == gs[0] && fs[1] == gs[1] && fs[2] == gs[2] && fs[3] == gs[3] && fs[4] == gs[4] && fs[5] == gs[5];
    assert IssuedTag(a.issuedAt) == Tags(a)[2] == Tags(b)[2] == IssuedTag(b.issuedAt);
    IssuedTagsAgree(a.issuedAt, b.issuedAt);
  }

  /** Moving the boundary between fields `i` and `i + 1` to another copy of their tag keeps the bytes. */
  lemma {:induction false} MoveBoundary(fs: seq<string>, ts: seq<string>, i: nat, left: string, tag: string,
          right: string)
    requires |fs| == |ts| + 1 && i < |ts|
    requires fs[i] + ts[i] + fs[i + 1] == left + tag + right
    ensures Join(fs[i := left][i + 1 := right], ts[i := tag]) == Join(fs, ts)
    decreases i
  {
    var gs, us := fs[i := left][i + 1 := right], ts[i := tag];
    if i > 0 {
      MoveBoundary(fs[1..], ts[1..], i - 1, left, tag, right);
      assert gs[1..] == fs[1..][i - 1 := left][i := right] && us[1..] == ts[1..][i - 1 := tag];
    } else {
      JoinHead(fs, ts);
      JoinHead(gs, us);
      assert gs[1..][1..] == fs[1..][1..] && us[1..] == ts[1..];
    }
  }

  /** The second field, however it ends, starts the remainder. */
  lemma JoinHead(fs: seq<string>, ts: seq<string>)
    requires |fs| == |ts| + 1 && |ts| > 0
    ensures Join(fs, ts) == fs[0] + ts[0] + fs[1] + (if |ts| == 1 then "" else ts[1] + Join(fs[1..][1..], ts[1..][1..]))
  {
  }

  /** The challenge with the given text fields. */
  function Rebuild(fs: seq<string>, issuedAt: int64): (ch: Challenge)
    requires |fs| == 6
    ensures Fields(ch) == fs && ch.issuedAt == issuedAt
  {
    Challenge(fs[0], fs[1], fs[2], fs[4], fs[5], issuedAt, fs[3])
  }

  /** The tags of `ch` with the one at `i` replaced are the tags of a challenge. */
  lemma TagsAfterMove(ch: Challenge, other: Challenge, i: nat)
    requires i < 5 && (i == 2 || other.issuedAt == ch.issuedAt)
    ensures Tags(other) == Tags(ch)[i := Tags(other)[i]]
  {
  }

  lemma Moved(ch: Challenge, i: nat, issued: int64, left: string, right: string) returns (other: Challenge)
    requires i < 5 && (i == 2 || issued == ch.issuedAt)
    requires Fields(ch)[i] + Tags(ch)[i] + Fields(ch)[i + 1] == left + Tags(ch.(issuedAt := issued))[i] + right
    requires |left| != |Fields(ch)[i]|
    ensures other != ch && CanonicalBytes(other) == CanonicalBytes(ch)
    ensures Fields(other) == Fields(ch)[i := left][i + 1 := right]
  {
    var fs, ts := Fields(ch), Tags(ch);
    var tag := Tags(ch.(issuedAt := issued))[i];
    MoveBoundary(fs, ts, i, left, tag, right);
    other := Rebuild(fs[i := left][i + 1 := right], issued);
    TagsAfterMove(ch, other, i);
    assert Tags(other)[i] == tag;
    assert Fields(other)[i] == left;
    CanonicalIsJoin(ch);
    CanonicalIsJoin(other);
  }

  /** A field that contains a neighbouring tag yields a second challenge with the same bytes. */
  lemma SecondReading(ch: Challenge, i: nat) returns (other: Challenge)
    requires i < 5 && (HasTag(Fields(ch)[i], i) || HasTag(Fields(ch)[i + 1], i))
    ensures other != ch && CanonicalBytes(other) == CanonicalBytes(ch)
  {
    Grouped(Fields(ch)[i], Tags(ch)[i], Fields(ch)[i + 1]);
    if HasTag(Fields(ch)[i], i) {
      other := SplitAt(ch, i, Fields(ch)[i], "", Tags(ch)[i] + Fields(ch)[i + 1]);
    } else {
      other := SplitAt(ch, i, Fields(ch)[i + 1], Fields(ch)[i] + Tags(ch)[i], "");
    }
  }

  /** The field found between `outer` and `rest` contains the tag: move the boundary there. */
  lemma SplitAt(ch: Challenge, i: nat, field: string, outer: string, rest: string) returns (other: Challenge)
    requires i < 5 && HasTag(field, i)
    requires Fields(ch)[i] + Tags(ch)[i] + Fields(ch)[i + 1] == outer + field + rest
    requires (outer == "" && field == Fields(ch)[i]) || outer == Fields(ch)[i] + Tags(ch)[i]
    ensures other != ch && CanonicalBytes(other) == CanonicalBytes(ch)
  {
    var issued := TagWitness(ch, field, i);
    var tag := Tags(ch.(issuedAt := issued))[i];
    var before, after := SplitContained(field, tag);
    TagsNonEmpty(ch, i);
    TagsNonEmpty(ch.(issuedAt := issued), i);
    Regroup(Fields(ch)[i], Tags(ch)[i], Fields(ch)[i + 1], outer, field, rest, before, tag, after);
    other := Moved(ch, i, issued, outer + before, after + rest);
  }

  lemma Grouped(f: string, t: string, g: string)
    ensures f + t + g == "" + f + (t + g)
    ensures f + t + g == (f + t) + g + ""
  {
  }

  lemma Regroup(f: string, t: string, g: string, outer: string, field: string, rest: string, before: string,
          tag: string, after: string)
    requires f + t + g == outer + field + rest && field == before + tag + after
    requires (outer == "" && field == f) || outer == f + t
    requires |t| > 0 && |tag| > 0
    ensures f + t + g == (outer + before) + tag + (after + rest)
    ensures |outer + before| != |f|
  {
  }

  lemma TagsNonEmpty(ch: Challenge, i: nat)
    requires i < 5
    ensures |Tags(ch)[i]| > 0
  {
  }

  lemma TagWitness(ch: Challenge, field: string, i: nat) returns (issued: int64)
    requires i < 5 && HasTag(field, i)
    ensures (i == 2 || issued == ch.issuedAt) && Contains(field, Tags(ch.(issuedAt := issued))[i])
  {
    issued := ch.issuedAt;
    if i == 2 {
      issued :| InInt64(issued) && Contains(field, IssuedTag(issued));
    }
  }

  /**
   The comment on `canonical` calls the encoding unambiguous. It is so for exactly those
   challenges in which no field contains one of the two tags around it.
   */
  lemma UnambiguousExactlyWhenTagFree(ch: Challenge)
    ensures Unambiguous(ch) <==> TagFree(ch)
  {
    if TagFree(ch) {
      forall other | CanonicalBytes(other) == CanonicalBytes(ch) ensures other == ch {
        var i, j := SameBytes(ch, other);
        assert 0 < i < 6 ==> !HasTag(Fields(ch)[i - 1 + 1], i - 1);
      }
    } else {
      var i :| 0 <= i < 5 && (HasTag(Fields(ch)[i], i) || HasTag(Fields(ch)[i + 1], i));
      var other := SecondReading(ch, i);
    }
  }

  // ---- two values around one tag ----

  function Around(x: string, tag: string, y: string): string { x + (tag + y) }

  /** Joined around a one-line tag, two values can be told apart exactly when neither contains the tag. */
  lemma OneTagUnambiguous(x: string, tag: string, y: string)
    requires OneLine(tag)
    ensures (forall p, q :: Around(p, tag, q) == Around(x, tag, y) ==> p == x && q == y)
       <==> !Contains(x, tag) && !Contains(y, tag)
  {
    if !Contains(x, tag) && !Contains(y, tag) {
      forall p, q | Around(p, tag, q) == Around(x, tag, y) ensures p == x && q == y {
        OneTagInjective(p, q, x, tag, y);
      }
    } else if Contains(x, tag) {
      var before, after := SplitContained(x, tag);
      assert Around(before, tag, after + (tag + y)) == before + tag + after + (tag + y);
    } else {
      var before, after := SplitContained(y, tag);
      assert Around(x + tag + before, tag, after) == x + (tag + (before + tag + after));
    }
  }

  lemma OneTagInjective(p: string, q: string, x: string, tag: string, y: string)
    requires OneLine(tag) && Around(p, tag, q) == Around(x, tag, y)
    requires !Contains(x, tag) && !Contains(y, tag)
    ensures p == x && q == y
  {
    OneLineNoOverlap(tag, tag);
    var fs, gs, ts := [p, q], [x, y], [tag];
    assert fs[1..] == [q] && gs[1..] == [y] && ts[1..] == [];
    assert Join([q], []) == q && Join([y], []) == y;
    assert Separable(ts, ts);
    var i, j := TwoReadings(fs, ts, gs, ts);
    assert fs == gs ==> fs[0] == gs[0] && fs[1] == gs[1];
  }

  // ---- the challenge headers alone ----

  /** The lines before the challenge headers, which a served attestation leaves as they were signed. */
  function Opening(ch: Challenge): string { MESSAGE_PREFIX + Render(Lines(ch)[..5]) + PAYMENT_TAG }

  lemma {:induction false} RenderSplit(lines: seq<(string, string)>, i: nat)
    requires i <= |lines|
    ensures Render(lines) == Render(lines[..i]) + Render(lines[i..])
  {
    if i == 0 {
      assert lines[0..] == lines;
    } else {
      var head, rest := lines[0], lines[1..];
      RenderSplit(rest, i - 1);
      assert lines[..i][1..] == rest[..i - 1] && lines[i..] == rest[i - 1..];
      Regrouped4(Label(head.0), head.1, Render(rest[..i - 1]), Render(rest[i - 1..]));
    }
  }

  lemma Regrouped4(a: string, b: string, c: string, d: string)
    ensures a + (b + (c + d)) == (a + (b + c)) + d
  {
  }

  lemma CanonicalOpens(ch: Challenge)
    ensures CanonicalBytes(ch) == Opening(ch) + Around(ch.paymentRequired, WWW_TAG, ch.wwwAuthenticate)
  {
    var lines := Lines(ch);
    RenderSplit(lines, 5);
    RenderStep(lines, 5);
    RenderStep(lines, 6);
    var last := Render(lines[7..]);
    assert last == "" && ch.wwwAuthenticate + last == ch.wwwAuthenticate;
  }

  function WithHeaders(ch: Challenge, paymentRequired: string, wwwAuthenticate: string): Challenge {
    ch.(paymentRequired := paymentRequired, wwwAuthenticate := wwwAuthenticate)
  }

  /** Neither challenge header contains the label between them. */
  ghost predicate HeadersApart(paymentRequired: string, wwwAuthenticate: string) {
    !Contains(paymentRequired, WWW_TAG) && !Contains(wwwAuthenticate, WWW_TAG)
  }

  /**
   Among challenges that differ in their headers alone, whatever the other fields contain, the bytes
   are this challenge's own exactly when its headers do not contain the label between them.
   */
  lemma HeadersUnambiguous(ch: Challenge)
    ensures (forall p, q :: CanonicalBytes(WithHeaders(ch, p, q)) == CanonicalBytes(ch) ==> WithHeaders(ch, p, q) == ch)
       <==> HeadersApart(ch.paymentRequired, ch.wwwAuthenticate)
  {
    OneTagUnambiguous(ch.paymentRequired, WWW_TAG, ch.wwwAuthenticate);
    forall p, q
      ensures CanonicalBytes(WithHeaders(ch, p, q)) == CanonicalBytes(ch) <==>
        Around(p, WWW_TAG, q) == Around(ch.paymentRequired, WWW_TAG, ch.wwwAuthenticate)
    {
      SameOpening(ch, p, q);
    }
    if forall p, q :: CanonicalBytes(WithHeaders(ch, p, q)) == CanonicalBytes(ch) ==> WithHeaders(ch, p, q) == ch {
      forall p, q | Around(p, WWW_TAG, q) == Around(ch.paymentRequired, WWW_TAG, ch.wwwAuthenticate)
        ensures p == ch.paymentRequired && q == ch.wwwAuthenticate
      {
        assert WithHeaders(ch, p, q) == ch;
      }
    }
  }

  lemma SameOpening(ch: Challenge, p: string, q: string)
    ensures CanonicalBytes(WithHeaders(ch, p, q)) == Opening(ch) + Around(p, WWW_TAG, q)
    ensures CanonicalBytes(WithHeaders(ch, p, q)) == CanonicalBytes(ch) <==>
      Around(p, WWW_TAG, q) == Around(ch.paymentRequired, WWW_TAG, ch.wwwAuthenticate)
  {
    var other := WithHeaders(ch, p, q);
    assert Lines(other)[..5] == Lines(ch)[..5];
    CanonicalOpens(ch);
    CanonicalOpens(other);
    var x, y := Around(p, WWW_TAG, q), Around(ch.paymentRequired, WWW_TAG, ch.wwwAuthenticate);
    if Opening(ch) + x == Opening(ch) + y {
      SamePrefixLength(Opening(ch), x, Opening(ch), y);
    }
  }

  /** Replacing the nonce changes the length of the bytes by as much as that of the nonce. */
  lemma NonceLength(ch: Challenge, nonce: string)
    ensures |CanonicalBytes(ch.(nonce := nonce))| - |nonce| == |CanonicalBytes(ch)| - |ch.nonce|
  {
    DocumentedLayout(ch);
    DocumentedLayout(ch.(nonce := nonce));
  }

  // ---- newlines ----

  predicate NewlineFree(s: string) { '\n' !in s }

  ghost predicate NewlineFreeExcept(ch: Challenge, k: nat) {
    forall i :: 0 <= i < 6 && i != k ==> NewlineFree(Fields(ch)[i])
  }

  lemma TagsStartWithNewline(field: string, i: nat)
    requires i < 5 && HasTag(field, i)
    ensures !NewlineFree(field)
  {
    var tag: string;
    if i == 2 {
      var n: int64 :| Contains(field, IssuedTag(n));
      tag := IssuedTag(n);
    } else {
      tag := [METHOD_TAG, PATH_TAG, "", PAYMENT_TAG, WWW_TAG][i];
    }
    var before, after := SplitContained(field, tag);
    assert field[|before|] == '\n';
  }

  /** Newlines in one and the same field of both challenges do no harm, whichever field it is. */
  lemma InjectiveExceptOneField(a: Challenge, b: Challenge, k: nat)
    requires NewlineFreeExcept(a, k) && NewlineFreeExcept(b, k)
    requires CanonicalBytes(a) == CanonicalBytes(b)
    ensures a == b
  {
    var i, j := SameBytes(a, b);
    if a != b {
      if HasTag(Fields(b)[j], j) && HasTag(Fields(a)[i], i - 1) {
        TagsStartWithNewline(Fields(b)[j], j);
        TagsStartWithNewline(Fields(a)[i], i - 1);
      } else {
        TagsStartWithNewline(Fields(a)[j], j);
        TagsStartWithNewline(Fields(b)[i], i - 1);
      }
    }
  }

  /** Newlines in different fields do: the two challenges below differ but have the same bytes. */
  lemma TwoFieldsCollide() returns (a: Challenge, b: Challenge)
    ensures NewlineFreeExcept(a, 1) && NewlineFreeExcept(b, 2)
    ensures a != b && CanonicalBytes(a) == CanonicalBytes(b)
  {
    a := Challenge("robot-1", "POST" + PATH_TAG + "/a", "/b", "", "", 0, "00");
    Regrouped("POST", PATH_TAG, "/a", "/b");
    b := Moved(a, 1, 0, "POST", "/a" + PATH_TAG + "/b");
  }

  lemma Regrouped(m: string, tag: string, p: string, q: string)
    ensures (m + tag + p) + tag + q == m + tag + (p + tag + q)
  {
  }
}
