/**
 Runs of the attesting writer, from the first header a handler sets to the check the payer makes on
 the flattened headers it is served.
 */
module ServedChallenge {
  import opened Wrappers
  import opened Canonical
  import opened PersonalSign
  import opened Http
  import opened Attest
  import opened AttestWriter

  /** An action with the clock and random bytes at that moment. */
  type Event = (Action, Env)

  function Start(initial: Header): Writer { Writer(Gin(STATUS_OK, initial, None, ""), false, "", "") }

  /** The writer of a site after the events of a request. */
  function Steps(site: Site, initial: Header, events: seq<Event>): Writer {
    if events == [] then Start(initial)
    else
      var n := |events| - 1;
      Step(site, Steps(site, initial, events[..n]), events[n].0, events[n].1)
  }

  /** gin's end of request: the inner writer emits whatever is still pending. */
  function Served(w: Writer): Sent {
    if w.gin.sent.Some? then w.gin.sent.value else Sent(w.gin.status, w.gin.header)
  }

  /** A whole request on the two writers themselves: the middleware wraps, the handlers act, gin flushes. */
  method ServeRequest(signer: Signer, robotID: string, httpMethod: string, path: string, initial: Header,
          events: seq<Event>)
    returns (sent: Sent)
    requires signer.address == signer.crypto.addressOf(signer.key)
    ensures sent == Served(Steps(Site(signer.crypto, signer.key, robotID, httpMethod, path), initial, events))
  {
    var inner := new GinWriter(initial);
    var writer := new AttestingWriter(inner, signer, robotID, httpMethod, path);
    for i := 0 to |events|
      invariant writer.Valid() && fresh(writer) && fresh(inner) && writer.inner == inner
      invariant writer.site == Site(signer.crypto, signer.key, robotID, httpMethod, path)
      invariant writer.State() == Steps(writer.site, initial, events[..i])
    {
      assert events[..i + 1][..i] == events[..i];
      writer.Perform(events[i].0, events[i].1);
    }
    assert events[..|events|] == events;
    inner.WriteHeaderNow();
    sent := inner.sent.value;
  }

  // ---- the same for any way of signing ----

  /** Signing a pair of header values, as a function of the moment. */
  type Signing = (Pair, Env) -> Result<string, Error>

  /** How the writers of a site sign. */
  function SigningOf(site: Site): Signing { (p, env) => SignPair(site, p, env) }

  function Next(sign: Signing, w: Writer, e: Event): Writer {
    StepWith(w, e.0, sign(PairOf(w.gin.header), e.1))
  }

  function Run(sign: Signing, initial: Header, events: seq<Event>): Writer {
    if events == [] then Start(initial)
    else
      var n := |events| - 1;
      Next(sign, Run(sign, initial, events[..n]), events[n])
  }

  lemma {:induction false} StepsAreRun(site: Site, initial: Header, events: seq<Event>)
    ensures Steps(site, initial, events) == Run(SigningOf(site), initial, events)
    decreases |events|
  {
    if events != [] {
      StepsAreRun(site, initial, events[..|events| - 1]);
    }
  }

  // ---- what the wrapper sees ----

  /** The response as a wrapper call finds it before its headers have left. */
  datatype Sight = Sight(status: int, pair: Pair, env: Env)

  function SightBy(w: Writer, e: Event): seq<Sight> {
    var at := AttachPoint(w, e.0);
    if IsCall(e.0) && at.gin.sent.None? then [Sight(at.gin.status, PairOf(at.gin.header), e.1)] else []
  }

  /** What the wrapper calls of a run see, one after the other. */
  function Seen(sign: Signing, initial: Header, events: seq<Event>): seq<Sight> {
    if events == [] then []
    else
      var n := |events| - 1;
      Seen(sign, initial, events[..n]) + SightBy(Run(sign, initial, events[..n]), events[n])
  }

  /** A 402 with a challenge other than the one last signed. */
  predicate Unsigned(last: Option<Sight>, s: Sight) {
    s.status == STATUS_PAYMENT_REQUIRED && s.pair != NO_CHALLENGE && (last.Some? ==> last.value.pair != s.pair)
  }

  /** The sight at which the attestation in force was signed, told from the sights alone. */
  function LastSigned(sign: Signing, seen: seq<Sight>): Option<Sight> {
    if seen == [] then None else Signed(sign, LastSigned(sign, seen[..|seen| - 1]), seen[|seen| - 1])
  }

  function Signed(sign: Signing, last: Option<Sight>, s: Sight): Option<Sight> {
    if Unsigned(last, s) && sign(s.pair, s.env).Ok? then Some(s) else last
  }

  /** The sights at which a signature is called for. */
  function Needed(sign: Signing, seen: seq<Sight>): seq<Sight> {
    if seen == [] then []
    else
      var before, s := seen[..|seen| - 1], seen[|seen| - 1];
      Needed(sign, before) + (if Unsigned(LastSigned(sign, before), s) then [s] else [])
  }

  /** The calls to Signer.Attest during one event, and during a run. */
  function CallsBy(w: Writer, e: Event): seq<Sight> {
    if IsCall(e.0) && MustSign(AttachPoint(w, e.0)) then SightBy(w, e) else []
  }

  function Calls(sign: Signing, initial: Header, events: seq<Event>): seq<Sight> {
    if events == [] then []
    else
      var n := |events| - 1;
      Calls(sign, initial, events[..n]) + CallsBy(Run(sign, initial, events[..n]), events[n])
  }

  lemma SeenAppend(sign: Signing, seen: seq<Sight>, s: Sight)
    ensures LastSigned(sign, seen + [s]) == Signed(sign, LastSigned(sign, seen), s)
    ensures Needed(sign, seen + [s]) == Needed(sign, seen) + (if Unsigned(LastSigned(sign, seen), s) then [s] else [])
  {
    assert (seen + [s])[..|seen|] == seen;
  }

  // ---- what every reachable state satisfies ----

  /** Nobody else writes the attestation header. */
  predicate Orderly(initial: Header, events: seq<Event>) {
    ATTESTATION !in initial && forall i :: 0 <= i < |events| ==> OrderlyEvent(events[i])
  }

  predicate OrderlyEvent(e: Event) { !IsCall(e.0) ==> e.0.name != ATTESTATION }

  lemma OrderlyBefore(initial: Header, events: seq<Event>)
    requires Orderly(initial, events) && events != []
    ensures Orderly(initial, events[..|events| - 1]) && OrderlyEvent(events[|events| - 1])
  {
  }

  /** The writer remembers what it signed last. */
  predicate Remembers(w: Writer, last: Option<Sight>) {
    match last
    case None => !w.attached
    case Some(s) => w.attached && (w.signedRequired, w.signedWWWAuth) == s.pair != NO_CHALLENGE
  }

  /** Exactly one attestation, of the pair and at the moment last signed; none if nothing was signed. */
  predicate Carries(sign: Signing, h: Header, last: Option<Sight>) {
    match last
    case None => ATTESTATION !in h
    case Some(s) => sign(s.pair, s.env).Ok? && ATTESTATION in h && h[ATTESTATION] == [sign(s.pair, s.env).value]
  }

  /** Both the headers as they stand and those that leave carry the attestation in force. */
  predicate Inv(sign: Signing, w: Writer, last: Option<Sight>) {
    Remembers(w, last) && Carries(sign, w.gin.header, last) && Carries(sign, Served(w).header, last)
  }

  /** The record of the last signature after an event. */
  function After(sign: Signing, last: Option<Sight>, seen: seq<Sight>): Option<Sight>
    requires |seen| <= 1
  {
    if seen == [] then last else Signed(sign, last, seen[0])
  }

  lemma AttachRemembers(sign: Signing, w: Writer, last: Option<Sight>, env: Env)
    requires Remembers(w, last) && w.gin.sent.None?
    ensures var s := Sight(w.gin.status, PairOf(w.gin.header), env);
      && (MustSign(w) <==> Unsigned(last, s))
      && Remembers(AttachWith(w, sign(s.pair, env)), Signed(sign, last, s))
  {
  }

  lemma NextRemembers(sign: Signing, w: Writer, last: Option<Sight>, e: Event)
    requires Remembers(w, last)
    ensures Remembers(Next(sign, w, e), After(sign, last, SightBy(w, e)))
    ensures CallsBy(w, e) == if SightBy(w, e) != [] && Unsigned(last, SightBy(w, e)[0]) then SightBy(w, e) else []
  {
    var at := AttachPoint(w, e.0);
    if IsCall(e.0) && at.gin.sent.None? {
      AttachRemembers(sign, at, last, e.1);
    }
  }

  /**
   In every run, whether signing succeeds or not, Attest is called for exactly those 402 responses seen
   by wrapper calls whose challenge is not the one last signed, and the last success is remembered.
   */
  lemma {:induction false} SignsOncePerChange(sign: Signing, initial: Header, events: seq<Event>)
    ensures Calls(sign, initial, events) == Needed(sign, Seen(sign, initial, events))
    ensures Remembers(Run(sign, initial, events), LastSigned(sign, Seen(sign, initial, events)))
    decreases |events|
  {
    if events != [] {
      var n := |events| - 1;
      var w, seen := Run(sign, initial, events[..n]), Seen(sign, initial, events[..n]);
      SignsOncePerChange(sign, initial, events[..n]);
      NextRemembers(sign, w, LastSigned(sign, seen), events[n]);
      SeenAfter(sign, w, seen, events[n]);
    }
  }

  lemma SeenAfter(sign: Signing, w: Writer, seen: seq<Sight>, e: Event)
    ensures var (more, last) := (SightBy(w, e), LastSigned(sign, seen));
      && LastSigned(sign, seen + more) == After(sign, last, more)
      && Needed(sign, seen + more) == Needed(sign, seen) + (if more != [] && Unsigned(last, more[0]) then more else [])
  {
    if SightBy(w, e) == [] {
      assert seen + [] == seen;
    } else {
      SeenAppend(sign, seen, SightBy(w, e)[0]);
    }
  }

  lemma AttachCarries(sign: Signing, w: Writer, last: Option<Sight>, env: Env)
    requires Inv(sign, w, last) && w.gin.sent.None?
    ensures var s := Sight(w.gin.status, PairOf(w.gin.header), env);
      Inv(sign, AttachWith(w, sign(s.pair, env)), Signed(sign, last, s))
  {
    AttachRemembers(sign, w, last, env);
  }

  lemma ForwardCarries(sign: Signing, w: Writer, last: Option<Sight>, a: Action)
    requires Inv(sign, w, last) && IsCall(a)
    ensures Inv(sign, Forward(w, a), last)
  {
  }

  lemma NextCarries(sign: Signing, w: Writer, last: Option<Sight>, e: Event)
    requires Inv(sign, w, last) && OrderlyEvent(e)
    ensures Inv(sign, Next(sign, w, e), After(sign, last, SightBy(w, e)))
  {
    var at := AttachPoint(w, e.0);
    if IsCall(e.0) {
      assert Inv(sign, at, last);
      if at.gin.sent.None? {
        AttachCarries(sign, at, last, e.1);
      }
      ForwardCarries(sign, AttachWith(at, sign(PairOf(w.gin.header), e.1)), After(sign, last, SightBy(w, e)), e.0);
    }
  }

  /** The writer invariant holds in every reachable state, also when signing fails. */
  lemma {:induction false} RunInv(sign: Signing, initial: Header, events: seq<Event>)
    requires Orderly(initial, events)
    ensures Inv(sign, Run(sign, initial, events), LastSigned(sign, Seen(sign, initial, events)))
    decreases |events|
  {
    if events != [] {
      var n := |events| - 1;
      var w, seen := Run(sign, initial, events[..n]), Seen(sign, initial, events[..n]);
      OrderlyBefore(initial, events);
      RunInv(sign, initial, events[..n]);
      NextCarries(sign, w, LastSigned(sign, seen), events[n]);
      SeenAfter(sign, w, seen, events[n]);
    }
  }

  /** What has left is what the last wrapper call before it saw. */
  predicate LeftAsSeen(w: Writer, seen: seq<Sight>) {
    w.gin.sent.Some? ==>
      && seen != []
      && seen[|seen| - 1].status == w.gin.sent.value.status
      && seen[|seen| - 1].pair == PairOf(w.gin.sent.value.header)
  }

  lemma NextLeavesAsSeen(sign: Signing, w: Writer, seen: seq<Sight>, e: Event)
    requires LeftAsSeen(w, seen)
    ensures LeftAsSeen(Next(sign, w, e), seen + SightBy(w, e))
  {
  }

  /** Headers that left through the wrapper are as they were at its last call, however signing went. */
  lemma {:induction false} LeftThroughWrapper(sign: Signing, initial: Header, events: seq<Event>)
    ensures LeftAsSeen(Run(sign, initial, events), Seen(sign, initial, events))
    decreases |events|
  {
    if events != [] {
      var n := |events| - 1;
      LeftThroughWrapper(sign, initial, events[..n]);
      NextLeavesAsSeen(sign, Run(sign, initial, events[..n]), Seen(sign, initial, events[..n]), events[n]);
    }
  }

  /** The attestation in force was signed at one of the sights, on a 402 with a challenge. */
  lemma {:induction false} LastSignedWasSeen(sign: Signing, seen: seq<Sight>)
    ensures var last := LastSigned(sign, seen);
      last.Some? ==>
        && last.value in seen && last.value.status == STATUS_PAYMENT_REQUIRED && last.value.pair != NO_CHALLENGE
        && sign(last.value.pair, last.value.env).Ok?
    decreases |seen|
  {
    if seen != [] {
      LastSignedWasSeen(sign, seen[..|seen| - 1]);
    }
  }

  // ---- what the payer can check ----

  /** The response that leaves a site. */
  function Response(site: Site, initial: Header, events: seq<Event>): Sent { Served(Steps(site, initial, events)) }

  /** The sight whose attestation is in force when the response leaves. */
  function InForce(site: Site, initial: Header, events: seq<Event>): Option<Sight> {
    LastSigned(SigningOf(site), Seen(SigningOf(site), initial, events))
  }

  /** The challenge as the payer rebuilds it from the forwarded headers. */
  function Received(site: Site, f: Flat): Challenge {
    Challenge(site.robotID, site.httpMethod, site.path, Lookup(f, PAYMENT_REQUIRED), Lookup(f, WWW_AUTHENTICATE), 0, "")
  }

  /** The payer's verdict, from the forwarded headers and the operator's address alone. */
  function PayerVerdict(site: Site, f: Flat, expectedSigner: string, maxAge: int, now: int): Result<(), Error> {
    Verify(site.crypto, Decode, Lookup(f, ATTESTATION), Received(site, f), expectedSigner, maxAge, now)
  }

  /** The header value the payer is forwarded. */
  function Forwarded(sent: Sent): string { Lookup(Flatten(sent.header), ATTESTATION) }

  function Check(site: Site, sent: Sent, expectedSigner: string, maxAge: int, now: int): Result<(), Error> {
    PayerVerdict(site, Flatten(sent.header), expectedSigner, maxAge, now)
  }

  lemma ReceivedIsServed(site: Site, h: Header)
    ensures Received(site, Flatten(h)) == ChallengeOf(site, PairOf(h))
  {
    FlattenKeepsFirst(h, PAYMENT_REQUIRED);
    FlattenKeepsFirst(h, WWW_AUTHENTICATE);
  }

  /** The value forwarded is the attestation in force, and there is none to forward if nothing was signed. */
  lemma ServedAttestation(site: Site, initial: Header, events: seq<Event>)
    requires Orderly(initial, events)
    ensures var (sent, last) := (Response(site, initial, events), InForce(site, initial, events));
      if last.None? then ATTESTATION !in sent.header && Forwarded(sent) == ""
      else
        && last.value in Seen(SigningOf(site), initial, events)
        && last.value.status == STATUS_PAYMENT_REQUIRED && last.value.pair != NO_CHALLENGE
        && SignPair(site, last.value.pair, last.value.env) == Ok(Forwarded(sent))
  {
    StepsAreRun(site, initial, events);
    RunInv(SigningOf(site), initial, events);
    LastSignedWasSeen(SigningOf(site), Seen(SigningOf(site), initial, events));
    FlattenKeepsFirst(Response(site, initial, events).header, ATTESTATION);
  }

  /** The challenge as signed at a sight. */
  function SignedAt(site: Site, s: Sight): Challenge
    requires Filled(ChallengeOf(site, s.pair), s.env).Ok?
  {
    Filled(ChallengeOf(site, s.pair), s.env).value
  }

  /** What the payer makes of an attestation in force, on a response with any challenge. */
  lemma DecodeServed(site: Site, s: Sight, value: string, served: Pair)
    requires Correct(site.crypto) && SignPair(site, s.pair, s.env) == Ok(value)
    ensures Filled(ChallengeOf(site, s.pair), s.env).Ok? && Decode(value).Ok? && SignatureOf(Decode(value).value).Ok?
    ensures Claimed(ChallengeOf(site, served), Decode(value).value)
        == WithHeaders(SignedAt(site, s), served.0, served.1)
  {
    var ch := ChallengeOf(site, s.pair);
    DecodeAttested(site.crypto, site.key, ch, s.env, value);
    FilledIsValid(ch, s.env);
    Utf8.CoerceValid(SignedAt(site, s).nonce);
  }

  /**
   The payer computes the digest that was signed exactly when the challenge that leaves is the one in
   force; the label must not occur in the two signed headers, and nothing is asked of the other fields.
   */
  lemma ServedDigestMatchesExactly(site: Site, initial: Header, events: seq<Event>)
    requires Correct(site.crypto) && Orderly(initial, events)
    ensures var (sent, last) := (Response(site, initial, events), InForce(site, initial, events));
      if last.None? then ATTESTATION !in sent.header
      else
        && Filled(ChallengeOf(site, last.value.pair), last.value.env).Ok? && Decode(Forwarded(sent)).Ok?
        && (HeadersApart(last.value.pair.0, last.value.pair.1) ==>
              (DigestOf(Claimed(Received(site, Flatten(sent.header)), Decode(Forwarded(sent)).value))
                  == DigestOf(SignedAt(site, last.value))
               <==> PairOf(sent.header) == last.value.pair))
  {
    ServedAttestation(site, initial, events);
    var last := InForce(site, initial, events);
    if last.Some? {
      DigestOfServed(site, last.value, Response(site, initial, events));
    }
  }

  lemma DigestOfServed(site: Site, s: Sight, sent: Sent)
    requires Correct(site.crypto) && SignPair(site, s.pair, s.env) == Ok(Forwarded(sent))
    ensures Filled(ChallengeOf(site, s.pair), s.env).Ok? && Decode(Forwarded(sent)).Ok?
    ensures HeadersApart(s.pair.0, s.pair.1) ==>
      (DigestOf(Claimed(Received(site, Flatten(sent.header)), Decode(Forwarded(sent)).value))
          == DigestOf(SignedAt(site, s))
       <==> PairOf(sent.header) == s.pair)
  {
    ReceivedIsServed(site, sent.header);
    DecodeServed(site, s, Forwarded(sent), PairOf(sent.header));
    if HeadersApart(s.pair.0, s.pair.1) {
      SameDigest(SignedAt(site, s), PairOf(sent.header));
    }
  }

  lemma SameDigest(signed: Challenge, p: Pair)
    requires HeadersApart(signed.paymentRequired, signed.wwwAuthenticate)
    ensures DigestOf(WithHeaders(signed, p.0, p.1)) == DigestOf(signed)
        <==> p == (signed.paymentRequired, signed.wwwAuthenticate)
  {
    HeadersUnambiguous(signed);
    var other := WithHeaders(signed, p.0, p.1);
    if DigestOf(other) == DigestOf(signed) {
      PreimageInjective(CanonicalBytes(other), CanonicalBytes(signed));
    }
  }

  /** Without a signature the payer finds no attestation. */
  lemma PayerMissesAttestation(site: Site, initial: Header, events: seq<Event>, expectedSigner: string, maxAge: int,
          now: int)
    requires Orderly(initial, events) && InForce(site, initial, events).None?
    ensures ATTESTATION !in Response(site, initial, events).header
    ensures Check(site, Response(site, initial, events), expectedSigner, maxAge, now) == Err(MissingAttestation)
  {
    ServedAttestation(site, initial, events);
  }

  /** If the challenge that leaves is the one in force, the payer's verdict depends on its age alone. */
  lemma PayerAcceptsSigned(site: Site, initial: Header, events: seq<Event>, expectedSigner: string, maxAge: int,
          now: int)
    requires Correct(site.crypto) && Orderly(initial, events)
    requires ParseAddress(expectedSigner) == Some(site.crypto.addressOf(site.key))
    requires var last := InForce(site, initial, events);
      last.Some? && last.value.pair == PairOf(Response(site, initial, events).header)
    ensures AgeDecides(Check(site, Response(site, initial, events), expectedSigner, maxAge, now),
                       InForce(site, initial, events).value.env.now, maxAge, now)
  {
    var sent, s := Response(site, initial, events), InForce(site, initial, events).value;
    ServedAttestation(site, initial, events);
    ReceivedIsServed(site, sent.header);
    VerifySigned(site, s.pair, s.env, Forwarded(sent), expectedSigner, maxAge, now);
  }

  lemma VerifySigned(site: Site, p: Pair, env: Env, value: string, expectedSigner: string, maxAge: int, now: int)
    requires Correct(site.crypto) && SignPair(site, p, env) == Ok(value)
    requires ParseAddress(expectedSigner) == Some(site.crypto.addressOf(site.key))
    ensures AgeDecides(Verify(site.crypto, Decode, value, ChallengeOf(site, p), expectedSigner, maxAge, now),
                       env.now, maxAge, now)
  {
    var ch := ChallengeOf(site, p);
    VerifyAttested(site.crypto, site.key, ch, env, value, ch, expectedSigner, maxAge, now);
  }

  // ---- what a stale attestation is worth ----

  /** No other message the operator signed opens with the same site, moment and nonce. */
  ghost predicate SignedOnce(log: seq<SignedMessage>, signed: Challenge) {
    forall m :: m in log && Opening(signed) <= MessageOf(m) ==> m == Attested(signed)
  }

  /** Nobody has forged a signature over what the payer computes from this response. */
  ghost predicate Genuine(site: Site, sent: Sent, s: Sight, log: seq<SignedMessage>, circulating: set<Signature>) {
    && Unforgeable(site.crypto, site.crypto.addressOf(site.key), log, circulating)
    && Decode(Forwarded(sent)).Ok? && SignatureOf(Decode(Forwarded(sent)).value).Ok?
    && SignatureOf(Decode(Forwarded(sent)).value).value in circulating
    && Filled(ChallengeOf(site, s.pair), s.env).Ok? && SignedOnce(log, SignedAt(site, s))
    && HeadersApart(s.pair.0, s.pair.1)
  }

  lemma RefusesOther(site: Site, s: Sight, sent: Sent, expectedSigner: string, maxAge: int, now: int,
                     log: seq<SignedMessage>, circulating: set<Signature>)
    requires Correct(site.crypto) && SignPair(site, s.pair, s.env) == Ok(Forwarded(sent))
    requires ParseAddress(expectedSigner) == Some(site.crypto.addressOf(site.key))
    requires s.pair != PairOf(sent.header) && Genuine(site, sent, s, log, circulating)
    ensures Check(site, sent, expectedSigner, maxAge, now).Err?
  {
    var p, value := PairOf(sent.header), Forwarded(sent);
    ReceivedIsServed(site, sent.header);
    DecodeServed(site, s, value, p);
    if Check(site, sent, expectedSigner, maxAge, now).Ok? {
      var m := AcceptedWasSigned(site.crypto, Decode, value, ChallengeOf(site, p), expectedSigner, maxAge, now, log,
          circulating);
      OnlySigned(log, SignedAt(site, s), WithHeaders(SignedAt(site, s), p.0, p.1), m);
      SameDigest(SignedAt(site, s), p);
    }
  }

  /** A signature for one challenge is refused on a response that carries another. */
  lemma PayerRefusesStale(site: Site, initial: Header, events: seq<Event>, expectedSigner: string, maxAge: int,
          now: int,
                          log: seq<SignedMessage>, circulating: set<Signature>)
    requires Correct(site.crypto) && Orderly(initial, events)
    requires ParseAddress(expectedSigner) == Some(site.crypto.addressOf(site.key))
    requires var (sent, last) := (Response(site, initial, events), InForce(site, initial, events));
      last.Some? && last.value.pair != PairOf(sent.header) && Genuine(site, sent, last.value, log, circulating)
    ensures Check(site, Response(site, initial, events), expectedSigner, maxAge, now).Err?
  {
    ServedAttestation(site, initial, events);
    RefusesOther(site, InForce(site, initial, events).value, Response(site, initial, events), expectedSigner, maxAge,
        now, log, circulating);
  }

  lemma OnlySigned(log: seq<SignedMessage>, signed: Challenge, claimed: Challenge, m: SignedMessage)
    requires SignedOnce(log, signed) && claimed == WithHeaders(signed, claimed.paymentRequired, claimed.wwwAuthenticate)
    requires m in log && SignedDigest(m) == DigestOf(claimed)
    ensures DigestOf(claimed) == DigestOf(signed)
  {
    PreimageInjective(MessageOf(m), CanonicalBytes(claimed));
    SameOpening(signed, claimed.paymentRequired, claimed.wwwAuthenticate);
    assert Opening(signed) <= MessageOf(m);
  }

  /**
   After any run the payer accepts what leaves if and only if the challenge is the one last signed and
   the attestation is fresh: whatever the handlers did, in whatever order, however signing went, and
   whether the headers left through the wrapper or at the end of the request.
   */
  lemma PayerAcceptsExactly(site: Site, initial: Header, events: seq<Event>, expectedSigner: string, maxAge: int,
          now: int,
                            log: seq<SignedMessage>, circulating: set<Signature>)
    requires Correct(site.crypto) && Orderly(initial, events)
    requires ParseAddress(expectedSigner) == Some(site.crypto.addressOf(site.key))
    requires var (sent, last) := (Response(site, initial, events), InForce(site, initial, events));
      last.Some? && last.value.pair != PairOf(sent.header) ==> Genuine(site, sent, last.value, log, circulating)
    ensures var (sent, last) := (Response(site, initial, events), InForce(site, initial, events));
            var limit := if maxAge > 0 then maxAge else 300_000_000_000;
      Check(site, sent, expectedSigner, maxAge, now).Ok? <==>
        && last.Some? && last.value.pair == PairOf(sent.header)
        && -limit <= now - last.value.env.now * 1_000_000_000 <= limit
  {
    var sent, last := Response(site, initial, events), InForce(site, initial, events);
    if last.None? {
      PayerMissesAttestation(site, initial, events, expectedSigner, maxAge, now);
    } else if last.value.pair == PairOf(sent.header) {
      PayerAcceptsSigned(site, initial, events, expectedSigner, maxAge, now);
    } else {
      PayerRefusesStale(site, initial, events, expectedSigner, maxAge, now, log, circulating);
    }
  }

  // ---- when signing does not fail ----

  /** The curve never refuses to sign. */
  ghost predicate AlwaysSigns(site: Site) {
    Correct(site.crypto) && forall digest :: site.crypto.sign(digest, site.key).Some?
  }

  /** Random bytes are available at every wrapper call. */
  predicate Supplied(events: seq<Event>) {
    forall i :: 0 <= i < |events| && IsCall(events[i].0) ==> events[i].1.random.Some?
  }

  /** The last challenge seen on a 402. */
  function LastChallenge(seen: seq<Sight>): Option<Pair> {
    if seen == [] then None
    else
      var s := seen[|seen| - 1];
      if s.status == STATUS_PAYMENT_REQUIRED && s.pair != NO_CHALLENGE then Some(s.pair)
          else LastChallenge(seen[..|seen| - 1])
  }

  lemma {:induction false} SeenSupplied(sign: Signing, initial: Header, events: seq<Event>)
    requires Supplied(events)
    ensures forall s :: s in Seen(sign, initial, events) ==> s.env.random.Some?
    decreases |events|
  {
    if events != [] {
      SeenSupplied(sign, initial, events[..|events| - 1]);
    }
  }

  lemma {:induction false} SignsLastChallenge(sign: Signing, seen: seq<Sight>)
    requires forall s :: s in seen ==> sign(s.pair, s.env).Ok?
    ensures var last := LastSigned(sign, seen);
      LastChallenge(seen) == if last.Some? then Some(last.value.pair) else None
    decreases |seen|
  {
    if seen != [] {
      SignsLastChallenge(sign, seen[..|seen| - 1]);
    }
  }

  /** With reliable signing, the challenge in force is the last one a wrapper call saw on a 402. */
  lemma ReliableInForce(site: Site, initial: Header, events: seq<Event>)
    requires AlwaysSigns(site) && Supplied(events)
    ensures var last := InForce(site, initial, events);
      LastChallenge(Seen(SigningOf(site), initial, events)) == if last.Some? then Some(last.value.pair) else None
  {
    var sign := SigningOf(site);
    var seen := Seen(sign, initial, events);
    SeenSupplied(sign, initial, events);
    forall s | s in seen ensures sign(s.pair, s.env).Ok? {
      assert Filled(ChallengeOf(site, s.pair), s.env).Ok?;
    }
    SignsLastChallenge(sign, seen);
  }

  /**
   Every 402 with a challenge is accepted by a payer who knows the operator's address and sees only
   the forwarded headers, for as long as the attestation is fresh, whatever the handlers did with
   headers, status and body, and in whatever order. Headers left for gin's end-of-request flush
   must carry the last challenge a wrapper call saw on a 402.
   */
  lemma PayerAcceptsServed(site: Site, initial: Header, events: seq<Event>, expectedSigner: string)
    requires AlwaysSigns(site) && Supplied(events) && Orderly(initial, events)
    requires ParseAddress(expectedSigner) == Some(site.crypto.addressOf(site.key))
    requires var sent := Response(site, initial, events);
      sent.status == STATUS_PAYMENT_REQUIRED && PairOf(sent.header) != NO_CHALLENGE
    requires Steps(site, initial, events).gin.sent.None? ==>
      LastChallenge(Seen(SigningOf(site), initial, events)) == Some(PairOf(Response(site, initial, events).header))
    ensures InForce(site, initial, events).Some?
    ensures forall maxAge, now ::
      AgeDecides(Check(site, Response(site, initial, events), expectedSigner, maxAge, now),
                 InForce(site, initial, events).value.env.now, maxAge, now)
  {
    StepsAreRun(site, initial, events);
    LeftThroughWrapper(SigningOf(site), initial, events);
    ReliableInForce(site, initial, events);
    forall maxAge, now
      ensures AgeDecides(Check(site, Response(site, initial, events), expectedSigner, maxAge, now),
                         InForce(site, initial, events).value.env.now, maxAge, now)
    {
      PayerAcceptsSigned(site, initial, events, expectedSigner, maxAge, now);
    }
  }

  // ---- the ways to leave without an acceptable attestation ----

  lemma RunAppend(sign: Signing, initial: Header, events: seq<Event>, e: Event)
    ensures Run(sign, initial, events + [e]) == Next(sign, Run(sign, initial, events), e)
    ensures Seen(sign, initial, events + [e]) == Seen(sign, initial, events) + SightBy(Run(sign, initial, events), e)
  {
    assert (events + [e])[..|events|] == events;
  }

  /** Telling the writer 402 before there is a challenge. */
  function Late(told: Env, priced: Env): seq<Event> {
    [(WriteHeader(STATUS_PAYMENT_REQUIRED), told), (SetHeader(PAYMENT_REQUIRED, "a"), priced)]
  }

  lemma LateState(sign: Signing, told: Env, priced: Env)
    ensures var w := Run(sign, map[], Late(told, priced));
      w.gin.sent.None? && w.gin.status == STATUS_PAYMENT_REQUIRED && PairOf(w.gin.header) == ("a", "")
    ensures LastSigned(sign, Seen(sign, map[], Late(told, priced))) == None
  {
    var events := Late(told, priced);
    assert [] + [events[0]] == events[..1] && events[..1] + [events[1]] == events;
    RunAppend(sign, map[], [], events[0]);
    RunAppend(sign, map[], events[..1], events[1]);
    SeenAppend(sign, [], Sight(STATUS_PAYMENT_REQUIRED, NO_CHALLENGE, told));
    assert [] + [Sight(STATUS_PAYMENT_REQUIRED, NO_CHALLENGE, told)] == Seen(sign, map[], events);
  }

  /** A challenge set only after the last wrapper call leaves with no attestation at all. */
  lemma FlushWithoutAttestation(site: Site, told: Env, priced: Env, expectedSigner: string, maxAge: int, now: int)
    ensures var sent := Response(site, map[], Late(told, priced));
      && sent.status == STATUS_PAYMENT_REQUIRED && PairOf(sent.header) == ("a", "") && ATTESTATION !in sent.header
      && Check(site, sent, expectedSigner, maxAge, now) == Err(MissingAttestation)
  {
    var events := Late(told, priced);
    LateState(SigningOf(site), told, priced);
    StepsAreRun(site, map[], events);
    PayerMissesAttestation(site, map[], events, expectedSigner, maxAge, now);
  }

  /** Pricing a request, telling the writer 402, and pricing it anew. */
  function Repriced(priced: Env, told: Env, repriced: Env): seq<Event> {
    [(SetHeader(PAYMENT_REQUIRED, "a"), priced), (WriteHeader(STATUS_PAYMENT_REQUIRED), told),
        (SetHeader(PAYMENT_REQUIRED, "b"), repriced)]
  }

  lemma PricedStep(sign: Signing, w: Writer, value: string, env: Env)
    requires w.gin.sent.None?
    ensures var (e, p) := ((SetHeader(PAYMENT_REQUIRED, value), env), PairOf(w.gin.header));
      && Next(sign, w, e).gin.sent.None? && Next(sign, w, e).gin.status == w.gin.status
      && PairOf(Next(sign, w, e).gin.header) == (value, p.1) && SightBy(w, e) == []
  {
  }

  lemma ToldStep(sign: Signing, w: Writer, env: Env)
    requires w.gin.sent.None?
    ensures var (e, p) := ((WriteHeader(STATUS_PAYMENT_REQUIRED), env), PairOf(w.gin.header));
      && Next(sign, w, e).gin.sent.None? && Next(sign, w, e).gin.status == STATUS_PAYMENT_REQUIRED
      && PairOf(Next(sign, w, e).gin.header) == p && SightBy(w, e) == [Sight(STATUS_PAYMENT_REQUIRED, p, env)]
  {
  }

  lemma RepricedState(sign: Signing, priced: Env, told: Env, repriced: Env)
    requires sign(("a", ""), told).Ok?
    ensures var (w, seen) := (Run(sign, map[], Repriced(priced, told, repriced)),
        Seen(sign, map[], Repriced(priced, told, repriced)));
      && w.gin.sent.None? && w.gin.status == STATUS_PAYMENT_REQUIRED && PairOf(w.gin.header) == ("b", "")
      && LastSigned(sign, seen) == Some(Sight(STATUS_PAYMENT_REQUIRED, ("a", ""), told))
  {
    var events := Repriced(priced, told, repriced);
    assert [] + [events[0]] == events[..1] && events[..1] + [events[1]] == events[..2];
    assert events[..2] + [events[2]] == events;
    RunAppend(sign, map[], [], events[0]);
    RunAppend(sign, map[], events[..1], events[1]);
    RunAppend(sign, map[], events[..2], events[2]);
    PricedStep(sign, Start(map[]), "a", priced);
    ToldStep(sign, Run(sign, map[], events[..1]), told);
    PricedStep(sign, Run(sign, map[], events[..2]), "b", repriced);
    var s := Sight(STATUS_PAYMENT_REQUIRED, ("a", ""), told);
    SeenAppend(sign, [], s);
    assert [] + [s] == [] + [] + [s] + [] == Seen(sign, map[], events);
  }

  /** A 402 with challenge "b" carries the attestation of challenge "a". */
  predicate LeavesStale(sign: Signing, events: seq<Event>, told: Env)
    requires sign(("a", ""), told).Ok?
  {
    var sent := Served(Run(sign, map[], events));
    && Orderly(map[], events) && sent.status == STATUS_PAYMENT_REQUIRED && PairOf(sent.header) == ("b", "")
    && Get(sent.header, ATTESTATION) == sign(("a", ""), told).value
  }

  /** A challenge changed after the last wrapper call leaves with the signature of the earlier one. */
  lemma FlushAfterChange(sign: Signing, priced: Env, told: Env, repriced: Env)
    requires sign(("a", ""), told).Ok?
    ensures LeavesStale(sign, Repriced(priced, told, repriced), told)
  {
    RepricedState(sign, priced, told, repriced);
    RunInv(sign, map[], Repriced(priced, told, repriced));
  }

  /** So does a challenge whose signing fails, although it leaves through the wrapper. */
  lemma FailedResigning(sign: Signing, priced: Env, told: Env, repriced: Env, written: Env, body: string)
    requires sign(("a", ""), told).Ok? && sign(("b", ""), written).Err?
    ensures LeavesStale(sign, Repriced(priced, told, repriced) + [(Write(body), written)], told)
  {
    var before, e: Event := Repriced(priced, told, repriced), (Write(body), written);
    RepricedState(sign, priced, told, repriced);
    RunAppend(sign, map[], before, e);
    SeenAppend(sign, Seen(sign, map[], before), Sight(STATUS_PAYMENT_REQUIRED, ("b", ""), written));
    LeftThroughWrapper(sign, map[], before + [e]);
    RunInv(sign, map[], before + [e]);
  }
}
