/**
 A request whose payment is refused, from the gate to the payer: what the verifier that decided and
 the MPP gate do with the writer, and what the payer can then check.
 */
module RefusedRequest {
  import opened Wrappers
  import opened Http
  import opened Attest
  import opened AttestWriter
  import opened ServedChallenge
  import opened Transparency
  import P = PaymentPipeline

  // ---- what a refusal does with the writer ----

  /** Changes to headers that have nothing to do with the challenge. */
  predicate Quiet(a: Action) { !IsCall(a) && a.name !in {PAYMENT_REQUIRED, WWW_AUTHENTICATE, ATTESTATION} }

  /** What a refusal does before anything leaves: its own header, the status, other headers, in any order. */
  predicate Prepares(a: Action, name: string, requirement: string) {
    a == SetHeader(name, requirement) || a == WriteHeader(STATUS_PAYMENT_REQUIRED) || Quiet(a)
  }

  predicate Does(events: seq<Event>, a: Action) { exists i :: 0 <= i < |events| && events[i].0 == a }

  /** Header and status are set before event `k` emits them; what is done after that is of no consequence. */
  predicate Refuses(events: seq<Event>, k: nat, name: string, requirement: string) {
    && k < |events| && Emits(events[k].0)
    && (forall i :: 0 <= i < k ==> Prepares(events[i].0, name, requirement))
    && Does(events[..k], SetHeader(name, requirement)) && Does(events[..k], WriteHeader(STATUS_PAYMENT_REQUIRED))
  }

  function WithValue(p: Pair, name: string, value: string): Pair {
    if name == PAYMENT_REQUIRED then (value, p.1) else (p.0, value)
  }

  lemma DoesAppend(events: seq<Event>, e: Event, a: Action)
    ensures Does(events + [e], a) <==> Does(events, a) || e.0 == a
  {
    if Does(events, a) {
      var i :| 0 <= i < |events| && events[i].0 == a;
      assert (events + [e])[i].0 == a;
    }
    assert (events + [e])[|events|] == e;
  }

  /** A pending response, as far as a refusal is concerned. */
  predicate Pending(w: Writer, status: int, p: Pair) {
    w.gin.sent.None? && w.gin.status == status && PairOf(w.gin.header) == p
  }

  lemma PrepareStep(sign: Signing, w: Writer, e: Event, name: string, requirement: string)
    requires name in {PAYMENT_REQUIRED, WWW_AUTHENTICATE} && Prepares(e.0, name, requirement) && w.gin.sent.None?
    ensures var p := PairOf(w.gin.header);
      Pending(Next(sign, w, e), if e.0.WriteHeader? then STATUS_PAYMENT_REQUIRED else w.gin.status,
              if e.0 == SetHeader(name, requirement) then WithValue(p, name, requirement) else p)
  {
  }

  lemma {:induction false} PrepareRun(sign: Signing, initial: Header, before: seq<Event>, events: seq<Event>,
                                      name: string, requirement: string)
    requires name in {PAYMENT_REQUIRED, WWW_AUTHENTICATE} && Run(sign, initial, before).gin.sent.None?
    requires forall i :: 0 <= i < |events| ==> Prepares(events[i].0, name, requirement)
    ensures var w := Run(sign, initial, before);
      Pending(Run(sign, initial, before + events),
              if Does(events, WriteHeader(STATUS_PAYMENT_REQUIRED)) then STATUS_PAYMENT_REQUIRED else w.gin.status,
              if Does(events, SetHeader(name, requirement)) then WithValue(PairOf(w.gin.header), name, requirement)
              else PairOf(w.gin.header))
    decreases |events|
  {
    if events == [] {
      assert before + events == before;
    } else {
      var rest, e := events[..|events| - 1], events[|events| - 1];
      assert events == rest + [e] && before + events == before + rest + [e];
      PrepareRun(sign, initial, before, rest, name, requirement);
      DoesAppend(rest, e, WriteHeader(STATUS_PAYMENT_REQUIRED));
      DoesAppend(rest, e, SetHeader(name, requirement));
      RunAppend(sign, initial, before + rest, e);
      PrepareStep(sign, Run(sign, initial, before + rest), e, name, requirement);
    }
  }

  /** What a 402 has left with. */
  predicate LeftWith(w: Writer, p: Pair) {
    w.gin.sent.Some? && w.gin.sent.value.status == STATUS_PAYMENT_REQUIRED && PairOf(w.gin.sent.value.header) == p
  }

  lemma EmitStep(sign: Signing, w: Writer, e: Event, p: Pair)
    requires Pending(w, STATUS_PAYMENT_REQUIRED, p) && Emits(e.0)
    ensures LeftWith(Next(sign, w, e), p)
  {
  }

  lemma EmissionLeaves(sign: Signing, initial: Header, before: seq<Event>, e: Event, rest: seq<Event>, p: Pair)
    requires Pending(Run(sign, initial, before), STATUS_PAYMENT_REQUIRED, p) && Emits(e.0)
    ensures LeftWith(Run(sign, initial, before + [e] + rest), p)
  {
    RunAppend(sign, initial, before, e);
    EmitStep(sign, Run(sign, initial, before), e, p);
    SentStays(sign, initial, before + [e], rest);
  }

  lemma SplitAround(before: seq<Event>, events: seq<Event>, k: nat)
    requires k < |events|
    ensures before + events[..k] + [events[k]] + events[k + 1..] == before + events
  {
  }

  /** The response leaves as a 402 with the refusal's header beside whatever challenge was there. */
  lemma RefusalLeaves(sign: Signing, initial: Header, before: seq<Event>, events: seq<Event>, k: nat, name: string,
          requirement: string)
    requires name in {PAYMENT_REQUIRED, WWW_AUTHENTICATE} && Refuses(events, k, name, requirement)
    requires Run(sign, initial, before).gin.sent.None?
    ensures LeftWith(Run(sign, initial, before + events),
        WithValue(PairOf(Run(sign, initial, before).gin.header), name, requirement))
  {
    PrepareRun(sign, initial, before, events[..k], name, requirement);
    EmissionLeaves(sign, initial, before + events[..k], events[k], events[k + 1..],
                   WithValue(PairOf(Run(sign, initial, before).gin.header), name, requirement));
    SplitAround(before, events, k);
  }

  // ---- a refused request ----

  /** The priced route, with no malformed credential, refused by the verifier its headers select. */
  predicate Refused(w: P.World, r: P.Request) {
    && !w.preflight && r.httpMethod == "POST" && r.path == "/action" && w.findCredential(r.authorization).Ok?
    && Verdict(w, r).Refuse?
  }

  function Verdict(w: P.World, r: P.Request): P.Verdict
    requires w.findCredential(r.authorization).Ok?
  {
    var found := w.findCredential(r.authorization).value;
    if found == "" then w.x402 else w.charge(found)
  }

  /** The header each verifier puts its requirement in. */
  function Requirement(w: P.World, r: P.Request): string {
    if w.findCredential(r.authorization) == Ok("") then PAYMENT_REQUIRED else WWW_AUTHENTICATE
  }

  /** advertise runs only without any payment. */
  function Offered(w: P.World, r: P.Request): string {
    if w.findCredential(r.authorization) == Ok("") && r.paymentSignature == "" && P.Challenge(w).Some?
    then P.Challenge(w).value
    else ""
  }

  predicate Advertises(w: P.World, r: P.Request, events: seq<Event>) {
    if w.findCredential(r.authorization) == Ok("") && r.paymentSignature == "" && P.Challenge(w).Some?
    then |events| == 1 && events[0].0 == AddHeader(WWW_AUTHENTICATE, P.Challenge(w).value)
    else events == []
  }

  /** No handler has set a challenge or an attestation yet. */
  predicate Unmarked(initial: Header) {
    PAYMENT_REQUIRED !in initial && WWW_AUTHENTICATE !in initial && ATTESTATION !in initial
  }

  lemma OfferedStep(w: Writer, challenge: string, signed: Result<string, Error>)
    requires w.gin.sent.None? && PAYMENT_REQUIRED !in w.gin.header && WWW_AUTHENTICATE !in w.gin.header
    ensures Pending(StepWith(w, AddHeader(WWW_AUTHENTICATE, challenge), signed), w.gin.status, ("", challenge))
  {
  }

  lemma AdvertisementWaits(sign: Signing, initial: Header, w: P.World, r: P.Request, events: seq<Event>)
    requires Unmarked(initial) && Advertises(w, r, events)
    ensures Pending(Run(sign, initial, events), STATUS_OK, ("", Offered(w, r)))
  {
    if events == [] {
      assert Run(sign, initial, events) == Start(initial);
    } else {
      var e := events[0];
      assert events == [] + [e];
      RunAppend(sign, initial, [], e);
      assert Run(sign, initial, []) == Start(initial);
      OfferedStep(Start(initial), P.Challenge(w).value, sign(PairOf(initial), e.1));
    }
  }

  /** The pair of challenges that leave, with the gate's own beside x402's. */
  function Challenges(w: P.World, r: P.Request): Pair
    requires Refused(w, r)
  {
    WithValue(("", Offered(w, r)), Requirement(w, r), Verdict(w, r).requirement)
  }

  lemma ResponseLeaves(sign: Signing, initial: Header, w: P.World, r: P.Request, offer: seq<Event>,
          events: seq<Event>, k: nat)
    requires Refused(w, r) && Unmarked(initial) && Advertises(w, r, offer)
    requires Refuses(events, k, Requirement(w, r), Verdict(w, r).requirement)
    ensures LeftWith(Run(sign, initial, offer + events), Challenges(w, r))
    ensures Run(sign, initial, offer + events).gin.body == Written(offer + events)
  {
    AdvertisementWaits(sign, initial, w, r, offer);
    RefusalLeaves(sign, initial, offer, events, k, Requirement(w, r), Verdict(w, r).requirement);
    BodyIsWritten(sign, initial, offer + events);
  }

  /** The pipeline's own account of the response agrees with the writer's. */
  lemma DecidedAsLeft(w: P.World, r: P.Request)
    requires Refused(w, r)
    ensures P.Serve(w, r, true).status == STATUS_PAYMENT_REQUIRED
    ensures PairOf(P.Serve(w, r, true).header) == Challenges(w, r)
  {
    if w.findCredential(r.authorization) == Ok("") {
      P.RefusedUnpaidSeesBothChallenges(w, r);
    } else {
      P.RefusedCredentialEndsThere(w, r);
    }
  }

  lemma LeftIsServed(site: Site, initial: Header, events: seq<Event>, p: Pair)
    requires LeftWith(Run(SigningOf(site), initial, events), p)
    ensures var sent := Response(site, initial, events);
      && Steps(site, initial, events).gin.sent.Some?
      && sent.status == STATUS_PAYMENT_REQUIRED && PairOf(sent.header) == p
      && Received(site, Flatten(sent.header)) == ChallengeOf(site, p)
  {
    StepsAreRun(site, initial, events);
    ReceivedIsServed(site, Response(site, initial, events).header);
  }

  /**
   The payer of a refused request, refused by x402 or by the MPP charge, is served what the pipeline
   decided, and accepts it as the operator's own from the forwarded headers for as long as it is fresh.
   */
  lemma RefusedPayerIsServed(site: Site, initial: Header, w: P.World, r: P.Request, offer: seq<Event>,
          events: seq<Event>, k: nat,
                             expectedSigner: string)
    requires Refused(w, r) && Verdict(w, r).requirement != "" && Unmarked(initial) && Advertises(w, r, offer)
    requires Refuses(events, k, Requirement(w, r), Verdict(w, r).requirement)
    requires AlwaysSigns(site) && Supplied(offer + events) && Orderly(initial, offer + events)
    requires ParseAddress(expectedSigner) == Some(site.crypto.addressOf(site.key))
    ensures var sent := Response(site, initial, offer + events);
      && sent.status == P.Serve(w, r, true).status
      && Received(site, Flatten(sent.header)) == ChallengeOf(site, PairOf(P.Serve(w, r, true).header))
    ensures InForce(site, initial, offer + events).Some?
    ensures forall maxAge, now ::
      AgeDecides(Check(site, Response(site, initial, offer + events), expectedSigner, maxAge, now),
                 InForce(site, initial, offer + events).value.env.now, maxAge, now)
  {
    ResponseLeaves(SigningOf(site), initial, w, r, offer, events, k);
    LeftIsServed(site, initial, offer + events, Challenges(w, r));
    DecidedAsLeft(w, r);
    PayerAcceptsServed(site, initial, offer + events, expectedSigner);
  }
}
