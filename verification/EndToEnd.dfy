/**
 From the handlers of a robot to the envelope the proxy receives: what the payer reads in it is what
 left the writer, whatever else the tunnel is doing.
 */
module EndToEnd {
  import opened Wrappers
  import opened Http
  import opened PersonalSign
  import opened Attest
  import opened AttestWriter
  import opened ServedChallenge
  import T = TunnelProtocol

  /** The envelope for a response that left a site. */
  function EnvelopeOf(request: T.Envelope, sent: Sent, body: string): T.Envelope {
    T.ResponseFor(request, T.Recorded(sent.status, sent.header, body))
  }

  /** Header names look the same in the envelope as they did to the signer. */
  lemma EnvelopeCarries(request: T.Envelope, sent: Sent, body: string)
    ensures var r := EnvelopeOf(request, sent, body);
      && r.id == request.id && r.status == sent.status && r.body == body
      && (Lookup(r.headers, PAYMENT_REQUIRED), Lookup(r.headers, WWW_AUTHENTICATE)) == PairOf(sent.header)
      && Lookup(r.headers, ATTESTATION) == Get(sent.header, ATTESTATION)
  {
    T.ResponseExactly(request, T.Recorded(sent.status, sent.header, body));
  }

  lemma SameVerdict(site: Site, request: T.Envelope, sent: Sent, body: string,
                    expectedSigner: string, maxAge: int, now: int)
    ensures PayerVerdict(site, EnvelopeOf(request, sent, body).headers, expectedSigner, maxAge, now)
         == Check(site, sent, expectedSigner, maxAge, now)
  {
    EnvelopeCarries(request, sent, body);
    ReceivedIsServed(site, sent.header);
    FlattenKeepsFirst(sent.header, ATTESTATION);
  }

  /**
   The payer of the envelope accepts it if and only if its challenge is the one last signed and the
   attestation is within its window.
   */
  lemma EnvelopeAcceptedExactly(site: Site, initial: Header, events: seq<Event>, request: T.Envelope, body: string,
                                expectedSigner: string, maxAge: int, now: int,
                                log: seq<SignedMessage>, circulating: set<Signature>)
    requires Correct(site.crypto) && Orderly(initial, events)
    requires ParseAddress(expectedSigner) == Some(site.crypto.addressOf(site.key))
    requires var (sent, last) := (Response(site, initial, events), InForce(site, initial, events));
      last.Some? && last.value.pair != PairOf(sent.header) ==> Genuine(site, sent, last.value, log, circulating)
    ensures var r := EnvelopeOf(request, Response(site, initial, events), body);
            var (last, limit) := (InForce(site, initial, events), if maxAge > 0 then maxAge else 300_000_000_000);
      PayerVerdict(site, r.headers, expectedSigner, maxAge, now).Ok? <==>
        && last.Some? && last.value.pair == (Lookup(r.headers, PAYMENT_REQUIRED), Lookup(r.headers, WWW_AUTHENTICATE))
        && -limit <= now - last.value.env.now * 1_000_000_000 <= limit
  {
    var sent := Response(site, initial, events);
    SameVerdict(site, request, sent, body, expectedSigner, maxAge, now);
    EnvelopeCarries(request, sent, body);
    PayerAcceptsExactly(site, initial, events, expectedSigner, maxAge, now, log, circulating);
  }

  /**
   The same for anything on the wire, after any schedule of the tunnel: a response answers some request
   read from its connection, and if what was recorded for that one left a site, the payer's verdict on
   the envelope is the verdict on what left.
   */
  lemma OnWireVerdict(encode: T.Encoding, labels: seq<T.Label>, c: nat, r: T.Envelope)
    returns (j: nat)
    requires T.Framed(encode) && T.Run(encode, labels).Some? && c < |T.Run(encode, labels).value.conns|
    requires r in T.OnWire(encode, T.Run(encode, labels).value, c)
    ensures T.FromJob(T.Run(encode, labels).value, c, r, j)
    ensures forall site: Site, sent: Sent, body, expectedSigner, maxAge, now ::
      T.Run(encode, labels).value.outcomes[j] == T.Recorded(sent.status, sent.header, body) ==>
        PayerVerdict(site, r.headers, expectedSigner, maxAge, now) == Check(site, sent, expectedSigner, maxAge, now)
  {
    T.AnswersTellOutcomes(encode, labels, c, r);
    var s := T.Run(encode, labels).value;
    j :| j < |s.jobs| && T.FromJob(s, c, r, j);
    forall site: Site, sent: Sent, body, expectedSigner, maxAge, now
      | s.outcomes[j] == T.Recorded(sent.status, sent.header, body)
      ensures PayerVerdict(site, r.headers, expectedSigner, maxAge, now)
           == Check(site, sent, expectedSigner, maxAge, now)
    {
      SameVerdict(site, s.jobs[j].request, sent, body, expectedSigner, maxAge, now);
    }
  }
}
