/**
 EIP-191 personal_sign (version 0x45) over the two kinds of message the staking key signs:
 attestations (tunnel/internal/attest/attest.go) and proxy handshakes (tunnel/internal/client.go).
 */
module PersonalSign {
  import opened Text
  import opened Canonical

  /** Keccak-256, idealised: a digest is known by its preimage, so equal digests have equal preimages. */
  datatype Digest = Keccak256(preimage: string)

  const SIGN_PREFIX := "\U{19}Ethereum Signed Message:\n"

  function Preimage(message: string): string {
    SIGN_PREFIX + (Decimal(|message|) + message)
  }

  /** accounts.TextHash. */
  function TextHash(message: string): Digest { Keccak256(Preimage(message)) }

  /** Challenge.digest. */
  function DigestOf(ch: Challenge): Digest { TextHash(CanonicalBytes(ch)) }

  /** Version 0x45 of EIP-191: the byte 0x19, "Ethereum Signed Message:" and the length in decimal. */
  lemma PreimageLayout(message: string)
    ensures Preimage(message) == [25 as char] + ("Ethereum Signed Message:\n" + (Decimal(|message|) + message))
    ensures Preimage(message)[1] as int == 0x45
  {
    assert SIGN_PREFIX == [25 as char] + "Ethereum Signed Message:\n";
  }

  /** Nothing separates the printed length from the message, yet the preimage determines both. */
  lemma PreimageInjective(m: string, n: string)
    requires Preimage(m) == Preimage(n)
    ensures m == n
  {
    SamePrefixLength(SIGN_PREFIX, Decimal(|m|) + m, SIGN_PREFIX, Decimal(|n|) + n);
    if |m| <= |n| {
      DigitCountMonotone(|m|, |n|);
    } else {
      DigitCountMonotone(|n|, |m|);
    }
    assert |Decimal(|m|) + m| == |Decimal(|n|) + n|;
    SamePrefixLength(Decimal(|m|), m, Decimal(|n|), n);
  }

  const TUNNEL_AUTH_PREFIX := "RoboPay-Tunnel-Auth-v1"

  /** What the robot signs to prove it holds the staking key. */
  function TunnelAuthMessage(robotID: string, nonce: string): string {
    TUNNEL_AUTH_PREFIX + (Label("robot_id") + (robotID + (Label("nonce") + nonce)))
  }

  /** The bytes the proxy hashes to recover the address it gates on. */
  lemma HandshakeLayout(robotID: string, nonce: string)
    ensures TunnelAuthMessage(robotID, nonce) == "RoboPay-Tunnel-Auth-v1\nrobot_id:" + (robotID + ("\nnonce:" + nonce))
  {
    assert Label("robot_id") == "\nrobot_id:" && Label("nonce") == "\nnonce:";
    assert TUNNEL_AUTH_PREFIX + "\nrobot_id:" == "RoboPay-Tunnel-Auth-v1\nrobot_id:";
  }

  /** A message the staking key has signed. */
  datatype SignedMessage =
    | Attested(ch: Challenge)
    | Handshake(robotID: string, nonce: string)

  function MessageOf(m: SignedMessage): string {
    match m
    case Attested(ch) => CanonicalBytes(ch)
    case Handshake(robotID, nonce) => TunnelAuthMessage(robotID, nonce)
  }

  function SignedDigest(m: SignedMessage): Digest { TextHash(MessageOf(m)) }

  /** The two domain prefixes keep the two kinds of message apart. */
  lemma DomainsDisjoint(ch: Challenge, robotID: string, nonce: string)
    ensures DigestOf(ch) != SignedDigest(Handshake(robotID, nonce))
  {
    var x, y := CanonicalBytes(ch), TunnelAuthMessage(robotID, nonce);
    var k := |"RoboPay-"|;
    assert x[k] == MESSAGE_PREFIX[k] == 'P';
    assert y[k] == TUNNEL_AUTH_PREFIX[k] == 'T';
    if Preimage(x) == Preimage(y) {
      PreimageInjective(x, y);
    }
  }

  /** Only the challenge itself was signed under its digest: exactly when it is free of tags. */
  lemma DigestNamesChallenge(ch: Challenge)
    ensures (forall m :: SignedDigest(m) == DigestOf(ch) ==> m == Attested(ch)) <==> TagFree(ch)
  {
    UnambiguousExactlyWhenTagFree(ch);
    if TagFree(ch) {
      forall m | SignedDigest(m) == DigestOf(ch) ensures m == Attested(ch) {
        var other := AttestedUnder(m, ch);
      }
    } else {
      var other :| CanonicalBytes(other) == CanonicalBytes(ch) && other != ch;
      assert SignedDigest(Attested(other)) == DigestOf(ch);
    }
  }

  /** A signed message with the digest of a challenge is an attestation of the same bytes. */
  lemma AttestedUnder(m: SignedMessage, ch: Challenge) returns (other: Challenge)
    requires SignedDigest(m) == DigestOf(ch)
    ensures m == Attested(other) && CanonicalBytes(other) == CanonicalBytes(ch)
  {
    other := ch;
    match m
    case Handshake(robotID, nonce) =>
      DomainsDisjoint(ch, robotID, nonce);
    case Attested(attested) =>
      PreimageInjective(CanonicalBytes(attested), CanonicalBytes(ch));
      other := attested;
  }

  /** A handshake message determines the robot and the nonce exactly when neither contains the nonce label. */
  lemma HandshakeUnambiguous(robotID: string, nonce: string)
    ensures (forall r, n :: TunnelAuthMessage(r, n) == TunnelAuthMessage(robotID, nonce) ==> r == robotID && n == nonce)
       <==> !Contains(robotID, Label("nonce")) && !Contains(nonce, Label("nonce"))
  {
    var tag := Label("nonce");
    OneTagUnambiguous(robotID, tag, nonce);
    forall r, n
      ensures TunnelAuthMessage(r, n) == TunnelAuthMessage(robotID, nonce)
          <==> Around(r, tag, n) == Around(robotID, tag, nonce)
    {
      SameHandshake(r, n, robotID, nonce);
    }
  }

  lemma SameHandshake(r: string, n: string, robotID: string, nonce: string)
    ensures TunnelAuthMessage(r, n) == TunnelAuthMessage(robotID, nonce) <==>
      Around(r, Label("nonce"), n) == Around(robotID, Label("nonce"), nonce)
  {
    var x, y := Around(r, Label("nonce"), n), Around(robotID, Label("nonce"), nonce);
    if TunnelAuthMessage(r, n) == TunnelAuthMessage(robotID, nonce) {
      SamePrefixLength(TUNNEL_AUTH_PREFIX, Label("robot_id") + x, TUNNEL_AUTH_PREFIX, Label("robot_id") + y);
      SamePrefixLength(Label("robot_id"), x, Label("robot_id"), y);
    }
  }
}
