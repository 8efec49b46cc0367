# RoboPay tunnel: a verified model

The RoboPay tunnel connects a robot to a proxy. It serves paid requests over a WebSocket, answers unpaid ones with
`402` and a payment challenge, and signs that challenge with the operator's staking key so that a payer who knows the
operator's address can tell whether the proxy in between changed it. This project models the four parts of the Go
code in which that can go wrong, and proves what each of them is for.

| files | what they model |
|---|---|
| `Text`, `Utf8`, `Hex`, `Base64Url`, `Json` | the encodings an attestation passes through, down to characters and octets |
| `Canonical`, `PersonalSign`, `Attest` | the signed byte string, its EIP-191 digest, `Attest` and `Verify` |
| `Http`, `AttestWriter`, `ServedChallenge`, `Transparency` | the response writer that signs the challenge, and every run of it |
| `TunnelProtocol`, `Reconnect` | the client: one dispatcher per request under one write mutex, and the reconnect loop |
| `ChainId`, `Config`, `Regex`, `TokenRegistry` | validation, chain IDs, and the process-wide asset table |
| `PaymentPipeline` | the router: MPP gate, x402 and `PostAction` on gin's handler chain |
| `RefusedRequest` | a request whose payment is refused, from the gate through the attesting writer to the payer's check |
| `EndToEnd` | from the robot's handlers to the envelope the proxy receives |

Objects whose methods update them (`Signer`, gin's writer and the attesting writer around it, `Configuration`,
`Registry`, `GinContext`) are classes, loops are loops, and each method is proved equal to a specification function;
the theorems are about those functions. The concurrent client is a labelled transition system, because its
interleavings are the point.

## Main results

1. **Injectivity of the signed bytes.** The comment on `canonical` says the encoding is unambiguous. It is so for
   exactly those challenges none of whose fields contains the label around it (`UnambiguousExactlyWhenTagFree`, both
   directions). Newlines confined to one field, whichever it is, do no harm (`InjectiveExceptOneField`); newlines in
   two fields do (`TwoFieldsCollide`). The bytes themselves are the documented ones (`DocumentedLayout`).
2. **Attestation round trip and soundness.** `Verify` of a genuine attestation is decided by the window around its
   date alone, through hexadecimal, decimal, JSON with its UTF-8 repair, base64url and the shift of V
   (`VerifyAttested`); the one condition, a nonce of valid UTF-8, is exact (`DigestSurvivesExactly`). For any decoder,
   `AcceptsExactly` says what acceptance means and `RefusesInOrder` which error comes back; what `Verify` accepts was
   attested by the operator, field for field (`AcceptedWasAttested`). The assumptions behind that have a model for
   every plain challenge (`SoundnessAssumptionsConsistent`).
3. **End-to-end coverage.** For every sequence of header changes, status changes and writes, whether signing succeeds
   or not, the payer accepts what leaves if and only if its challenge is the one last signed and the attestation is
   within its window (`PayerAcceptsExactly`), also on the envelope the client sends (`EnvelopeAcceptedExactly`) and
   on any response found on the wire (`OnWireVerdict`). While signing does not fail, that is every 402 with a challenge
   that leaves through the wrapper, and every flushed one that carries the last challenge a wrapper call saw on a 402
   (`PayerAcceptsServed`). Apart from the attestation, the wrapper changes nothing (`LeavesWhatHandlersSet`).
4. **Exactly-once answers and whole frames** over all schedules and reconnects (`RunKeeps` and what follows from it),
   each answer being the one to its request as the handler ended (`AnswersTellOutcomes`).
5. **Reconnect traces**: attempts one by one (`RunInBlocks`), refusals for good (`RefusalEndsRun`), backoff, nonces,
   and a restart loop that never goes around (`RouterSetUpOnce`).
6. **Configuration**: the three regular expressions are recognised exactly (`PriceExactly`, `NetworkExactly`,
   `AddressExactly`); `Validate` accepts exactly the configurations that are sound once defaulted, returns the first
   complaint about any other (`RejectsFirstComplaint`), and is a fixed point on every path; the asset table does not
   remember earlier configurations, and the MPP gate charges what was configured (`ValidatedGate`).
7. **One decision per payment**: gin's index, `Abort` and nested `Next` amount to running the chain in order, and
   the action runs at most once, after the one verifier that decides, under whose name it is published. A
   refused request reaches its payer with the challenges the pipeline decided on, signed (`RefusedPayerIsServed`).

## Where the code and its comments differ

- `canonical` (tunnel/internal/attest/attest.go:76-77) is "unambiguous" only under the condition of result 1. The
  robot ID, method and path reach it unchecked.
- `Middleware` "attaches an attestation to every 402" (tunnel/internal/attest/middleware.go:16-17). A 402 without a
  challenge gets none. Nor does one whose only challenge is set after the last call on the wrapper
  (`FlushWithoutAttestation`). A challenge changed after that call, or one whose signing fails, leaves with the
  attestation of the challenge signed before it, if there was one (`FlushAfterChange`, `FailedResigning`), and the
  payer refuses that (`PayerRefusesStale`).
- The messages of `validateToken` and `validateMPP` expect decimals of 0-36; since 0 stands for the default, an
  accepted configuration has 1-36.
- `registerTokenAsset` undoes earlier configurations because "it runs on every (re)start of the router"
  (tunnel/cmd/main.go:126-127); the restart loop sets the router up once per process (`RouterSetUpOnce`).

## Assumptions

- Strings are sequences of characters that stand for octets, and header names are in canonical form.
- The curve is a record of functions: signing, when it succeeds, yields a recovery bit of 0 or 1 and a signature that
  recovers to the key's address (`Correct`). Keccak-256 is injective. Soundness assumes that among the signatures in
  circulation only digests the operator signed recover to the operator (`Unforgeable`).
- No handler writes the attestation header itself (`Orderly`). That signing succeeds and random bytes are available
  (`AlwaysSigns`, `Supplied`) is assumed only in `PayerAcceptsServed` and `RefusedPayerIsServed`. A stale attestation is
  refused if nobody forged a signature, no other message the operator signed opens with the same site, moment and
  nonce, and the two signed headers do not contain the label between them (`Genuine`).
- A WebSocket connection takes no bytes after a write on it has failed or it was closed, and no frame is empty.
- A run of the reconnect loop has a time at which its context is cancelled, however late, and a dial takes some time.
- Payment SDKs are verdicts: accept, leave their own evidence in the context, and return or call `Next`; or refuse,
  and abort. On the writer a refusal sets its header and the status, in any order and among other headers, before it
  emits them.

## Model

| member | source | states |
|---|---|---|
| Canonical.WriteCanonical | tunnel/internal/attest/attest.go:78-96 | the builder loop yields the labelled lines of the challenge in signing order |
| Canonical.DocumentedLayout | tunnel/internal/attest/attest.go:78-96 | the signed bytes are the documented lines, written out, with the headers verbatim |
| Canonical.CanonicalIsJoin | tunnel/internal/attest/attest.go:81-94 | the rendered lines are six text fields separated by five tags, of which only the timestamp's varies |
| Canonical.TwoReadings | tunnel/internal/attest/attest.go:81-94 | two different readings of one string: one has a field that swallows the tag after it, the other a later field that swallows the tag before it |
| Canonical.Overrun | tunnel/internal/attest/attest.go:81-94 | a reading that has fallen behind another must swallow one of the other's tags before the end |
| Canonical.MoveBoundary | tunnel/internal/attest/attest.go:81-94 | splitting two neighbouring fields at another copy of their tag keeps the bytes |
| Canonical.UnambiguousExactlyWhenTagFree | tunnel/internal/attest/attest.go:76-96 | no other challenge has the same bytes if and only if no field contains a tag next to it |
| Canonical.InjectiveExceptOneField | tunnel/internal/attest/attest.go:76-96 | challenges newline-free outside one common field have equal bytes only if all seven fields are equal |
| Canonical.TwoFieldsCollide | tunnel/internal/attest/attest.go:76-96 | two different challenges, with newlines in different single fields, have the same bytes |
| Canonical.OneTagUnambiguous | tunnel/internal/attest/attest.go:90-93 | two values joined around a one-line label can be told apart if and only if neither contains it |
| Canonical.HeadersUnambiguous | tunnel/internal/attest/attest.go:87-88 | among challenges that differ in their headers alone, the bytes are this challenge's own if and only if its headers do not contain the label between them |
| Utf8.RuneIsEncoded | tunnel/internal/attest/attest.go:164-170 | what counts as a character is the octets of a Unicode scalar value, surrogates and overlong forms excluded (section 4 of RFC 3629) |
| Utf8.EncodedIsRune | tunnel/internal/attest/attest.go:164-170 | the octets of every scalar value count as one character |
| Utf8.ValidIsEncoded | tunnel/internal/attest/attest.go:164-170 | every valid string is the octets of some scalar values, one after the other |
| Utf8.EncodedIsValid | tunnel/internal/attest/attest.go:164-170 | and the octets of any scalar values are a valid string |
| Utf8.CoerceValid | tunnel/internal/attest/attest.go:164-170 | encoding/json's replacement changes exactly the strings that are not UTF-8, and makes them longer (section 4 of RFC 3629) |
| PersonalSign.PreimageLayout | tunnel/internal/attest/attest.go:98-101 | the preimage is the byte 0x19, version 0x45, the decimal byte length and the message |
| PersonalSign.HandshakeLayout | tunnel/internal/client.go:71-74 | the handshake message is the bytes the proxy expects, written out |
| PersonalSign.PreimageInjective | tunnel/internal/attest/attest.go:98-101 | the personal_sign preimage determines the message although nothing separates the length from it |
| PersonalSign.DomainsDisjoint | tunnel/internal/client.go:71-74 | an attestation and a handshake never have the same digest |
| PersonalSign.DigestNamesChallenge | tunnel/internal/attest/attest.go:98-101 | the digest belongs to this challenge alone, among attestations and handshakes, if and only if it is tag-free |
| PersonalSign.HandshakeUnambiguous | tunnel/internal/client.go:71-74 | the handshake message determines robot and nonce if and only if neither contains the nonce label |
| Hex.EncodeDecode | tunnel/internal/attest/attest.go:169 | decoding the printed signature or nonce gives back its octets |
| Hex.DecodeAccepts | tunnel/internal/attest/attest.go:230-233 | exactly the even strings of hexadecimal digits decode, two digits an octet |
| Hex.DecodeIgnoresCase | tunnel/internal/attest/attest.go:258 | the mixed case of a printed address does not matter to its parser |
| Base64Url.SextetsRoundTrip | tunnel/internal/attest/attest.go:175 | regrouping octets into sextets and back loses nothing at any length modulo three (section 3.2 of RFC 4648) |
| Base64Url.EncodeDecode | tunnel/internal/attest/attest.go:175 | decoding unpadded base64url gives back every octet (section 5 of RFC 4648) |
| Base64Url.DecodeAccepts | tunnel/internal/attest/attest.go:185 | line breaks aside, exactly strings of the alphabet with no group of one symbol decode |
| Base64Url.BreaksIgnored | tunnel/internal/attest/attest.go:185 | line breaks may stand anywhere in a value |
| Base64Url.KnownVectors | tunnel/internal/attest/attest.go:175 | vectors of section 10 of RFC 4648 without padding, and one for the URL-safe symbols |
| Json.KnownEscapes | tunnel/internal/attest/attest.go:164-170 | each short and HTML escape is the documented one (section 7 of RFC 8259) |
| Json.SurrogatesRead | tunnel/internal/attest/attest.go:189 | a pair of surrogate escapes reads as one character, a lone one as its replacement |
| Json.ReadIsValid | tunnel/internal/attest/attest.go:189 | whatever the input, a string that is read is valid UTF-8 |
| Json.IntegersReadAsPrinted | tunnel/internal/attest/attest.go:189 | an integer is read only in the form it is printed in, but for a negative zero |
| Json.EnvelopeLayout | tunnel/internal/attest/attest.go:103-110 | the printed envelope has the documented fields in order |
| Json.EnvelopeIsAll | tunnel/internal/attest/attest.go:189 | nothing may precede or follow the envelope |
| Json.ReadQuoted | tunnel/internal/attest/attest.go:164-170 | any printed string is read back up to its closing quote, escapes included, with octets that are not UTF-8 replaced (section 7 of RFC 8259) |
| Json.ReadDecimal | tunnel/internal/attest/attest.go:164-170 | a printed integer, negative or not, is read back up to the next character (section 6 of RFC 8259) |
| Json.MarshalRoundTrip | tunnel/internal/attest/attest.go:164-170 | unmarshalling the printed envelope gives back all five fields, as UTF-8 |
| Attest.ParsePrintedAddress | tunnel/internal/attest/attest.go:166 | the EIP-55 form of an address parses to that address |
| Attest.ParseAddressExactly | tunnel/internal/attest/attest.go:215 | exactly forty hexadecimal digits, with or without a prefix of either case, are an address |
| Attest.FilledExactly | tunnel/internal/attest/attest.go:146-155 | the caller's date and nonce stay; otherwise the clock, and 32 lower-case digits of the random bytes, or no attestation |
| Attest.HeaderLayout | tunnel/internal/attest/attest.go:161-175 | the header decodes to the documented envelope octet for octet, with a V of 27 or 28 |
| Attest.DecodeIgnoresBlanks | tunnel/internal/attest/attest.go:181-185 | blanks around a header value do not matter, and a blank one is no attestation |
| Attest.ForeignSymbolIsMalformed | tunnel/internal/attest/attest.go:185-188 | a value with a symbol outside the alphabet is malformed |
| Attest.Signer.constructor | tunnel/internal/attest/attest.go:121-123 | the signer's address is that of its key |
| Attest.Signer.Attest | tunnel/internal/attest/attest.go:145-176 | timestamp and nonce filled in where unset, signed, V shifted in the signature's buffer, wrapped and encoded; or the error that stopped it |
| Attest.Normalize | tunnel/internal/attest/attest.go:237-242 | V is brought back to 0 or 1 in a copy |
| Attest.VerifyHeader | tunnel/internal/attest/attest.go:209-263 | every check of Verify, in order, with its error |
| Attest.AcceptsExactly | tunnel/internal/attest/attest.go:198-263 | for any decoder, accepted if and only if within the window, and the denoted signature over the claimed challenge recovers to the address both expected and claimed |
| Attest.RefusesInOrder | tunnel/internal/attest/attest.go:209-263 | which error comes back: that of the first check, in the source's order, to fail |
| Attest.DecodeAttested | tunnel/internal/attest/attest.go:178-196 | decoding an attested header recovers version, signer, timestamp, signature, and the nonce as UTF-8, for any nonce |
| Attest.VerifyAttested | tunnel/internal/attest/attest.go:198-263 | a genuine attestation of what the payer received is expired, future-dated or accepted exactly by the window around its date, written out |
| Attest.DigestSurvivesExactly | tunnel/internal/attest/attest.go:244-247 | the payer computes the digest that was signed if and only if the nonce is valid UTF-8 |
| Attest.AcceptedWasSigned | tunnel/internal/attest/attest.go:247-255 | with any decoder, what is accepted has the digest of a message the operator signed |
| Attest.AcceptedWasAttested | tunnel/internal/attest/attest.go:198-263 | with any decoder, an accepted tag-free challenge is fresh and was attested by the operator in all seven fields |
| Attest.AcceptedWasAttestedAnyNonce | tunnel/internal/attest/attest.go:244-245 | the same for newline-free challenges whatever the unchecked nonce of the envelope |
| Attest.SoundnessAssumptionsConsistent | tunnel/internal/attest/attest.go:198-263 | for every challenge of newline-free fields there is a curve with an operator who attested it alone and whose attestation is accepted |
| Http.HeaderLaws | tunnel/internal/attest/middleware.go:75-78 | what setting, adding and deleting do to the first value of a name, and that other names stay |
| Http.FlattenHeaders | tunnel/internal/client.go:337-344 | the loop over the recorded headers keeps the first value of every name that has one, in any order |
| Http.FlattenKeepsFirst | tunnel/internal/client.go:339-344 | the payer finds under a name what Header.Get gave the signer |
| AttestWriter.AttestingWriter.constructor | tunnel/internal/attest/middleware.go:18-30 | a fresh wrapper has attached nothing and leaves the inner writer as it is |
| AttestWriter.AttestingWriter.NeedsSignature | tunnel/internal/attest/middleware.go:70-92 | attach signs exactly an open 402 whose challenge is non-empty and not the one last signed |
| AttestWriter.AttestingWriter.AttachNow | tunnel/internal/attest/middleware.go:70-113 | one attestation replaces any earlier one and the signed pair is remembered; on failure nothing changes |
| AttestWriter.AttestingWriter.WriteHeader | tunnel/internal/attest/middleware.go:47-50 | the status is recorded first, then the challenge is signed |
| AttestWriter.AttestingWriter.WriteHeaderNow | tunnel/internal/attest/middleware.go:52-56 | the challenge is signed before the headers are emitted |
| AttestWriter.AttestingWriter.Write | tunnel/internal/attest/middleware.go:58-61 | the challenge is signed before the inner writer emits headers and body |
| AttestWriter.AttestingWriter.WriteString | tunnel/internal/attest/middleware.go:63-66 | the same for strings |
| AttestWriter.AttestingWriter.Perform | tunnel/internal/attest/middleware.go:47-66 | whatever a handler does next is the step the runs are made of |
| ServedChallenge.ServeRequest | tunnel/internal/attest/middleware.go:18-30 | wrapping, any sequence of actions and gin's flush, on the writers themselves, emit what the run says |
| ServedChallenge.StepsAreRun | tunnel/internal/attest/middleware.go:47-66 | the steps of a site are the run of its signing |
| ServedChallenge.SignsOncePerChange | tunnel/internal/attest/middleware.go:70-112 | in every run, Attest is called for exactly those open 402 responses whose challenge is non-empty and not the one last signed successfully, and that success is remembered |
| ServedChallenge.RunInv | tunnel/internal/attest/middleware.go:70-113 | in every reachable state, failures of signing included, the headers and what leaves carry exactly one attestation, of the pair and moment last signed, or none if nothing was |
| ServedChallenge.LeftThroughWrapper | tunnel/internal/attest/middleware.go:52-66 | status and challenge that left are those the last wrapper call before it saw |
| ServedChallenge.ServedAttestation | tunnel/internal/attest/middleware.go:94-112 | the forwarded value is the signature of the challenge last signed, seen on a 402; without one there is nothing to forward |
| ServedChallenge.ServedDigestMatchesExactly | tunnel/internal/attest/middleware.go:47-113 | the payer's digest is the signed one if and only if the challenge that leaves is the one last signed, given headers free of the label between them |
| ServedChallenge.PayerMissesAttestation | tunnel/internal/attest/middleware.go:80-88 | if nothing was signed, nothing is served and Verify says so |
| ServedChallenge.PayerAcceptsSigned | tunnel/internal/attest/middleware.go:94-112 | if the challenge that leaves is the one last signed, Verify is decided by the window around its date alone |
| ServedChallenge.PayerRefusesStale | tunnel/internal/attest/middleware.go:101-107 | a signature for one challenge is refused on a response with another |
| ServedChallenge.PayerAcceptsExactly | tunnel/internal/attest/middleware.go:47-113 | after any run the payer accepts if and only if the challenge that leaves is the one last signed and now is within the window, written out |
| ServedChallenge.ReliableInForce | tunnel/internal/attest/middleware.go:90-112 | while signing does not fail, the challenge last signed is the last one seen on an open 402 |
| ServedChallenge.PayerAcceptsServed | tunnel/internal/attest/middleware.go:47-113 | while signing does not fail, every 402 with a challenge passes Verify as long as it is fresh; flushed headers must carry the last challenge seen |
| ServedChallenge.FlushWithoutAttestation | tunnel/internal/attest/middleware.go:47-50 | a challenge set after the only wrapper call leaves with no attestation |
| ServedChallenge.FlushAfterChange | tunnel/internal/attest/middleware.go:47-50 | a challenge changed after the last wrapper call leaves with the attestation of the earlier one |
| ServedChallenge.FailedResigning | tunnel/internal/attest/middleware.go:101-107 | so does a challenge whose signing fails, although it leaves through the wrapper |
| Transparency.WrapperIsTransparent | tunnel/internal/attest/middleware.go:47-113 | in every run the wrapped writer differs from gin's alone in the attestation header only |
| Transparency.LeavesWhatHandlersSet | tunnel/internal/attest/middleware.go:47-66 | status, headers and body that leave are those the handlers set before the first emission, and all they wrote |
| TunnelProtocol.ResponseExactly | tunnel/internal/client.go:293-350 | the response has the recorded status, body and the first value of every header; 400 and 500 have their error and no headers |
| TunnelProtocol.PrepareResponse | tunnel/internal/client.go:293-350 | the response filled in step by step answers the request's own ID: 400 for a bad path, 500 for a panic, else what was recorded |
| TunnelProtocol.StepKeeps | tunnel/internal/client.go:270-357 | connecting, reading, handling, locking, partial writes, finishing, failing and closing all keep the invariant |
| TunnelProtocol.RunKeeps | tunnel/internal/client.go:270-357 | the invariant holds after every schedule over successive connections |
| TunnelProtocol.OneWriterAtATime | tunnel/internal/client.go:352-357 | at most one dispatcher is inside WriteJSON |
| TunnelProtocol.FramesStayWhole | tunnel/internal/client.go:352-357 | a connection's bytes are whole frames, then at most one unfinished or cut short (section 5.4 of RFC 6455) |
| TunnelProtocol.AnswersWithinRequests | tunnel/internal/client.go:288-314 | the multiset of response IDs whose frame is all on the wire, also one that failed or has not returned yet, is within the multiset of request IDs read from it |
| TunnelProtocol.AnswersTellOutcomes | tunnel/internal/client.go:288-314 | every response on the wire is the one to a request read from that connection, as its handler ended |
| TunnelProtocol.DoneTellsOutcome | tunnel/internal/client.go:299-314 | so is the response of every dispatcher that is done |
| TunnelProtocol.EveryRequestAccountedFor | tunnel/internal/client.go:288-314 | for every ID, requests read are those in flight, answered and lost, added up |
| TunnelProtocol.QuiescentAnswersAll | tunnel/internal/client.go:299-314 | when all dispatchers are done and no write failed, responses and requests agree as multisets, panics included |
| Reconnect.Run | tunnel/internal/client.go:181-234 | the loop produces the events, time and exit of the recursive specification |
| Reconnect.DelayDoubles | tunnel/internal/client.go:371-382 | the next backoff after min(2^k, 30) seconds is min(2^(k+1), 30) seconds |
| Reconnect.RunBacksOff | tunnel/internal/client.go:181-221 | in every run each sleep lasts min(2^k, 30) seconds, k being the failures since the last connection |
| Reconnect.TotalDelayClosedForm | tunnel/internal/client.go:371-382 | n failures sleep 2^n - 1 seconds in all up to five, and 31 + 30(n - 5) beyond |
| Reconnect.StreakSleeps | tunnel/internal/client.go:181-221 | in every run, n consecutive failures after a connection or the start ask for that long, and the sleeps not interrupted took that long |
| Reconnect.RunIsWellFormed | tunnel/internal/client.go:191-217 | a fatal refusal is the last event, was terminal, and is the only way to exit; so is an interrupted sleep the last; each handshake follows the fetch of its own nonce |
| Reconnect.RunInBlocks | tunnel/internal/client.go:181-234 | a run is one block of events per attempt, spelled out for each way a dial can end; attempts start only before the cancellation and sleeps and connections last as long as they should |
| Reconnect.RefusalEndsRun | tunnel/internal/client.go:193-204 | a refusal with one of the seven reasons, or none and 400, 401, 403 or 409, is the last attempt, the last event and ends the process |
| Reconnect.ReturnsPromptly | tunnel/internal/client.go:181-216 | a run returns when its context is cancelled, or as soon as the dial then going on ends |
| Reconnect.NoncesNotReused | tunnel/internal/client.go:236-256 | no two handshakes of a run use one nonce unless the proxy repeats one |
| Reconnect.ReturnsOnlyWhenCancelled | tunnel/internal/client.go:181-216 | a run that returns has seen its context cancelled |
| Reconnect.Serve | tunnel/cmd/main.go:87-100 | the restart loop sets up and ends as specified |
| Reconnect.RouterSetUpOnce | tunnel/cmd/main.go:87-100 | if the child context is cancelled only after the client returned, as main does, the router is set up exactly once |
| Reconnect.EarlyCancelRestarts | tunnel/cmd/main.go:91-99 | cancelled before that, it would be set up again |
| ChainId.ParseUint64 | tunnel/config/config.go:210 | the 64-bit accumulator rejects exactly what does not fit, although it wraps around |
| ChainId.ParseInt64 | tunnel/config/config.go:210 | parsing in 64 bits agrees with parsing without bound on every string whose value fits, signs and leading zeros included |
| ChainId.ChainIDRoundTrip | tunnel/config/config.go:123-128 | the printed chain ID of every integer is read back, with a plus or a leading zero too |
| ChainId.NotAChainID | tunnel/config/config.go:123-128 | another namespace, an empty number or a foreign character is no chain ID |
| ChainId.MPPChainIDOf | tunnel/config/config.go:205-215 | MPPChainID succeeds exactly when ChainID yields a 64-bit number, and gives that number |
| Config.Configuration.Validate | tunnel/config/config.go:130-173 | one pass leaves the fields and the error of its three stages |
| Config.Configuration.ValidateBasics | tunnel/config/config.go:133-166 | robot ID, price and network defaulted and checked, then addresses and key |
| Config.Configuration.ValidateAddresses | tunnel/config/config.go:151-166 | payee, staking address and staking key checked in that order |
| Config.Configuration.ValidateToken | tunnel/config/config.go:276-317 | the token fields defaulted and checked, if there is a token |
| Config.Configuration.ValidateTransfer | tunnel/config/config.go:291-316 | transfer method, EIP-2612 and token name checked before version and decimals are defaulted |
| Config.Configuration.ValidateMPP | tunnel/config/config.go:218-267 | the MPP fields defaulted and checked, if MPP is on |
| Config.StakingKeyExactly | tunnel/config/config.go:176-203 | which of the three key errors comes back, and that none does exactly if the key derives to the declared address |
| Config.RejectsFirstComplaint | tunnel/config/config.go:130-323 | the error is the first complaint about the configuration with every default filled in |
| Regex.PriceExactly | tunnel/config/config.go:103 | the price check recognises exactly the language of its regular expression |
| Regex.NetworkExactly | tunnel/config/config.go:104 | so does the network check |
| Regex.AddressExactly | tunnel/config/config.go:105 | and the address check |
| Config.AcceptsExactlySound | tunnel/config/config.go:130-173 | a configuration is accepted if and only if it is sound once every default is filled in, and then those defaults are all that changed |
| Config.ValidateAgain | tunnel/config/config.go:130-173 | validating the result again gives the same verdict and changes nothing, on success and on every error path |
| Config.AcceptedIsUsable | tunnel/config/config.go:218-323 | an accepted configuration has the chain IDs, decimals and token domain that later code relies on, and a key that derives to its staking address |
| TokenRegistry.Registry.constructor | tunnel/cmd/main.go:103-115 | the snapshot is the shipped table, and nothing is registered |
| TokenRegistry.Registry.RestoreNetworkDefault | tunnel/cmd/main.go:118-124 | the network's entry is the shipped one again, or gone |
| TokenRegistry.Registry.RegisterTokenAsset | tunnel/cmd/main.go:128-162 | the previous override is undone and the new asset registered |
| TokenRegistry.RegisterOverlays | tunnel/cmd/main.go:128-162 | from any state that differs from the shipped table only at the registered network, one call leaves the overlay its configuration asks for |
| TokenRegistry.AfterInv | tunnel/cmd/main.go:105-162 | after any history the table differs from the shipped one only at the registered network, which has a chain ID |
| TokenRegistry.HistoryIndependent | tunnel/cmd/main.go:105-162 | after any history the table is the shipped one overlaid by the last configuration alone |
| TokenRegistry.ValidatedTokenRegistered | tunnel/cmd/main.go:140-162 | a validated token is registered under its network's chain ID; the skipping branch is never taken |
| PaymentPipeline.GinContext.Next | tunnel/cmd/main.go:231-247 | gin's loop over the handler chain, as specified with an index |
| PaymentPipeline.GinContext.Dispatch | tunnel/internal/mppay/mppay.go:83-107 | malformed credentials are rejected, MPP ones charged, and the rest left to x402 |
| PaymentPipeline.GinContext.Advertise | tunnel/internal/mppay/mppay.go:110-135 | the challenge is added to the response, or nothing if any step of making it fails |
| PaymentPipeline.GinContext.PostAction | tunnel/internal/handlers/handlers.go:81-144 | a bad body is answered 400; otherwise the event carries body, evidence, tag and time, is published if it can be, and answered 200 |
| PaymentPipeline.IndexRunsInOrder | tunnel/cmd/main.go:229-247 | for any chain, nested Next calls and Abort amount to each handler once, in order, until one stops the request |
| PaymentPipeline.OneDecisionPerRequest | tunnel/internal/mppay/mppay.go:83-107 | exactly one verifier decides, the one the headers select; the action follows at most once, if it accepts; the published tag and evidence are that verifier's, the payload the body sent |
| PaymentPipeline.PaidActionOutcome | tunnel/internal/handlers/handlers.go:81-144 | a paid action is refused only for its body, and answered 200 even if its event is lost |
| PaymentPipeline.RefusedUnpaidSeesBothChallenges | tunnel/internal/mppay/mppay.go:102-105 | a refused request carries x402's requirement and, unless it came with an x402 payment, the MPP challenge |
| PaymentPipeline.RefusedCredentialEndsThere | tunnel/internal/mppay/mppay.go:90-100 | a bad or refused MPP credential never reaches x402 |
| PaymentPipeline.EveryAnswerAttestable | tunnel/cmd/main.go:229-241 | every status but a preflight's is set with the attesting writer in place |
| PaymentPipeline.PreflightGoesNoFurther | tunnel/cmd/main.go:179-199 | a request answered 204 by the CORS middleware reaches no other handler |
| RefusedRequest.ResponseLeaves | tunnel/internal/mppay/mppay.go:90-135 | through the attesting writer, a refusal leaves as a 402 with its requirement beside the gate's challenge, and the body written |
| RefusedRequest.RefusedPayerIsServed | tunnel/internal/mppay/mppay.go:90-107 | the payer refused by x402 or by the MPP charge is served the challenges the pipeline decided on, and its check of the forwarded headers passes while they are fresh |
| PaymentPipeline.ValidatedGate | tunnel/internal/mppay/mppay.go:31-80 | for a validated configuration the non-eip155 branch is never taken, and every field of the gate is the configured one or its default |
| EndToEnd.EnvelopeAcceptedExactly | tunnel/internal/client.go:334-350 | on the envelope the client sends, the payer's verdict is that on what left the writer |
| EndToEnd.OnWireVerdict | tunnel/internal/client.go:270-357 | so it is on every response on the wire, after any schedule |

## Left out

- Attest.VerifyAttested: ages are mathematical integers, so overflow at extreme timestamps is not modelled.
- Attest.Decode reads only the object shape that Attest prints; for soundness the decoder is arbitrary instead. Unicode white space around a header value is not trimmed.
- Attest.AcceptedWasAttested: rests on injective hashing and unforgeability, which are assumptions about the cryptography.
- ServedChallenge.PayerAcceptsServed: does not cover Flush and Hijack, which the wrapper does not override, nor other code that writes the attestation header.
- AttestWriter.GinWriter has no panic for status codes out of range, and no log lines.
- TunnelProtocol has no control frames and no messages other than requests, which the reader skips; JSON and URL parsing are outcomes.
- TunnelProtocol.RunKeeps: is a safety statement; that dispatchers eventually finish is not claimed.
- Reconnect has no nonceURL, and handshakeRejection is reduced to the status and reason it extracts from the response.
- Config has no environment or file loading, no PriceAmount, and no AIP fields; these change no field that Validate checks.
- PaymentPipeline.OneDecisionPerRequest: takes the SDKs' verdicts as given; settlement after the action and the one-time opening of the Zenoh session are not modelled, and the clock is a parameter.
- A request without a route is answered 404; the AIP handler that may be mounted there is not modelled.
- RefusedRequest.RefusedPayerIsServed: covers refusals that emit a body or headers themselves; one left for gin's flush is covered by ServedChallenge.PayerAcceptsServed alone.
- Real elliptic-curve arithmetic and Keccak, the bridge to ROS 2, the AIP agent, and the internals of the x402 and MPP libraries are not part of this model.
