/**
 One request on its way through the router of tunnel/cmd/main.go: the payment gate of
 tunnel/internal/mppay/mppay.go in front of x402, and PostAction of tunnel/internal/handlers/handlers.go
 behind both. gin steps through the handlers with an index that Abort throws past their end; a handler
 may also call Next itself, and must then not make the chain run twice.
 */
module PaymentPipeline {
  import opened Wrappers
  import opened Text
  import opened Http
  import opened ChainId
  import opened Config

  const STATUS_NO_CONTENT := 204
  const STATUS_BAD_REQUEST := 400
  const STATUS_NOT_FOUND := 404
  const POST := "POST"
  const ACTION := "/action"

  /** gin's abortIndex: a chain has fewer handlers than this. */
  const ABORT_INDEX := 63

  datatype Protocol = X402 | MPP

  /** `fullPath` is the route gin matched, empty when it matched none. */
  datatype Request = Request(httpMethod: string, path: string, authorization: string, paymentSignature: string) {
    function FullPath(): string { if httpMethod == POST && path == ACTION then ACTION else "" }
  }

  predicate IsPricedRoute(r: Request) { r.httpMethod == POST && r.FullPath() == ACTION }

  /**
   What a payment verifier decides about a request. On acceptance it leaves its evidence in the context
   and either returns, so that gin moves on, or calls Next itself.
   */
  datatype Verdict = Refuse(requirement: string) | Accept(callsNext: bool, evidence: Evidence)

  /** x402's payload and the requirements it met, or MPP's verified credential and its receipt. */
  datatype Evidence = Evidence(presented: string, settled: string)

  function EvidenceOf(v: Verdict): Option<Evidence> { if v.Accept? then Some(v.evidence) else None }

  datatype Delivery = Published | NotMarshalled | NoPublisher | PublishFailed

  /**
   Everything outside the router's own code: the SDKs' answers about this request, its body, and what
   becomes of the event. `offer` is the challenge the MPP SDK makes for the body that is read first.
   */
  datatype World = World(
    preflight: bool,
    findCredential: string -> Result<string, string>,
    charge: string -> Verdict,
    x402: Verdict,
    bodyForOffer: Result<string, string>,
    offer: Option<string> -> Option<string>,
    body: Result<string, string>,
    isJson: string -> bool,
    delivery: Delivery,
    clock: string)

  datatype Event =
    | Malformed
    | Advertised(challenge: string)
    | Charged(credential: string, accepted: bool)
    | Paid(accepted: bool)
    | ActionEntered
    | ActionPublished(payload: Option<string>, details: Details, timestamp: string)

  /** transaction_details of the published event. */
  datatype Details = Details(protocol: Protocol, x402: Option<Evidence>, mpp: Option<Evidence>)

  /** `wrapped` tells whether the attesting writer is in place, `attestable` whether it was when the status was set. */
  datatype Core = Core(
    status: int,
    header: Header,
    x402: Option<Evidence>,
    mpp: Option<Evidence>,
    trace: seq<Event>,
    wrapped: bool,
    attestable: bool)
  {
    function Note(e: Event): Core { this.(trace := trace + [e]) }
    function Answer(code: int): Core { this.(status := code, attestable := wrapped) }
    function Wrap(): Core { this.(wrapped := true) }
  }

  datatype Context = Context(index: int, core: Core) {
    function Abort(): Context { this.(index := ABORT_INDEX) }
    function With(c: Core): Context { this.(core := c) }
  }

  datatype Handler = Cors | Attesting | Gated | PlainX402 | PostAction | NoRoute

  // ---- what each handler does, apart from moving along the chain ----

  /** advertise, up to the formatted header; any of its steps may come to nothing. */
  function Challenge(w: World): Option<string> {
    match w.bodyForOffer
    case Err(_) => None
    case Ok(body) => w.offer(if body == "" then None else Some(body))
  }

  function Offered(w: World, c: Core): Core {
    match Challenge(w)
    case None => c
    case Some(challenge) =>
      c.(header := Http.Add(c.header, WWW_AUTHENTICATE, challenge)).Note(Advertised(challenge))
  }

  function Refused(c: Core, name: string, requirement: string): Core {
    c.(header := Http.Set(c.header, name, requirement)).Answer(STATUS_PAYMENT_REQUIRED)
  }

  function ChargeAccepted(c: Core, credential: string, evidence: Evidence): Core {
    c.(mpp := Some(evidence)).Note(Charged(credential, true))
  }

  function ChargeRefused(c: Core, credential: string, requirement: string): Core {
    Refused(c, WWW_AUTHENTICATE, requirement).Note(Charged(credential, false))
  }

  function X402Accepted(c: Core, evidence: Evidence): Core { c.(x402 := Some(evidence)).Note(Paid(true)) }

  function X402Refused(c: Core, requirement: string): Core {
    Refused(c, PAYMENT_REQUIRED, requirement).Note(Paid(false))
  }

  /** The published event: x402 unless the charge left a credential behind; an empty body has no payload. */
  function Tagged(w: World, c: Core): Event
    requires w.body.Ok?
  {
    ActionPublished(if w.body.value == "" then None else Some(w.body.value),
                    Details(if c.mpp.Some? then MPP else X402, c.x402, c.mpp), w.clock)
  }

  function Act(w: World, input: Core): Core {
    var c := input.Note(ActionEntered);
    if w.body.Err? || (w.body.value != "" && !w.isJson(w.body.value)) then c.Answer(STATUS_BAD_REQUEST)
    else (if w.delivery.Published? then c.Note(Tagged(w, c)) else c).Answer(STATUS_OK)
  }

  function Unpaid(w: World, r: Request, c: Core): Core {
    if r.paymentSignature == "" then Offered(w, c) else c
  }

  // ---- gin's index, as the code moves it ----

  /** c.Next(). */
  function NextFrom(w: World, r: Request, chain: seq<Handler>, c: Context): (d: Context)
    requires |chain| < ABORT_INDEX && -1 <= c.index < |chain|
    ensures d.index >= |chain|
    decreases |chain| - c.index, 0
  {
    LoopFrom(w, r, chain, c.(index := c.index + 1))
  }

  function LoopFrom(w: World, r: Request, chain: seq<Handler>, c: Context): (d: Context)
    requires |chain| < ABORT_INDEX && 0 <= c.index
    ensures d.index >= |chain| && d.index >= c.index
    decreases |chain| - c.index, 5
  {
    if c.index >= |chain| then c
    else
      var d := HandleAt(w, r, chain, c);
      LoopFrom(w, r, chain, d.(index := d.index + 1))
  }

  function HandleAt(w: World, r: Request, chain: seq<Handler>, c: Context): (d: Context)
    requires |chain| < ABORT_INDEX && 0 <= c.index < |chain|
    ensures d.index >= c.index
    decreases |chain| - c.index, 4
  {
    match chain[c.index]
    case Cors => if w.preflight then c.With(c.core.Answer(STATUS_NO_CONTENT)).Abort() else c
    case Attesting => NextFrom(w, r, chain, c.With(c.core.Wrap()))
    case Gated => DispatchAt(w, r, chain, c)
    case PlainX402 => X402At(w, r, chain, c)
    case PostAction => c.With(Act(w, c.core))
    case NoRoute => c.With(c.core.Answer(STATUS_NOT_FOUND))
  }

  function DispatchAt(w: World, r: Request, chain: seq<Handler>, c: Context): (d: Context)
    requires |chain| < ABORT_INDEX && 0 <= c.index < |chain|
    ensures d.index >= c.index
    decreases |chain| - c.index, 3
  {
    if !IsPricedRoute(r) then X402At(w, r, chain, c)
    else
      match w.findCredential(r.authorization)
      case Err(_) => c.With(c.core.Answer(STATUS_BAD_REQUEST).Note(Malformed)).Abort()
      case Ok(credential) =>
        if credential != "" then ChargeAt(w, r, chain, c, credential)
        else X402At(w, r, chain, c.With(Unpaid(w, r, c.core)))
  }

  function ChargeAt(w: World, r: Request, chain: seq<Handler>, c: Context, credential: string): (d: Context)
    requires |chain| < ABORT_INDEX && 0 <= c.index < |chain|
    ensures d.index >= c.index
    decreases |chain| - c.index, 2
  {
    match w.charge(credential)
    case Refuse(requirement) => c.With(ChargeRefused(c.core, credential, requirement)).Abort()
    case Accept(callsNext, evidence) =>
      ProceedAt(w, r, chain, c.With(ChargeAccepted(c.core, credential, evidence)), callsNext)
  }

  function X402At(w: World, r: Request, chain: seq<Handler>, c: Context): (d: Context)
    requires |chain| < ABORT_INDEX && 0 <= c.index < |chain|
    ensures d.index >= c.index
    decreases |chain| - c.index, 2
  {
    match w.x402
    case Refuse(requirement) => c.With(X402Refused(c.core, requirement)).Abort()
    case Accept(callsNext, evidence) => ProceedAt(w, r, chain, c.With(X402Accepted(c.core, evidence)), callsNext)
  }

  function ProceedAt(w: World, r: Request, chain: seq<Handler>, c: Context, callsNext: bool): (d: Context)
    requires |chain| < ABORT_INDEX && 0 <= c.index < |chain|
    ensures d.index >= c.index
    decreases |chain| - c.index, 1
  {
    if callsNext then NextFrom(w, r, chain, c) else c
  }

  // ---- the same, without an index ----

  /** A handler's effect, and whether the rest of the chain is to run after it. */
  datatype Turn = Stop(core: Core) | Continue(core: Core)

  function Decide(verdict: Verdict, accepted: Evidence -> Core, refused: string -> Core): Turn {
    match verdict
    case Refuse(requirement) => Stop(refused(requirement))
    case Accept(_, evidence) => Continue(accepted(evidence))
  }

  function X402Turn(w: World, c: Core): Turn {
    Decide(w.x402, evidence => X402Accepted(c, evidence), requirement => X402Refused(c, requirement))
  }

  function ChargeTurn(w: World, c: Core, credential: string): Turn {
    Decide(w.charge(credential), evidence => ChargeAccepted(c, credential, evidence),
           requirement => ChargeRefused(c, credential, requirement))
  }

  function GateTurn(w: World, r: Request, c: Core): Turn {
    if !IsPricedRoute(r) then X402Turn(w, c)
    else
      match w.findCredential(r.authorization)
      case Err(_) => Stop(c.Answer(STATUS_BAD_REQUEST).Note(Malformed))
      case Ok(credential) =>
        if credential == "" then X402Turn(w, Unpaid(w, r, c))
        else ChargeTurn(w, c, credential)
  }

  function TurnOf(w: World, r: Request, h: Handler, c: Core): Turn {
    match h
    case Cors => if w.preflight then Stop(c.Answer(STATUS_NO_CONTENT)) else Continue(c)
    case Attesting => Continue(c.Wrap())
    case Gated => GateTurn(w, r, c)
    case PlainX402 => X402Turn(w, c)
    case PostAction => Continue(Act(w, c))
    case NoRoute => Continue(c.Answer(STATUS_NOT_FOUND))
  }

  /** Each handler once, in order, until one stops the request. */
  function InOrder(w: World, r: Request, chain: seq<Handler>, c: Core): Core {
    if chain == [] then c
    else
      match TurnOf(w, r, chain[0], c)
      case Stop(d) => d
      case Continue(d) => InOrder(w, r, chain[1..], d)
  }

  /** Where a handler that takes this turn leaves gin: aborted, returning, or with the rest of the chain run. */
  predicate Takes(w: World, r: Request, chain: seq<Handler>, index: nat, turn: Turn, d: Context)
    requires |chain| < ABORT_INDEX && index < |chain|
  {
    match turn
    case Stop(core) => d == Context(ABORT_INDEX, core)
    case Continue(core) => d == Context(index, core) || d == LoopFrom(w, r, chain, Context(index + 1, core))
  }

  lemma ProceedTakes(w: World, r: Request, chain: seq<Handler>, c: Context, callsNext: bool)
    requires |chain| < ABORT_INDEX && 0 <= c.index < |chain|
    ensures Takes(w, r, chain, c.index, Continue(c.core), ProceedAt(w, r, chain, c, callsNext))
  {
  }

  lemma X402Takes(w: World, r: Request, chain: seq<Handler>, c: Context)
    requires |chain| < ABORT_INDEX && 0 <= c.index < |chain|
    ensures Takes(w, r, chain, c.index, X402Turn(w, c.core), X402At(w, r, chain, c))
  {
    if w.x402.Accept? {
      ProceedTakes(w, r, chain, c.With(X402Accepted(c.core, w.x402.evidence)), w.x402.callsNext);
    }
  }

  lemma GateTakes(w: World, r: Request, chain: seq<Handler>, c: Context)
    requires |chain| < ABORT_INDEX && 0 <= c.index < |chain|
    ensures Takes(w, r, chain, c.index, GateTurn(w, r, c.core), DispatchAt(w, r, chain, c))
  {
    if !IsPricedRoute(r) {
      X402Takes(w, r, chain, c);
    } else if w.findCredential(r.authorization).Ok? {
      var credential := w.findCredential(r.authorization).value;
      if credential == "" {
        X402Takes(w, r, chain, c.With(Unpaid(w, r, c.core)));
      } else if w.charge(credential).Accept? {
        ProceedTakes(w, r, chain, c.With(ChargeAccepted(c.core, credential, w.charge(credential).evidence)),
            w.charge(credential).callsNext);
      }
    }
  }

  lemma HandleTakes(w: World, r: Request, chain: seq<Handler>, c: Context)
    requires |chain| < ABORT_INDEX && 0 <= c.index < |chain|
    ensures Takes(w, r, chain, c.index, TurnOf(w, r, chain[c.index], c.core), HandleAt(w, r, chain, c))
  {
    match chain[c.index]
    case Gated => GateTakes(w, r, chain, c);
    case PlainX402 => X402Takes(w, r, chain, c);
    case Attesting => ProceedTakes(w, r, chain, c.With(c.core.Wrap()), true);
    case _ =>
  }

  /** For any chain of these handlers, calling Next or returning, the index amounts to running it in order. */
  lemma {:induction false} IndexRunsInOrder(w: World, r: Request, chain: seq<Handler>, c: Context)
    requires |chain| < ABORT_INDEX && 0 <= c.index <= |chain|
    ensures LoopFrom(w, r, chain, c).core == InOrder(w, r, chain[c.index..], c.core)
    decreases |chain| - c.index
  {
    if c.index < |chain| {
      var rest := chain[c.index..];
      assert rest[0] == chain[c.index] && rest[1..] == chain[c.index + 1..];
      HandleTakes(w, r, chain, c);
      var turn := TurnOf(w, r, chain[c.index], c.core);
      if turn.Continue? {
        IndexRunsInOrder(w, r, chain, Context(c.index + 1, turn.core));
      }
    }
  }

  // ---- the router ----

  /** setupRouter's handlers for a request, in order of registration; `gate` is whether mppay.New built one. */
  function Chain(gate: bool, r: Request): seq<Handler> {
    [Cors, Attesting, if gate then Gated else PlainX402, if r.FullPath() == ACTION then PostAction else NoRoute]
  }

  const FRESH := Core(STATUS_OK, map[], None, None, [], false, false)

  const WRAPPED := FRESH.Wrap()

  /** What a request comes to. */
  function Serve(w: World, r: Request, gate: bool): Core {
    NextFrom(w, r, Chain(gate, r), Context(-1, FRESH)).core
  }

  lemma ServedInOrder(w: World, r: Request, gate: bool)
    ensures Serve(w, r, gate) == InOrder(w, r, Chain(gate, r), FRESH)
  {
    var chain := Chain(gate, r);
    IndexRunsInOrder(w, r, chain, Context(0, FRESH));
    assert chain[0..] == chain;
  }

  /** The payment handler's turn, then the endpoint if it continued. */
  lemma ServedByTurns(w: World, r: Request, gate: bool)
    requires !w.preflight
    ensures var turn := if gate then GateTurn(w, r, WRAPPED) else X402Turn(w, WRAPPED);
            Serve(w, r, gate) ==
              if turn.Stop? then turn.core
              else if IsPricedRoute(r) then Act(w, turn.core)
              else turn.core.Answer(STATUS_NOT_FOUND)
  {
    ServedInOrder(w, r, gate);
    var chain := Chain(gate, r);
    var payment := chain[2];
    var endpoint := chain[3];
    assert chain[1..] == [Attesting, payment, endpoint];
    assert chain[1..][1..] == [payment, endpoint];
    assert [payment, endpoint][1..] == [endpoint];
    assert InOrder(w, r, chain, FRESH) == InOrder(w, r, [Attesting, payment, endpoint], FRESH);
    assert InOrder(w, r, chain, FRESH) == InOrder(w, r, [payment, endpoint], WRAPPED);
    var turn := TurnOf(w, r, payment, WRAPPED);
    if turn.Continue? {
      assert InOrder(w, r, chain, FRESH) == InOrder(w, r, [endpoint], turn.core);
      assert InOrder(w, r, [endpoint][1..], TurnOf(w, r, endpoint, turn.core).core)
          == TurnOf(w, r, endpoint, turn.core).core;
    }
  }

  // ---- who decided, and what came of it ----

  predicate IsDecision(e: Event) { e.Malformed? || e.Charged? || e.Paid? }

  predicate IsEntry(e: Event) { e.ActionEntered? }

  predicate Accepted(e: Event) { (e.Charged? || e.Paid?) && e.accepted }

  function Filter(t: seq<Event>, keep: Event -> bool): seq<Event> {
    if t == [] then []
    else Filter(t[..|t| - 1], keep) + (if keep(t[|t| - 1]) then [t[|t| - 1]] else [])
  }

  /** The verdicts on the payment, in order. */
  function Decisions(t: seq<Event>): seq<Event> { Filter(t, IsDecision) }

  /** The times PostAction was entered. */
  function Entries(t: seq<Event>): seq<Event> { Filter(t, IsEntry) }

  lemma Noted(c: Core, e: Event)
    ensures Decisions(c.Note(e).trace) == Decisions(c.trace) + (if IsDecision(e) then [e] else [])
    ensures Entries(c.Note(e).trace) == Entries(c.trace) + (if IsEntry(e) then [e] else [])
  {
  }

  /** The decision is the last thing the payment handler notes, and the only one. */
  predicate DecidedOnly(c: Core, e: Event) {
    && Decisions(c.trace) == [e] && Entries(c.trace) == []
    && (forall i :: 0 <= i < |c.trace| ==> !c.trace[i].ActionEntered? && !c.trace[i].ActionPublished?)
  }

  /** Nothing noted but the challenge the gate may have advertised. */
  predicate Unnoted(c: Core) {
    && Decisions(c.trace) == [] && Entries(c.trace) == []
    && (forall i :: 0 <= i < |c.trace| ==> c.trace[i].Advertised?)
  }

  predicate Undecided(c: Core) { c.x402 == None && c.mpp == None && Unnoted(c) }

  lemma UnpaidUndecided(w: World, r: Request)
    ensures Undecided(Unpaid(w, r, WRAPPED))
  {
    if Challenge(w).Some? {
      Noted(WRAPPED, Advertised(Challenge(w).value));
    }
  }

  lemma Decides(c: Core, e: Event)
    requires Unnoted(c) && IsDecision(e)
    ensures DecidedOnly(c.Note(e), e)
  {
    Noted(c, e);
  }

  /** The decision the gate comes to, told by the headers of the request alone. */
  predicate RightDecision(w: World, r: Request, gate: bool, e: Event) {
    var priced := r.httpMethod == "POST" && r.path == "/action";
    var found := if gate && priced then w.findCredential(r.authorization) else Ok("");
    && (e.Malformed? <==> found.Err?)
    && (e.Charged? <==> found.Ok? && found.value != "")
    && (e.Paid? <==> found == Ok(""))
    && (e.Charged? ==> e.credential == found.value && (e.accepted <==> w.charge(e.credential).Accept?))
    && (e.Paid? ==> (e.accepted <==> w.x402.Accept?))
  }

  function Payment(w: World, r: Request, gate: bool): Turn {
    if gate then GateTurn(w, r, WRAPPED) else X402Turn(w, WRAPPED)
  }

  /** The context holds the evidence of the verifier that decided, and of no other. */
  predicate LeavesEvidence(w: World, c: Core, e: Event) {
    && c.x402 == (if e.Paid? then EvidenceOf(w.x402) else None)
    && c.mpp == (if e.Charged? then EvidenceOf(w.charge(e.credential)) else None)
  }

  /** A decision was noted, the chain goes on exactly if it accepts, and its evidence is left behind. */
  predicate Settles(w: World, turn: Turn, e: Event) {
    && DecidedOnly(turn.core, e)
    && (turn.Continue? <==> Accepted(e))
    && (turn.Continue? ==> LeavesEvidence(w, turn.core, e))
    && (e.Charged? && Accepted(e) ==> w.charge(e.credential).Accept?)
  }

  lemma X402Settles(w: World, c: Core)
    requires Undecided(c)
    ensures Settles(w, X402Turn(w, c), Paid(w.x402.Accept?))
  {
    match w.x402
    case Refuse(requirement) => Decides(Refused(c, PAYMENT_REQUIRED, requirement), Paid(false));
    case Accept(_, evidence) => Decides(c.(x402 := Some(evidence)), Paid(true));
  }

  lemma ChargeSettles(w: World, c: Core, credential: string)
    requires Undecided(c)
    ensures Settles(w, ChargeTurn(w, c, credential), Charged(credential, w.charge(credential).Accept?))
  {
    match w.charge(credential)
    case Refuse(requirement) => Decides(Refused(c, WWW_AUTHENTICATE, requirement), Charged(credential, false));
    case Accept(_, evidence) => Decides(c.(mpp := Some(evidence)), Charged(credential, true));
  }

  lemma MalformedSettles(w: World, c: Core)
    requires Undecided(c)
    ensures Settles(w, Stop(c.Note(Malformed)), Malformed)
  {
    Decides(c, Malformed);
  }

  /** The event that tells the decision. */
  function DecisionOf(w: World, r: Request, gate: bool): Event {
    if !gate || !IsPricedRoute(r) then Paid(w.x402.Accept?)
    else
      match w.findCredential(r.authorization)
      case Err(_) => Malformed
      case Ok(credential) =>
        if credential == "" then Paid(w.x402.Accept?) else Charged(credential, w.charge(credential).Accept?)
  }

  lemma PaymentSettles(w: World, r: Request, gate: bool)
    ensures Settles(w, Payment(w, r, gate), DecisionOf(w, r, gate))
  {
    UnpaidUndecided(w, r);
    assert Undecided(WRAPPED) && Undecided(WRAPPED.Answer(STATUS_BAD_REQUEST));
    if !gate || !IsPricedRoute(r) {
      X402Settles(w, WRAPPED);
    } else {
      match w.findCredential(r.authorization)
      case Err(_) => MalformedSettles(w, WRAPPED.Answer(STATUS_BAD_REQUEST));
      case Ok(credential) =>
        if credential == "" {
          X402Settles(w, Unpaid(w, r, WRAPPED));
        } else {
          ChargeSettles(w, WRAPPED, credential);
        }
    }
  }

  /** What the action adds after a decision: its entry, and at most one event. */
  predicate ActsAfter(decided: seq<Event>, t: seq<Event>) {
    && |decided| < |t| <= |decided| + 2
    && t[..|decided|] == decided && t[|decided|].ActionEntered?
  }

  lemma ActNotes(w: World, c: Core, e: Event)
    requires DecidedOnly(c, e)
    ensures var t := Act(w, c).trace;
      && ActsAfter(c.trace, t) && Decisions(t) == [e] && Entries(t) == [ActionEntered]
      && (|t| == |c.trace| + 2 ==> w.body.Ok? && t[|c.trace| + 1] == Tagged(w, c))
  {
    var entered := c.Note(ActionEntered);
    Noted(c, ActionEntered);
    if w.body.Ok? {
      Noted(entered, Tagged(w, entered));
    }
  }

  /** A published event names the verifier that decided, with the evidence that verifier accepted and the body sent. */
  predicate TaggedBy(w: World, published: Event, e: Event) {
    published.ActionPublished? ==>
      && Accepted(e)
      && (published.details.protocol.MPP? <==> e.Charged?)
      && published.details.mpp == (if e.Charged? then EvidenceOf(w.charge(e.credential)) else None)
      && published.details.x402 == (if e.Paid? then EvidenceOf(w.x402) else None)
      && w.body.Ok? && published.payload == (if w.body.value == "" then None else Some(w.body.value))
      && published.timestamp == w.clock
  }

  /** A trace with one decision; the action runs at most once, after it, and publishes under its name. */
  predicate Concluded(w: World, t: seq<Event>, e: Event, acts: bool) {
    && Decisions(t) == [e]
    && Entries(t) == (if acts then [ActionEntered] else [])
    && (forall i :: 0 <= i < |t| ==> t[i].ActionEntered? ==> Decisions(t[..i]) == [e])
    && (forall i :: 0 <= i < |t| ==> TaggedBy(w, t[i], e) && (t[i].ActionPublished? ==> acts))
  }

  lemma StopConcludes(w: World, c: Core, e: Event)
    requires DecidedOnly(c, e)
    ensures Concluded(w, c.trace, e, false)
  {
  }

  lemma TaggedRight(w: World, c: Core, e: Event)
    requires w.body.Ok? && Accepted(e) && LeavesEvidence(w, c, e) && (e.Charged? ==> w.charge(e.credential).Accept?)
    ensures TaggedBy(w, Tagged(w, c), e)
  {
  }

  lemma ActConcludes(w: World, turn: Turn, e: Event)
    requires Settles(w, turn, e) && turn.Continue?
    ensures Concluded(w, Act(w, turn.core).trace, e, true)
  {
    var c, t := turn.core, Act(w, turn.core).trace;
    ActNotes(w, c, e);
    if w.body.Ok? {
      TaggedRight(w, c, e);
    }
    forall i | 0 <= i < |t|
      ensures t[i].ActionEntered? ==> Decisions(t[..i]) == [e]
      ensures TaggedBy(w, t[i], e)
    {
      if i < |c.trace| {
        assert t[i] == c.trace[i];
      }
    }
  }

  lemma DecisionIsRight(w: World, r: Request, gate: bool)
    ensures RightDecision(w, r, gate, DecisionOf(w, r, gate))
  {
  }

  /**
   Every request gets one decision, from the one verifier its headers select; the action runs at most
   once, exactly if that decision accepts a priced request, and only after it was made; and an event
   is published under the name of the verifier that decided, with the evidence it accepted.
   */
  lemma OneDecisionPerRequest(w: World, r: Request, gate: bool) returns (e: Event)
    requires !w.preflight
    ensures RightDecision(w, r, gate, e)
    ensures var (c, priced) := (Serve(w, r, gate), r.httpMethod == "POST" && r.path == "/action");
      && Concluded(w, c.trace, e, priced && Accepted(e))
      && (!priced && Accepted(e) ==> c.status == 404)
  {
    e := DecisionOf(w, r, gate);
    var turn := Payment(w, r, gate);
    DecisionIsRight(w, r, gate);
    PaymentSettles(w, r, gate);
    ServedByTurns(w, r, gate);
    StopConcludes(w, turn.core, e);
    if turn.Continue? {
      ActConcludes(w, turn, e);
    }
  }

  predicate Usable(body: Result<string, string>, isJson: string -> bool) {
    body.Ok? && (body.value == "" || isJson(body.value))
  }

  predicate Publishes(t: seq<Event>) { exists i :: 0 <= i < |t| && t[i].ActionPublished? }

  lemma ActOutcome(w: World, c: Core)
    requires !Publishes(c.trace)
    ensures Act(w, c).status == (if Usable(w.body, w.isJson) then STATUS_OK else STATUS_BAD_REQUEST)
    ensures Publishes(Act(w, c).trace) <==> Usable(w.body, w.isJson) && w.delivery.Published?
  {
    var t := Act(w, c).trace;
    assert t[|t| - 1].ActionPublished? <==> Usable(w.body, w.isJson) && w.delivery.Published?;
    assert t[..|c.trace|] == c.trace;
    forall i | 0 <= i < |c.trace| ensures t[i] == c.trace[i] {
    }
  }

  /** A paid action with a usable body is answered 200 whether or not its event gets out; only a bad body is refused. */
  lemma PaidActionOutcome(w: World, r: Request, gate: bool)
    requires !w.preflight && r.httpMethod == "POST" && r.path == "/action" && Accepted(DecisionOf(w, r, gate))
    ensures var c := Serve(w, r, gate);
      && c.status == (if Usable(w.body, w.isJson) then STATUS_OK else STATUS_BAD_REQUEST)
      && (Publishes(c.trace) <==> Usable(w.body, w.isJson) && w.delivery.Published?)
  {
    var turn := Payment(w, r, gate);
    PaymentSettles(w, r, gate);
    ServedByTurns(w, r, gate);
    ActOutcome(w, turn.core);
  }

  lemma TurnAttestable(w: World, r: Request, gate: bool)
    ensures var turn := Payment(w, r, gate);
      turn.core.wrapped && (turn.Stop? ==> turn.core.attestable)
  {
  }

  /** The attesting middleware comes first: every status but a preflight's is set with its writer in place. */
  lemma EveryAnswerAttestable(w: World, r: Request, gate: bool)
    ensures Serve(w, r, gate).attestable <==> !w.preflight
  {
    if w.preflight {
      PreflightGoesNoFurther(w, r, gate);
    } else {
      ServedByTurns(w, r, gate);
      TurnAttestable(w, r, gate);
    }
  }

  /** A request the CORS middleware answers goes no further. */
  lemma PreflightGoesNoFurther(w: World, r: Request, gate: bool)
    requires w.preflight
    ensures Serve(w, r, gate) == FRESH.Answer(STATUS_NO_CONTENT)
  {
    ServedInOrder(w, r, gate);
  }

  /**
   A refused unpaid request is told both ways to pay, one that came with an x402 payment only x402's.
   */
  lemma RefusedUnpaidSeesBothChallenges(w: World, r: Request)
    requires !w.preflight && r.httpMethod == "POST" && r.path == "/action"
    requires w.findCredential(r.authorization) == Ok("") && w.x402.Refuse?
    ensures var c := Serve(w, r, true);
      && c.status == STATUS_PAYMENT_REQUIRED
      && Get(c.header, PAYMENT_REQUIRED) == w.x402.requirement
      && Get(c.header, WWW_AUTHENTICATE) ==
           (if r.paymentSignature != "" || w.bodyForOffer.Err? then ""
            else
              var offered := w.offer(if w.bodyForOffer.value == "" then None else Some(w.bodyForOffer.value));
              if offered.Some? then offered.value else "")
  {
    ServedByTurns(w, r, true);
  }

  /** A request with an MPP credential never falls through to x402: a bad or refused one ends there. */
  lemma RefusedCredentialEndsThere(w: World, r: Request)
    requires !w.preflight && r.httpMethod == "POST" && r.path == "/action"
    requires w.findCredential(r.authorization) != Ok("")
    requires var found := w.findCredential(r.authorization); found.Ok? ==> w.charge(found.value).Refuse?
    ensures var c := Serve(w, r, true);
            var found := w.findCredential(r.authorization);
      && Get(c.header, PAYMENT_REQUIRED) == "" && c.x402 == None && c.mpp == None
      && c.status == (if found.Err? then STATUS_BAD_REQUEST else STATUS_PAYMENT_REQUIRED)
      && Get(c.header, WWW_AUTHENTICATE) == (if found.Err? then "" else w.charge(found.value).requirement)
  {
    ServedByTurns(w, r, true);
  }

  // ---- whether there is a gate at all ----

  /** What the charge method and the challenges are made from. */
  datatype Gate = Gate(
    chainID: int64,
    rpcURL: string,
    currency: string,
    recipient: string,
    decimals: int,
    realm: string,
    secretKey: string,
    amount: string)

  datatype GateError = NotEip155(network: string) | MethodFailed

  /** mppay.New; `builds` says whether the SDK can make a charge method. */
  function NewGate(c: Data, builds: Gate -> bool): Result<Option<Gate>, GateError> {
    if !c.mppEnabled then Ok(None)
    else
      match MPPChainID(c.mppNetwork)
      case None => Err(NotEip155(c.mppNetwork))
      case Some(id) =>
        var gate := Gate(id, c.mppRPCURL, c.mppCurrency, c.mppPayeeAddress, c.mppDecimals, c.mppRealm, c.mppSecretKey,
                         TrimPrefix(c.price, "$"));
        if builds(gate) then Ok(Some(gate)) else Err(MethodFailed)
  }

  /** setupRouter falls back to x402 alone, with or without an error. */
  function InstalledGate(c: Data, builds: Gate -> bool): Option<Gate> {
    match NewGate(c, builds)
    case Ok(gate) => gate
    case Err(_) => None
  }

  /**
   After validation only the SDK can keep an enabled gate from being installed, and the charge is for
   a plain decimal amount to an address, on the network's own chain ID, under a named realm.
   */
  lemma ValidatedGate(keys: KeyParser, input: Data, generated: string, builds: Gate -> bool)
    requires generated != "" && CheckAll(keys, input, generated).error.None?
    ensures var c := CheckAll(keys, input, generated).data;
            var gate := NewGate(c, builds);
      && !(gate.Err? && gate.error.NotEip155?)
      && (InstalledGate(c, builds).Some? <==> c.mppEnabled && gate.Ok?)
      && (gate.Ok? && gate.value.Some? ==> ChargesAsConfigured(gate.value.value, input, generated))
  {
    AcceptsExactlySound(keys, input, generated);
    var c := WithDefaults(input, generated);
    if c.mppEnabled {
      SoundGate(keys, input, generated);
      GateOf(input, generated, builds);
    }
  }

  lemma GateOf(input: Data, generated: string, builds: Gate -> bool)
    requires var c := WithDefaults(input, generated);
      && c.mppEnabled && IsAddress(c.mppPayeeAddress) && 1 <= c.mppDecimals <= 36
      && MPPChainID(c.mppNetwork).Some? && ChainID(c.mppNetwork) == Some(MPPChainID(c.mppNetwork).value)
      && Prices(c.price, TrimPrefix(c.price, "$"))
    ensures var gate := NewGate(WithDefaults(input, generated), builds);
      gate.Ok? ==> gate.value.Some? && ChargesAsConfigured(gate.value.value, input, generated)
  {
    GateAsConfigured(input, generated, WithDefaults(input, generated));
  }

  /** The price set or defaulted is the amount, with or without a dollar sign. */
  predicate Prices(price: string, amount: string) {
    (price == amount || price == "$" + amount) && exists n: nat :: n <= |amount| && IsAmountSplitAt(amount, n)
  }

  /**
   The gate charges what the configuration given to Validate says: to its MPP payee or else its payee,
   under its realm or else the robot's ID, in its decimals or else six, on its network or else Tempo.
   */
  predicate ChargesAsConfigured(g: Gate, input: Data, generated: string) {
    && ChainID(if input.mppNetwork == "" then "eip155:4217" else input.mppNetwork) == Some(g.chainID)
    && g.recipient == (if input.mppPayeeAddress == "" then input.evmPayeeAddress else input.mppPayeeAddress)
    && IsAddress(g.recipient)
    && g.decimals == (if input.mppDecimals == 0 then 6 else input.mppDecimals) && 1 <= g.decimals <= 36
    && g.realm == (if input.mppRealm != "" then input.mppRealm
                   else if input.robotID != "" then input.robotID else generated)
    && g.rpcURL == input.mppRPCURL && g.currency == input.mppCurrency && g.secretKey == input.mppSecretKey
    && Prices(if input.price == "" then "0.001" else input.price, g.amount)
  }

  lemma GateAsConfigured(input: Data, generated: string, c: Data)
    requires c == WithDefaults(input, generated) && c.mppEnabled
    ensures c.mppNetwork == (if input.mppNetwork == "" then "eip155:4217" else input.mppNetwork)
    ensures c.mppPayeeAddress == (if input.mppPayeeAddress == "" then input.evmPayeeAddress else input.mppPayeeAddress)
    ensures c.mppDecimals == (if input.mppDecimals == 0 then 6 else input.mppDecimals)
    ensures c.mppRealm == (if input.mppRealm != "" then input.mppRealm
                           else if input.robotID != "" then input.robotID else generated)
    ensures c.mppRPCURL == input.mppRPCURL && c.mppCurrency == input.mppCurrency && c.mppSecretKey == input.mppSecretKey
    ensures c.price == (if input.price == "" then "0.001" else input.price)
  {
  }

  lemma SoundGate(keys: KeyParser, input: Data, generated: string)
    requires Sound(keys, WithDefaults(input, generated)) && WithDefaults(input, generated).mppEnabled
    ensures var c := WithDefaults(input, generated);
      && IsAddress(c.mppPayeeAddress) && 1 <= c.mppDecimals <= 36
      && MPPChainID(c.mppNetwork).Some? && ChainID(c.mppNetwork) == Some(MPPChainID(c.mppNetwork).value)
      && Prices(c.price, TrimPrefix(c.price, "$"))
  {
  }

  // ---- the code itself, acting on gin's context ----

  class GinContext {
    const world: World
    const request: Request
    const chain: seq<Handler>
    var index: int
    var status: int
    var header: Header
    var x402: Option<Evidence>
    var mpp: Option<Evidence>
    var trace: seq<Event>
    var wrapped: bool
    var attestable: bool

    function State(): Context
      reads this
    {
      Context(index, Core(status, header, x402, mpp, trace, wrapped, attestable))
    }

    ghost predicate Valid() { |chain| < ABORT_INDEX }

    constructor (world: World, request: Request, chain: seq<Handler>)
      requires |chain| < ABORT_INDEX
      ensures Valid() && State() == Context(-1, FRESH)
      ensures this.world == world && this.request == request && this.chain == chain
    {
      this.world, this.request, this.chain := world, request, chain;
      index, status, header, x402, mpp, trace := -1, STATUS_OK, map[], None, None, [];
      wrapped, attestable := false, false;
    }

    method Abort()
      modifies this
      ensures State() == old(State()).Abort()
    {
      index := ABORT_INDEX;
    }

    /** The status goes through whatever writer is in place. */
    method Answer(code: int)
      modifies this
      ensures State() == old(State()).With(old(State()).core.Answer(code))
    {
      status := code;
      attestable := wrapped;
    }

    method Note(e: Event)
      modifies this
      ensures State() == old(State()).With(old(State()).core.Note(e))
    {
      trace := trace + [e];
    }

    method Next()
      requires Valid() && -1 <= index < |chain|
      modifies this
      ensures State() == NextFrom(world, request, chain, old(State()))
      decreases |chain| - index, 0
    {
      index := index + 1;
      while index < |chain|
        invariant 0 <= index && old(index) < index
        invariant LoopFrom(world, request, chain, State()) == NextFrom(world, request, chain, old(State()))
        decreases |chain| - index
      {
        Handle();
        index := index + 1;
      }
    }

    method Handle()
      requires Valid() && 0 <= index < |chain|
      modifies this
      ensures State() == HandleAt(world, request, chain, old(State()))
      decreases |chain| - index, 4
    {
      match chain[index]
      case Cors =>
        if world.preflight {
          Answer(STATUS_NO_CONTENT);
          Abort();
        }
      case Attesting =>
        wrapped := true;
        Next();
      case Gated => Dispatch();
      case PlainX402 => VerifyX402();
      case PostAction => PostAction();
      case NoRoute => Answer(STATUS_NOT_FOUND);
    }

    /** Gate.Middleware. */
    method Dispatch()
      requires Valid() && 0 <= index < |chain|
      modifies this
      ensures State() == DispatchAt(world, request, chain, old(State()))
      decreases |chain| - index, 3
    {
      if !IsPricedRoute(request) {
        VerifyX402();
        return;
      }
      var found := world.findCredential(request.authorization);
      if found.Err? {
        Answer(STATUS_BAD_REQUEST);
        Note(Malformed);
        Abort();
        return;
      }
      if found.value != "" {
        Charge(found.value);
        return;
      }
      if request.paymentSignature == "" {
        Advertise();
      }
      VerifyX402();
    }

    method Advertise()
      modifies this
      ensures State() == old(State()).With(Offered(world, old(State()).core))
    {
      if world.bodyForOffer.Err? {
        return;
      }
      var body := None;
      if |world.bodyForOffer.value| > 0 {
        body := Some(world.bodyForOffer.value);
      }
      var challenge := world.offer(body);
      if challenge.None? {
        return;
      }
      header := Http.Add(header, WWW_AUTHENTICATE, challenge.value);
      Note(Advertised(challenge.value));
    }

    method Charge(found: string)
      requires Valid() && 0 <= index < |chain|
      modifies this
      ensures State() == ChargeAt(world, request, chain, old(State()), found)
      decreases |chain| - index, 2
    {
      match world.charge(found)
      case Refuse(requirement) =>
        RequirePayment(WWW_AUTHENTICATE, requirement);
        Note(Charged(found, false));
        Abort();
      case Accept(callsNext, evidence) =>
        mpp := Some(evidence);
        Note(Charged(found, true));
        if callsNext {
          Next();
        }
    }

    method VerifyX402()
      requires Valid() && 0 <= index < |chain|
      modifies this
      ensures State() == X402At(world, request, chain, old(State()))
      decreases |chain| - index, 2
    {
      match world.x402
      case Refuse(requirement) =>
        RequirePayment(PAYMENT_REQUIRED, requirement);
        Note(Paid(false));
        Abort();
      case Accept(callsNext, evidence) =>
        x402 := Some(evidence);
        Note(Paid(true));
        if callsNext {
          Next();
        }
    }

    method RequirePayment(name: string, requirement: string)
      modifies this
      ensures State() == old(State()).With(Refused(old(State()).core, name, requirement))
    {
      header := Http.Set(header, name, requirement);
      Answer(STATUS_PAYMENT_REQUIRED);
    }

    method PostAction()
      modifies this
      ensures State() == old(State()).With(Act(world, old(State()).core))
    {
      Note(ActionEntered);
      if world.body.Err? {
        Answer(STATUS_BAD_REQUEST);
        return;
      }
      if |world.body.value| > 0 && !world.isJson(world.body.value) {
        Answer(STATUS_BAD_REQUEST);
        return;
      }
      var payload := None;
      if |world.body.value| > 0 {
        payload := Some(world.body.value);
      }
      var details := Details(X402, x402, None);
      if mpp.Some? {
        details := details.(protocol := MPP);
        details := details.(mpp := mpp);
      }
      if world.delivery == Published {
        Note(ActionPublished(payload, details, world.clock));
      }
      Answer(STATUS_OK);
    }
  }
}
