/**
 What the attesting writer leaves alone: but for the attestation header, the response is the one gin
 would have sent without it.
 */
module Transparency {
  import opened Wrappers
  import opened Canonical
  import opened Http
  import opened Attest
  import opened AttestWriter
  import opened ServedChallenge

  // ---- the same handlers on gin's writer alone ----

  function Bare(g: Gin, a: Action): Gin {
    match a
    case WriteHeader(code) => GinWriteHeader(g, code)
    case WriteHeaderNow => GinWriteHeaderNow(g)
    case Write(data) => GinWrite(g, data)
    case WriteString(data) => GinWrite(g, data)
    case _ => g.(header := ChangeHeader(g.header, a))
  }

  function BareRun(initial: Header, events: seq<Event>): Gin {
    if events == [] then Gin(STATUS_OK, initial, None, "")
    else Bare(BareRun(initial, events[..|events| - 1]), events[|events| - 1].0)
  }

  predicate SameBut(h: Header, k: Header, name: string) { h - {name} == k - {name} }

  /** Equal but for the attestation header, before and after the headers leave. */
  predicate Alike(g: Gin, bare: Gin) {
    && g.status == bare.status && g.body == bare.body && SameBut(g.header, bare.header, ATTESTATION)
    && (g.sent.Some? <==> bare.sent.Some?)
    && (g.sent.Some? ==>
          && g.sent.value.status == bare.sent.value.status
          && SameBut(g.sent.value.header, bare.sent.value.header, ATTESTATION))
  }

  lemma ChangeAlike(h: Header, k: Header, a: Action)
    requires SameBut(h, k, ATTESTATION) && !IsCall(a)
    ensures SameBut(ChangeHeader(h, a), ChangeHeader(k, a), ATTESTATION)
  {
    forall name | name != ATTESTATION
      ensures name in h <==> name in k
      ensures name in h ==> h[name] == k[name]
    {
      assert name in h - {ATTESTATION} <==> name in h;
      assert name in k - {ATTESTATION} <==> name in k;
    }
  }

  lemma AttachAlike(w: Writer, signed: Result<string, Error>, bare: Gin)
    requires Alike(w.gin, bare)
    ensures Alike(AttachWith(w, signed).gin, bare)
  {
  }

  lemma StepAlike(sign: Signing, w: Writer, e: Event, bare: Gin)
    requires Alike(w.gin, bare)
    ensures Alike(Next(sign, w, e).gin, Bare(bare, e.0))
  {
    if IsCall(e.0) {
      var at := AttachPoint(w, e.0);
      var g := if e.0.WriteHeader? then GinWriteHeader(bare, e.0.code) else bare;
      AttachAlike(at, sign(PairOf(w.gin.header), e.1), g);
    } else {
      ChangeAlike(w.gin.header, bare.header, e.0);
    }
  }

  /** In every run, and however signing goes, the wrapper changes nothing but the attestation header. */
  lemma {:induction false} WrapperIsTransparent(sign: Signing, initial: Header, events: seq<Event>)
    ensures Alike(Run(sign, initial, events).gin, BareRun(initial, events))
    decreases |events|
  {
    if events != [] {
      var n := |events| - 1;
      WrapperIsTransparent(sign, initial, events[..n]);
      StepAlike(sign, Run(sign, initial, events[..n]), events[n], BareRun(initial, events[..n]));
    }
  }

  // ---- what leaves, told from the events ----

  predicate Emits(a: Action) { a.WriteHeaderNow? || a.Write? || a.WriteString? }

  /** The events before the headers leave. */
  function BeforeEmission(events: seq<Event>): seq<Event> {
    if events == [] then []
    else if Emits(events[0].0) then []
    else [events[0]] + BeforeEmission(events[1..])
  }

  /** The last status code set, 200 if there is none; codes that are not positive are ignored. */
  function StatusSet(events: seq<Event>): int {
    if events == [] then 200
    else
      var a := events[|events| - 1].0;
      if a.WriteHeader? && a.code > 0 then a.code else StatusSet(events[..|events| - 1])
  }

  /** The header changes alone, one after the other. */
  function HeadersSet(initial: Header, events: seq<Event>): Header {
    if events == [] then initial
    else
      var h, a := HeadersSet(initial, events[..|events| - 1]), events[|events| - 1].0;
      match a
      case SetHeader(name, value) => h[name := [value]]
      case AddHeader(name, value) => h[name := (if name in h then h[name] else []) + [value]]
      case DelHeader(name) => h - {name}
      case _ => h
  }

  /** Once headers have left, nothing changes them. */
  lemma SentStep(sign: Signing, w: Writer, e: Event)
    requires w.gin.sent.Some?
    ensures Next(sign, w, e).gin.sent == w.gin.sent
  {
  }

  lemma {:induction false} SentStays(sign: Signing, initial: Header, before: seq<Event>, events: seq<Event>)
    requires Run(sign, initial, before).gin.sent.Some?
    ensures Run(sign, initial, before + events).gin.sent == Run(sign, initial, before).gin.sent
    decreases |events|
  {
    if events == [] {
      assert before + events == before;
    } else {
      var rest, e := events[..|events| - 1], events[|events| - 1];
      SentStays(sign, initial, before, rest);
      assert before + events == before + rest + [e];
      RunAppend(sign, initial, before + rest, e);
      SentStep(sign, Run(sign, initial, before + rest), e);
    }
  }

  function DataOf(a: Action): string { if a.Write? || a.WriteString? then a.data else "" }

  /** The body is what was written, in order. */
  function Written(events: seq<Event>): string {
    if events == [] then "" else Written(events[..|events| - 1]) + DataOf(events[|events| - 1].0)
  }

  lemma BodyStep(sign: Signing, w: Writer, e: Event)
    ensures Next(sign, w, e).gin.body == w.gin.body + DataOf(e.0)
  {
  }

  lemma {:induction false} BodyIsWritten(sign: Signing, initial: Header, events: seq<Event>)
    ensures Run(sign, initial, events).gin.body == Written(events)
    decreases |events|
  {
    if events != [] {
      var n := |events| - 1;
      BodyIsWritten(sign, initial, events[..n]);
      BodyStep(sign, Run(sign, initial, events[..n]), events[n]);
    }
  }

  predicate NoneEmits(events: seq<Event>) { forall i :: 0 <= i < |events| ==> !Emits(events[i].0) }

  lemma {:induction false} PendingBefore(initial: Header, events: seq<Event>)
    requires NoneEmits(events)
    ensures BareRun(initial, events) == Gin(StatusSet(events), HeadersSet(initial, events), None, "")
    decreases |events|
  {
    if events != [] {
      PendingBefore(initial, events[..|events| - 1]);
    }
  }

  lemma BareStays(g: Gin, a: Action)
    requires g.sent.Some?
    ensures Bare(g, a).sent == g.sent
  {
  }

  lemma BareEmits(g: Gin, a: Action)
    requires g.sent.None? && Emits(a)
    ensures Bare(g, a).sent == Some(Sent(g.status, g.header))
  {
  }

  lemma BareAppend(initial: Header, events: seq<Event>, e: Event)
    ensures BareRun(initial, events + [e]) == Bare(BareRun(initial, events), e.0)
  {
    assert (events + [e])[..|events|] == events;
  }

  lemma {:induction false} BareSentStays(initial: Header, before: seq<Event>, events: seq<Event>)
    requires BareRun(initial, before).sent.Some?
    ensures BareRun(initial, before + events).sent == BareRun(initial, before).sent
    decreases |events|
  {
    if events == [] {
      assert before + events == before;
    } else {
      var rest, e := events[..|events| - 1], events[|events| - 1];
      BareSentStays(initial, before, rest);
      assert before + events == before + rest + [e];
      BareAppend(initial, before + rest, e);
      BareStays(BareRun(initial, before + rest), e.0);
    }
  }

  lemma {:induction false} EmissionSplits(events: seq<Event>)
    ensures var k := |BeforeEmission(events)|;
      && k <= |events| && BeforeEmission(events) == events[..k] && NoneEmits(events[..k])
      && (k < |events| ==> Emits(events[k].0))
    decreases |events|
  {
    if events != [] && !Emits(events[0].0) {
      EmissionSplits(events[1..]);
      var k := |BeforeEmission(events[1..])|;
      assert events[..k + 1] == [events[0]] + events[1..][..k];
    }
  }

  /** gin sends the status and headers set before the first emission, or at the end of the request. */
  lemma BareLeaves(initial: Header, events: seq<Event>)
    ensures var (g, before) := (BareRun(initial, events), BeforeEmission(events));
      (if g.sent.Some? then g.sent.value else Sent(g.status, g.header))
        == Sent(StatusSet(before), HeadersSet(initial, before))
  {
    var before := BeforeEmission(events);
    var k := |before|;
    EmissionSplits(events);
    PendingBefore(initial, before);
    if k < |events| {
      BareAppend(initial, before, events[k]);
      BareEmits(BareRun(initial, before), events[k].0);
      BareSentStays(initial, before + [events[k]], events[k + 1..]);
      assert events == before + [events[k]] + events[k + 1..];
    } else {
      assert before == events;
    }
  }

  /**
   What leaves a site, told from what the handlers did before the first emission: their status, their
   headers but for the attestation, and everything written.
   */
  lemma LeavesWhatHandlersSet(sign: Signing, initial: Header, events: seq<Event>)
    ensures var (w, before) := (Run(sign, initial, events), BeforeEmission(events));
      && Served(w).status == StatusSet(before)
      && SameBut(Served(w).header, HeadersSet(initial, before), ATTESTATION)
      && w.gin.body == Written(events)
  {
    WrapperIsTransparent(sign, initial, events);
    BareLeaves(initial, events);
    BodyIsWritten(sign, initial, events);
  }
}
