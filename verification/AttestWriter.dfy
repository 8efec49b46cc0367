/**
 The response writer that signs the payment challenge on its way to a 402
 (tunnel/internal/attest/middleware.go), around gin's own writer.
 */
module AttestWriter {
  import opened Wrappers
  import opened Canonical
  import opened Http
  import opened Attest

  // ---- gin's writer ----

  /** What leaves the process: the status line and headers as they stood when first emitted. */
  datatype Sent = Sent(status: int, header: Header)

  datatype Gin = Gin(status: int, header: Header, sent: Option<Sent>, body: string)

  /** Records the status; ignored once headers are out. */
  function GinWriteHeader(g: Gin, code: int): Gin {
    if code > 0 && g.sent.None? then g.(status := code) else g
  }

  function GinWriteHeaderNow(g: Gin): Gin {
    if g.sent.None? then g.(sent := Some(Sent(g.status, g.header))) else g
  }

  function GinWrite(g: Gin, data: string): Gin {
    var h := GinWriteHeaderNow(g);
    h.(body := h.body + data)
  }

  class GinWriter {
    var status: int
    var header: Header
    var sent: Option<Sent>
    var body: string

    function State(): Gin
      reads this
    {
      Gin(status, header, sent, body)
    }

    constructor (initial: Header)
      ensures State() == Gin(STATUS_OK, initial, None, "")
    {
      status, header, sent, body := STATUS_OK, initial, None, "";
    }

    method WriteHeader(code: int)
      modifies this
      ensures State() == GinWriteHeader(old(State()), code)
    {
      if code > 0 && status != code {
        if sent.Some? {
          return;
        }
        status := code;
      }
    }

    method WriteHeaderNow()
      modifies this
      ensures State() == GinWriteHeaderNow(old(State()))
    {
      if sent.None? {
        sent := Some(Sent(status, header));
      }
    }

    method Write(data: string)
      modifies this
      ensures State() == GinWrite(old(State()), data)
    {
      WriteHeaderNow();
      body := body + data;
    }
  }

  // ---- the attesting writer ----

  /** What the middleware hands every writer: the signer and the request it answers. */
  datatype Site = Site(crypto: Crypto, key: Key, robotID: string, httpMethod: string, path: string)

  /** The first values of the two challenge headers. */
  type Pair = (string, string)

  const NO_CHALLENGE: Pair := ("", "")

  function PairOf(h: Header): Pair { (Get(h, PAYMENT_REQUIRED), Get(h, WWW_AUTHENTICATE)) }

  /** The challenge a pair of header values makes, not yet dated. */
  function ChallengeOf(site: Site, p: Pair): Challenge {
    Challenge(site.robotID, site.httpMethod, site.path, p.0, p.1, 0, "")
  }

  datatype Writer = Writer(gin: Gin, attached: bool, signedRequired: string, signedWWWAuth: string)

  /** A 402 that has not left yet. */
  predicate Open(w: Writer) { w.gin.status == STATUS_PAYMENT_REQUIRED && w.gin.sent.None? }

  /** The conditions under which attach signs. */
  predicate MustSign(w: Writer) {
    && Open(w)
    && PairOf(w.gin.header) != NO_CHALLENGE
    && !(w.attached && PairOf(w.gin.header) == (w.signedRequired, w.signedWWWAuth))
  }

  /** Keeps the outcome of signing a pair: a failure leaves everything as it was. */
  function Commit(w: Writer, p: Pair, signed: Result<string, Error>): Writer {
    match signed
    case Err(_) => w
    case Ok(value) => Writer(w.gin.(header := Set(w.gin.header, ATTESTATION, value)), true, p.0, p.1)
  }

  /** attach, given the outcome of signing the current challenge. */
  function AttachWith(w: Writer, signed: Result<string, Error>): Writer {
    if MustSign(w) then Commit(w, PairOf(w.gin.header), signed) else w
  }

  function SignPair(site: Site, p: Pair, env: Env): Result<string, Error> {
    AttestValue(site.crypto, site.key, ChallengeOf(site, p), env)
  }

  function Attach(site: Site, w: Writer, env: Env): Writer {
    AttachWith(w, SignPair(site, PairOf(w.gin.header), env))
  }

  /** What a handler can do with the writer. */
  datatype Action =
    | SetHeader(name: string, value: string)
    | AddHeader(name: string, value: string)
    | DelHeader(name: string)
    | WriteHeader(code: int)
    | WriteHeaderNow
    | Write(data: string)
    | WriteString(data: string)

  /** Header changes bypass the wrapper; everything else goes through it. */
  predicate IsCall(a: Action) { a.WriteHeader? || a.WriteHeaderNow? || a.Write? || a.WriteString? }

  /** The state in which a wrapper call runs attach: only WriteHeader forwards first. */
  function AttachPoint(w: Writer, a: Action): Writer {
    if a.WriteHeader? then w.(gin := GinWriteHeader(w.gin, a.code)) else w
  }

  function Forward(w: Writer, a: Action): Writer {
    match a
    case WriteHeaderNow => w.(gin := GinWriteHeaderNow(w.gin))
    case Write(data) => w.(gin := GinWrite(w.gin, data))
    case WriteString(data) => w.(gin := GinWrite(w.gin, data))
    case _ => w
  }

  function ChangeHeader(h: Header, a: Action): Header {
    match a
    case SetHeader(name, value) => Set(h, name, value)
    case AddHeader(name, value) => Add(h, name, value)
    case DelHeader(name) => Del(h, name)
    case _ => h
  }

  /** One action, given the outcome of signing the challenge then present. */
  function StepWith(w: Writer, a: Action, signed: Result<string, Error>): Writer {
    if IsCall(a) then Forward(AttachWith(AttachPoint(w, a), signed), a)
    else w.(gin := w.gin.(header := ChangeHeader(w.gin.header, a)))
  }

  function Step(site: Site, w: Writer, a: Action, env: Env): Writer {
    StepWith(w, a, SignPair(site, PairOf(w.gin.header), env))
  }

  class AttestingWriter {
    const inner: GinWriter
    const signer: Signer
    const site: Site
    var attached: bool
    var signedRequired: string
    var signedWWWAuth: string

    ghost predicate Valid()
    {
      signer.crypto == site.crypto && signer.key == site.key && signer.address == site.crypto.addressOf(site.key)
    }

    function State(): Writer
      reads this, inner
    {
      Writer(inner.State(), attached, signedRequired, signedWWWAuth)
    }

    constructor (inner: GinWriter, signer: Signer, robotID: string, httpMethod: string, path: string)
      requires signer.address == signer.crypto.addressOf(signer.key)
      ensures Valid() && this.inner == inner
      ensures site == Site(signer.crypto, signer.key, robotID, httpMethod, path)
      ensures State() == Writer(inner.State(), false, "", "")
    {
      this.inner, this.signer := inner, signer;
      site := Site(signer.crypto, signer.key, robotID, httpMethod, path);
      attached, signedRequired, signedWWWAuth := false, "", "";
    }

    method AttachNow(env: Env)
      requires Valid()
      modifies this, inner
      ensures State() == Attach(site, old(State()), env)
    {
      var sign, p := NeedsSignature();
      if !sign {
        return;
      }
      var value := signer.Attest(ChallengeOf(site, p), env);
      KeepSignature(p, value);
    }

    /** The guards of attach, in the order in which it checks them. */
    method NeedsSignature() returns (sign: bool, p: Pair)
      ensures sign == MustSign(State())
      ensures sign ==> p == PairOf(State().gin.header)
    {
      p := NO_CHALLENGE;
      if inner.status != STATUS_PAYMENT_REQUIRED || inner.sent.Some? {
        return false, p;
      }
      var paymentRequired := Get(inner.header, PAYMENT_REQUIRED);
      var wwwAuthenticate := Get(inner.header, WWW_AUTHENTICATE);
      p := (paymentRequired, wwwAuthenticate);
      if paymentRequired == "" && wwwAuthenticate == "" {
        return false, p;
      }
      if attached && paymentRequired == signedRequired && wwwAuthenticate == signedWWWAuth {
        return false, p;
      }
      return true, p;
    }

    method KeepSignature(p: Pair, value: Result<string, Error>)
      modifies this, inner
      ensures State() == Commit(old(State()), p, value)
    {
      if value.Ok? {
        inner.header := Set(inner.header, ATTESTATION, value.value);
        attached := true;
        signedRequired := p.0;
        signedWWWAuth := p.1;
      }
    }

    method WriteHeader(code: int, env: Env)
      requires Valid()
      modifies this, inner
      ensures State() == Step(site, old(State()), Action.WriteHeader(code), env)
    {
      inner.WriteHeader(code);
      AttachNow(env);
    }

    method WriteHeaderNow(env: Env)
      requires Valid()
      modifies this, inner
      ensures State() == Step(site, old(State()), Action.WriteHeaderNow, env)
    {
      AttachNow(env);
      inner.WriteHeaderNow();
    }

    method Write(data: string, env: Env)
      requires Valid()
      modifies this, inner
      ensures State() == Step(site, old(State()), Action.Write(data), env)
    {
      AttachNow(env);
      inner.Write(data);
    }

    method WriteString(data: string, env: Env)
      requires Valid()
      modifies this, inner
      ensures State() == Step(site, old(State()), Action.WriteString(data), env)
    {
      AttachNow(env);
      inner.Write(data);
    }

    /** A handler changing the header map that both writers share. */
    method ChangeHeaders(a: Action, env: Env)
      requires Valid() && !IsCall(a)
      modifies inner
      ensures State() == Step(site, old(State()), a, env)
    {
      inner.header := ChangeHeader(inner.header, a);
    }

    method Perform(a: Action, env: Env)
      requires Valid()
      modifies this, inner
      ensures State() == Step(site, old(State()), a, env)
    {
      match a
      case WriteHeader(code) => WriteHeader(code, env);
      case WriteHeaderNow => WriteHeaderNow(env);
      case Write(data) => Write(data, env);
      case WriteString(data) => WriteString(data, env);
      case _ => ChangeHeaders(a, env);
    }
  }
}
