/**
 The tunnel client as a concurrent protocol (tunnel/internal/client.go): a reader that starts one
 dispatcher per request, and dispatchers that share a write mutex, over successive connections.
 Every interleaving is a run of the labelled transition system below.
 */
module TunnelProtocol {
  import opened Wrappers
  import opened Text
  import opened Http

  datatype Envelope = Envelope(
    kind: string,
    id: string,
    httpMethod: string,
    path: string,
    headers: Flat,
    status: int,
    body: string,
    error: string)

  // ---- answering one request ----

  /** How serving a request can end. */
  datatype Outcome =
    | InvalidPath(reason: string)
    | Panicked(value: string)
    | Recorded(status: int, header: Header, body: string)

  function EmptyResponse(id: string): Envelope {
    Envelope("response", id, "", "", map[], 0, "", "")
  }

  function ResponseFor(request: Envelope, outcome: Outcome): (response: Envelope)
    ensures response.kind == "response" && response.id == request.id
    ensures response.httpMethod == "" && response.path == ""
  {
    var empty := EmptyResponse(request.id);
    match outcome
    case InvalidPath(reason) => empty.(status := 400, error := "invalid path: " + reason)
    case Panicked(value) => empty.(status := 500, error := "handler panic: " + value)
    case Recorded(status, header, body) => empty.(status := status, headers := Flatten(header), body := body)
  }

  /**
   The response to what was recorded has its status and body, and under every name the first value of
   that header; a bad path and a panic are answered with their error and no headers.
   */
  lemma ResponseExactly(request: Envelope, outcome: Outcome)
    ensures var r := ResponseFor(request, outcome);
      if outcome.Recorded? then
        && r.status == outcome.status && r.body == outcome.body && r.error == ""
        && (forall name :: Lookup(r.headers, name) == Get(outcome.header, name))
        && (forall name :: name in r.headers <==> name in outcome.header && |outcome.header[name]| > 0)
      else
        && r.headers == map[] && r.body == ""
        && (outcome.InvalidPath? ==> r.status == 400 && r.error == "invalid path: " + outcome.reason)
        && (outcome.Panicked? ==> r.status == 500 && r.error == "handler panic: " + outcome.value)
  {
    if outcome.Recorded? {
      forall name ensures Lookup(Flatten(outcome.header), name) == Get(outcome.header, name) {
        FlattenKeepsFirst(outcome.header, name);
      }
    }
  }

  /** dispatchRequest up to the write: the response is filled in step by step, or by the deferred recover. */
  method PrepareResponse(request: Envelope, outcome: Outcome) returns (response: Envelope)
    ensures response == ResponseFor(request, outcome)
  {
    response := EmptyResponse(request.id);
    match outcome {
      case InvalidPath(reason) =>
        response := response.(status := 400);
        response := response.(error := "invalid path: " + reason);
      case Panicked(value) =>
        response := response.(status := 500);
        response := response.(error := "handler panic: " + value);
      case Recorded(status, header, body) =>
        response := response.(status := status);
        var flat := FlattenHeaders(header);
        response := response.(headers := flat);
        response := response.(body := body);
    }
  }

  // ---- the state ----

  type Bytes = seq<byte>

  /** The bytes WriteJSON puts on the connection for one envelope. */
  type Encoding = Envelope -> Bytes

  ghost predicate Framed(encode: Encoding) { forall e :: |encode(e)| > 0 }

  datatype Phase =
    | Handling
    | Ready(response: Envelope)
    | Writing(response: Envelope, sent: nat)
    | Done(response: Envelope)
    | Failed(response: Envelope)

  /** A dispatcher, with the connection its request was read from. */
  datatype Job = Job(conn: nat, request: Envelope, phase: Phase)

  /** A frame whose write failed, and how much of it had gone out. */
  datatype Cut = Cut(response: Envelope, sent: nat)

  /** `answered` and `cut` record what the bytes in `stream` mean. */
  datatype Conn = Conn(received: seq<string>, stream: Bytes, answered: seq<Envelope>, cut: Option<Cut>, closed: bool)

  /** `outcomes` records how the handler of each dispatcher ended. */
  datatype State = State(
    conns: seq<Conn>,
    jobs: seq<Job>,
    lock: Option<nat>,
    reader: Option<nat>,
    outcomes: map<nat, Outcome>)

  const INITIAL := State([], [], None, None, map[])

  datatype Label =
    | Connect
    | Read(request: Envelope)
    | EndRead
    | Handle(job: nat, outcome: Outcome)
    | Lock(job: nat)
    | Send(job: nat, count: nat)
    | Finish(job: nat)
    | Fail(job: nat)
    | Close(conn: nat)

  /**
   Only acquiring the mutex looks at it: a dispatcher inside WriteJSON goes on writing regardless.
   A connection takes no bytes once closed, nor after a write on it has failed; messages that had
   arrived before it was closed can still be read.
   */
  predicate Enabled(encode: Encoding, s: State, l: Label) {
    match l
    case Connect => s.reader.None?
    case Read(request) => s.reader.Some? && s.reader.value < |s.conns| && request.kind == "request"
    case EndRead => s.reader.Some? && s.reader.value < |s.conns|
    case Handle(j, _) => j < |s.jobs| && s.jobs[j].phase.Handling?
    case Lock(j) => s.lock.None? && j < |s.jobs| && s.jobs[j].phase.Ready?
    case Send(j, n) =>
      && j < |s.jobs| && s.jobs[j].phase.Writing? && s.jobs[j].conn < |s.conns|
      && !s.conns[s.jobs[j].conn].closed && s.conns[s.jobs[j].conn].cut.None?
      && 0 < n && s.jobs[j].phase.sent + n <= |encode(s.jobs[j].phase.response)|
    case Finish(j) =>
      && j < |s.jobs| && s.jobs[j].phase.Writing? && s.jobs[j].conn < |s.conns|
      && s.jobs[j].phase.sent == |encode(s.jobs[j].phase.response)|
    case Fail(j) => j < |s.jobs| && s.jobs[j].phase.Writing? && s.jobs[j].conn < |s.conns|
    case Close(c) => c < |s.conns|
  }

  function Apply(encode: Encoding, s: State, l: Label): State
    requires Enabled(encode, s, l)
  {
    match l
    case Connect => s.(conns := s.conns + [Conn([], [], [], None, false)], reader := Some(|s.conns|))
    case Read(request) =>
      var c := s.reader.value;
      var conn := s.conns[c];
      s.(conns := s.conns[c := conn.(received := conn.received + [request.id])],
          jobs := s.jobs + [Job(c, request, Handling)])
    case EndRead => s.(conns := s.conns[s.reader.value := s.conns[s.reader.value].(closed := true)], reader := None)
    case Handle(j, outcome) =>
      SetPhase(s, j, Ready(ResponseFor(s.jobs[j].request, outcome))).(outcomes := s.outcomes[j := outcome])
    case Lock(j) => SetPhase(s, j, Writing(s.jobs[j].phase.response, 0)).(lock := Some(j))
    case Send(j, n) =>
      var (c, response, sent) := (s.jobs[j].conn, s.jobs[j].phase.response, s.jobs[j].phase.sent);
      SetPhase(s, j, Writing(response, sent + n))
        .(conns := s.conns[c := s.conns[c].(stream := s.conns[c].stream + encode(response)[sent..sent + n])])
    case Finish(j) =>
      var (c, response) := (s.jobs[j].conn, s.jobs[j].phase.response);
      SetPhase(s, j, Done(response))
        .(conns := s.conns[c := s.conns[c].(answered := s.conns[c].answered + [response])], lock := None)
    case Fail(j) =>
      var (c, response, sent) := (s.jobs[j].conn, s.jobs[j].phase.response, s.jobs[j].phase.sent);
      var cut := if s.conns[c].cut.Some? then s.conns[c].cut else Some(Cut(response, sent));
      SetPhase(s, j, Failed(response)).(conns := s.conns[c := s.conns[c].(cut := cut)], lock := None)
    case Close(c) => s.(conns := s.conns[c := s.conns[c].(closed := true)])
  }

  function SetPhase(s: State, j: nat, p: Phase): State
    requires j < |s.jobs|
  {
    s.(jobs := s.jobs[j := s.jobs[j].(phase := p)])
  }

  /** A run from the initial state, or None when some label was not enabled. */
  function Run(encode: Encoding, labels: seq<Label>): Option<State> {
    if labels == [] then Some(INITIAL)
    else
      var n := |labels| - 1;
      var s :- Run(encode, labels[..n]);
      if Enabled(encode, s, labels[n]) then Some(Apply(encode, s, labels[n])) else None
  }

  // ---- accounting for every request ----

  datatype Fate = InFlight | Answered | Lost

  function FateOf(p: Phase): Fate {
    match p
    case Done(_) => Answered
    case Failed(_) => Lost
    case _ => InFlight
  }

  predicate Counts(job: Job, c: nat, fate: Fate, id: string) {
    job.conn == c && FateOf(job.phase) == fate && job.request.id == id
  }

  function One(b: bool): nat { if b then 1 else 0 }

  /** How many dispatchers for request `id` of connection `c` have met this fate. */
  function Tally(jobs: seq<Job>, c: nat, fate: Fate, id: string): nat {
    if jobs == [] then 0
    else Tally(jobs[..|jobs| - 1], c, fate, id) + One(Counts(jobs[|jobs| - 1], c, fate, id))
  }

  function ResponseIds(rs: seq<Envelope>): seq<string> {
    seq(|rs|, i requires 0 <= i < |rs| => rs[i].id)
  }

  lemma AddJob(jobs: seq<Job>, job: Job, c: nat, fate: Fate, id: string)
    ensures Tally(jobs + [job], c, fate, id) == Tally(jobs, c, fate, id) + One(Counts(job, c, fate, id))
  {
  }

  lemma {:induction false} UpdateJob(jobs: seq<Job>, j: nat, job: Job, c: nat, fate: Fate, id: string)
    requires j < |jobs|
    ensures Tally(jobs[j := job], c, fate, id)
         == Tally(jobs, c, fate, id) - One(Counts(jobs[j], c, fate, id)) + One(Counts(job, c, fate, id))
    decreases |jobs|
  {
    var n := |jobs| - 1;
    if j == n {
      assert jobs[j := job][..n] == jobs[..n];
    } else {
      UpdateJob(jobs[..n], j, job, c, fate, id);
      assert jobs[j := job][..n] == jobs[..n][j := job];
    }
  }

  lemma {:induction false} NoJobs(jobs: seq<Job>, c: nat, fate: Fate, id: string)
    requires forall j :: 0 <= j < |jobs| ==> jobs[j].conn < c
    ensures Tally(jobs, c, fate, id) == 0
    decreases |jobs|
  {
    if jobs != [] {
      NoJobs(jobs[..|jobs| - 1], c, fate, id);
    }
  }

  // ---- the invariant ----

  function Frames(encode: Encoding, rs: seq<Envelope>): Bytes {
    if rs == [] then [] else Frames(encode, rs[..|rs| - 1]) + encode(rs[|rs| - 1])
  }

  /** The bytes of the frame a connection's current writer has sent so far. */
  function Unfinished(encode: Encoding, jobs: seq<Job>, lock: Option<nat>, c: nat): Bytes {
    if lock.Some? && lock.value < |jobs| && jobs[lock.value].conn == c && jobs[lock.value].phase.Writing?
       && jobs[lock.value].phase.sent <= |encode(jobs[lock.value].phase.response)|
    then encode(jobs[lock.value].phase.response)[..jobs[lock.value].phase.sent]
    else []
  }

  function CutBytes(encode: Encoding, cut: Option<Cut>): Bytes {
    if cut.Some? && cut.value.sent <= |encode(cut.value.response)|
    then encode(cut.value.response)[..cut.value.sent]
    else []
  }

  /** A dispatcher belongs to a connection, answers its own request, and is inside WriteJSON only with the lock. */
  predicate JobInv(encode: Encoding, conns: nat, lock: Option<nat>, job: Job, j: nat) {
    && job.conn < conns
    && (!job.phase.Handling? ==> job.phase.response.id == job.request.id)
    && (job.phase.Writing? <==> lock == Some(j))
    && (job.phase.Writing? ==> job.phase.sent <= |encode(job.phase.response)|)
  }

  /** The stream is whole frames, then at most one frame cut short or still being written. */
  predicate StreamInv(encode: Encoding, conn: Conn, unfinished: Bytes) {
    && conn.stream == Frames(encode, conn.answered) + CutBytes(encode, conn.cut) + unfinished
    && (conn.cut.Some? ==> unfinished == [] && conn.cut.value.sent <= |encode(conn.cut.value.response)|)
  }

  /** Every request read is in flight, answered or lost; the answers on the wire are those answered. */
  predicate AccountInv(conn: Conn, jobs: seq<Job>, c: nat, id: string) {
    && multiset(conn.received)[id] == Tally(jobs, c, InFlight, id) + Tally(jobs, c, Answered, id)
        + Tally(jobs, c, Lost, id)
    && multiset(ResponseIds(conn.answered))[id] == Tally(jobs, c, Answered, id)
    && (conn.cut.Some? && conn.cut.value.response.id == id ==> Tally(jobs, c, Lost, id) > 0)
  }

  ghost predicate AccountsInv(conn: Conn, jobs: seq<Job>, c: nat) {
    forall id :: AccountInv(conn, jobs, c, id)
  }

  ghost predicate ConnInv(encode: Encoding, conn: Conn, jobs: seq<Job>, lock: Option<nat>, c: nat) {
    && StreamInv(encode, conn, Unfinished(encode, jobs, lock, c))
    && AccountsInv(conn, jobs, c)
  }

  ghost predicate Inv(encode: Encoding, s: State) {
    && (s.reader.Some? ==> s.reader.value < |s.conns|)
    && (s.lock.Some? ==> s.lock.value < |s.jobs|)
    && (forall j :: 0 <= j < |s.jobs| ==> JobInv(encode, |s.conns|, s.lock, s.jobs[j], j))
    && (forall c :: 0 <= c < |s.conns| ==> ConnInv(encode, s.conns[c], s.jobs, s.lock, c))
  }

  // ---- every step keeps it ----

  lemma FramesAppend(encode: Encoding, rs: seq<Envelope>, r: Envelope)
    ensures Frames(encode, rs + [r]) == Frames(encode, rs) + encode(r)
    ensures multiset(ResponseIds(rs + [r])) == multiset(ResponseIds(rs)) + multiset{r.id}
  {
    assert (rs + [r])[..|rs|] == rs;
    assert ResponseIds(rs + [r]) == ResponseIds(rs) + [r.id];
  }

  lemma ConnectKeeps(encode: Encoding, s: State)
    requires Inv(encode, s) && Enabled(encode, s, Connect)
    ensures Inv(encode, Apply(encode, s, Connect))
  {
    var c := |s.conns|;
    forall id ensures AccountInv(Conn([], [], [], None, false), s.jobs, c, id) {
      NoJobs(s.jobs, c, InFlight, id);
      NoJobs(s.jobs, c, Answered, id);
      NoJobs(s.jobs, c, Lost, id);
    }
  }

  lemma ReadKeepsConn(encode: Encoding, conn: Conn, jobs: seq<Job>, lock: Option<nat>, c: nat, job: Job)
    requires ConnInv(encode, conn, jobs, lock, c) && job.phase.Handling? && (lock.Some? ==> lock.value < |jobs|)
    ensures ConnInv(encode, if job.conn == c then conn.(received := conn.received + [job.request.id])
        else conn, jobs + [job], lock, c)
  {
    var conn' := if job.conn == c then conn.(received := conn.received + [job.request.id]) else conn;
    forall id ensures AccountInv(conn', jobs + [job], c, id) {
      assert AccountInv(conn, jobs, c, id);
      AddJob(jobs, job, c, InFlight, id);
      AddJob(jobs, job, c, Answered, id);
      AddJob(jobs, job, c, Lost, id);
    }
  }

  lemma ReadKeeps(encode: Encoding, s: State, request: Envelope)
    requires Inv(encode, s) && Enabled(encode, s, Read(request))
    ensures Inv(encode, Apply(encode, s, Read(request)))
  {
    var s' := Apply(encode, s, Read(request));
    forall c | 0 <= c < |s.conns| ensures ConnInv(encode, s'.conns[c], s'.jobs, s'.lock, c) {
      ReadKeepsConn(encode, s.conns[c], s.jobs, s.lock, c, Job(s.reader.value, request, Handling));
    }
  }

  /** Closing a connection, for whatever reason, touches neither its stream nor any dispatcher. */
  lemma CloseKeeps(encode: Encoding, s: State, c: nat, reader: Option<nat>)
    requires Inv(encode, s) && c < |s.conns| && (reader.Some? ==> reader == s.reader)
    ensures Inv(encode, s.(conns := s.conns[c := s.conns[c].(closed := true)], reader := reader))
  {
    var s' := s.(conns := s.conns[c := s.conns[c].(closed := true)], reader := reader);
    forall k | 0 <= k < |s.conns| ensures ConnInv(encode, s'.conns[k], s.jobs, s.lock, k) {
      assert ConnInv(encode, s.conns[k], s.jobs, s.lock, k);
      forall id ensures AccountInv(s'.conns[k], s.jobs, k, id) {
        assert AccountInv(s.conns[k], s.jobs, k, id);
      }
    }
  }

  /** What a phase change of job `j` does to the account of one connection. */
  lemma AccountAfter(jobs: seq<Job>, j: nat, p: Phase, c: nat, id: string)
    requires j < |jobs|
    ensures var jobs' := jobs[j := jobs[j].(phase := p)];
      forall fate :: Tally(jobs', c, fate, id) == Tally(jobs, c, fate, id)
        - One(Counts(jobs[j], c, fate, id)) + One(Counts(jobs'[j], c, fate, id))
  {
    forall fate ensures Tally(jobs[j := jobs[j].(phase := p)], c, fate, id) == Tally(jobs, c, fate, id)
        - One(Counts(jobs[j], c, fate, id)) + One(Counts(jobs[j].(phase := p), c, fate, id)) {
      UpdateJob(jobs, j, jobs[j].(phase := p), c, fate, id);
    }
  }

  /** A dispatcher that gets ready, or gets the lock, leaves all connections as they are. */
  lemma PhaseKeeps(encode: Encoding, s: State, j: nat, p: Phase, lock: Option<nat>)
    requires Inv(encode, s) && j < |s.jobs| && FateOf(s.jobs[j].phase) == FateOf(p) == InFlight
        && !s.jobs[j].phase.Writing?
    requires !p.Handling? && p.response.id == s.jobs[j].request.id
    requires if p.Writing? then s.lock.None? && p.sent == 0 && lock == Some(j) else lock == s.lock
    ensures Inv(encode, SetPhase(s, j, p).(lock := lock))
  {
    var s' := SetPhase(s, j, p).(lock := lock);
    forall c | 0 <= c < |s.conns| ensures ConnInv(encode, s'.conns[c], s'.jobs, s'.lock, c) {
      assert ConnInv(encode, s.conns[c], s.jobs, s.lock, c);
      assert Unfinished(encode, s'.jobs, s'.lock, c) == Unfinished(encode, s.jobs, s.lock, c);
      forall id ensures AccountInv(s'.conns[c], s'.jobs, c, id) {
        assert AccountInv(s.conns[c], s.jobs, c, id);
        AccountAfter(s.jobs, j, p, c, id);
      }
    }
  }

  /** What the lock holder does on its own connection does not concern the others. */
  lemma OtherConnKeeps(encode: Encoding, conn: Conn, jobs: seq<Job>, j: nat, p: Phase, lock: Option<nat>, c: nat)
    requires ConnInv(encode, conn, jobs, Some(j), c) && j < |jobs| && jobs[j].conn != c
    requires lock == Some(j) || lock.None?
    ensures ConnInv(encode, conn, jobs[j := jobs[j].(phase := p)], lock, c)
  {
    var jobs' := jobs[j := jobs[j].(phase := p)];
    forall id ensures AccountInv(conn, jobs', c, id) {
      assert AccountInv(conn, jobs, c, id);
      AccountAfter(jobs, j, p, c, id);
    }
  }

  /** The account of the connection job `j` writes to, before and after it meets its fate. */
  lemma AccountMoves(conn: Conn, conn': Conn, jobs: seq<Job>, j: nat, p: Phase, c: nat)
    requires j < |jobs| && jobs[j].conn == c && FateOf(jobs[j].phase) == InFlight && conn'.received == conn.received
    requires AccountsInv(conn, jobs, c)
    requires if FateOf(p) == Answered
      then
        && conn'.cut == conn.cut
        && multiset(ResponseIds(conn'.answered)) == multiset(ResponseIds(conn.answered)) + multiset{jobs[j].request.id}
      else conn'.answered == conn.answered
    requires conn'.cut == conn.cut ||
      (FateOf(p) == Lost && conn'.cut.Some? && conn'.cut.value.response.id == jobs[j].request.id)
    ensures AccountsInv(conn', jobs[j := jobs[j].(phase := p)], c)
  {
    var jobs' := jobs[j := jobs[j].(phase := p)];
    forall id ensures AccountInv(conn', jobs', c, id) {
      assert AccountInv(conn, jobs, c, id);
      AccountAfter(jobs, j, p, c, id);
    }
  }

  /** The lock holder writes some more of its frame. */
  lemma SendConn(encode: Encoding, conn: Conn, jobs: seq<Job>, j: nat, n: nat, c: nat)
    requires ConnInv(encode, conn, jobs, Some(j), c) && j < |jobs| && jobs[j].conn == c
    requires jobs[j].phase.Writing? && conn.cut.None? && jobs[j].phase.sent + n <= |encode(jobs[j].phase.response)|
    ensures var (response, sent) := (jobs[j].phase.response, jobs[j].phase.sent);
      ConnInv(encode, conn.(stream := conn.stream + encode(response)[sent..sent + n]),
              jobs[j := jobs[j].(phase := Writing(response, sent + n))], Some(j), c)
  {
    var (response, sent) := (jobs[j].phase.response, jobs[j].phase.sent);
    var frame, jobs' := encode(response), jobs[j := jobs[j].(phase := Writing(response, sent + n))];
    var conn' := conn.(stream := conn.stream + frame[sent..sent + n]);
    NextPart(Frames(encode, conn.answered), frame, sent, n);
    assert Unfinished(encode, jobs, Some(j), c) == frame[..sent]
        && Unfinished(encode, jobs', Some(j), c) == frame[..sent + n];
    AccountMoves(conn, conn', jobs, j, Writing(response, sent + n), c);
  }

  lemma NextPart(frames: Bytes, frame: Bytes, sent: nat, n: nat)
    requires sent + n <= |frame|
    ensures (frames + [] + frame[..sent]) + frame[sent..sent + n] == frames + [] + frame[..sent + n]
  {
  }

  lemma NextFrame(frames: Bytes, frame: Bytes)
    ensures frames + [] + frame == frames + frame + [] + []
  {
  }

  lemma NothingAfter(frames: Bytes, cut: Bytes)
    ensures frames + [] + cut == frames + cut + []
  {
  }

  /** A frame written to its end joins the whole frames of its connection. */
  lemma FinishConn(encode: Encoding, conn: Conn, jobs: seq<Job>, j: nat, c: nat)
    requires ConnInv(encode, conn, jobs, Some(j), c) && j < |jobs| && jobs[j].conn == c && jobs[j].phase.Writing?
    requires 0 < jobs[j].phase.sent == |encode(jobs[j].phase.response)|
        && jobs[j].phase.response.id == jobs[j].request.id
    ensures var response := jobs[j].phase.response;
      ConnInv(encode, conn.(answered := conn.answered + [response]), jobs[j := jobs[j].(phase := Done(response))],
          None, c)
  {
    var response := jobs[j].phase.response;
    var frame, jobs' := encode(response), jobs[j := jobs[j].(phase := Done(response))];
    var conn' := conn.(answered := conn.answered + [response]);
    assert Unfinished(encode, jobs, Some(j), c) == frame[..|frame|] == frame;
    FramesAppend(encode, conn.answered, response);
    assert Unfinished(encode, jobs', None, c) == [];
    NextFrame(Frames(encode, conn.answered), frame);
    AccountMoves(conn, conn', jobs, j, Done(response), c);
  }

  /** A failed write leaves its frame cut short, and nothing follows it. */
  lemma FailConn(encode: Encoding, conn: Conn, jobs: seq<Job>, j: nat, c: nat)
    requires ConnInv(encode, conn, jobs, Some(j), c) && j < |jobs| && jobs[j].conn == c && jobs[j].phase.Writing?
    requires jobs[j].phase.sent <= |encode(jobs[j].phase.response)| && jobs[j].phase.response.id == jobs[j].request.id
    ensures var (response, sent) := (jobs[j].phase.response, jobs[j].phase.sent);
      var cut := if conn.cut.Some? then conn.cut else Some(Cut(response, sent));
      ConnInv(encode, conn.(cut := cut), jobs[j := jobs[j].(phase := Failed(response))], None, c)
  {
    var (response, sent) := (jobs[j].phase.response, jobs[j].phase.sent);
    var jobs' := jobs[j := jobs[j].(phase := Failed(response))];
    var conn' := conn.(cut := if conn.cut.Some? then conn.cut else Some(Cut(response, sent)));
    assert Unfinished(encode, jobs, Some(j), c) == encode(response)[..sent];
    assert Unfinished(encode, jobs', None, c) == [];
    NothingAfter(Frames(encode, conn.answered), CutBytes(encode, conn'.cut));
    AccountMoves(conn, conn', jobs, j, Failed(response), c);
  }

  lemma WriterKeeps(encode: Encoding, s: State, j: nat, p: Phase, lock: Option<nat>, conn: Conn)
    requires Inv(encode, s) && j < |s.jobs| && s.lock == Some(j) && s.jobs[j].phase.Writing?
        && s.jobs[j].conn < |s.conns|
    requires !p.Handling? && p.response.id == s.jobs[j].request.id
    requires if p.Writing? then p.sent <= |encode(p.response)| && lock == Some(j) else lock.None?
    requires ConnInv(encode, conn, s.jobs[j := s.jobs[j].(phase := p)], lock, s.jobs[j].conn)
    ensures Inv(encode, SetPhase(s, j, p).(conns := s.conns[s.jobs[j].conn := conn], lock := lock))
  {
    var s' := SetPhase(s, j, p).(conns := s.conns[s.jobs[j].conn := conn], lock := lock);
    forall c | 0 <= c < |s.conns| ensures ConnInv(encode, s'.conns[c], s'.jobs, s'.lock, c) {
      if c != s.jobs[j].conn {
        OtherConnKeeps(encode, s.conns[c], s.jobs, j, p, lock, c);
      }
    }
  }

  lemma SendKeeps(encode: Encoding, s: State, j: nat, n: nat)
    requires Inv(encode, s) && Enabled(encode, s, Send(j, n))
    ensures Inv(encode, Apply(encode, s, Send(j, n)))
  {
    var (c, response, sent) := (s.jobs[j].conn, s.jobs[j].phase.response, s.jobs[j].phase.sent);
    assert JobInv(encode, |s.conns|, s.lock, s.jobs[j], j);
    SendConn(encode, s.conns[c], s.jobs, j, n, c);
    WriterKeeps(encode, s, j, Writing(response, sent + n), s.lock,
        s.conns[c].(stream := s.conns[c].stream + encode(response)[sent..sent + n]));
  }

  lemma FinishKeeps(encode: Encoding, s: State, j: nat)
    requires Framed(encode) && Inv(encode, s) && Enabled(encode, s, Finish(j))
    ensures Inv(encode, Apply(encode, s, Finish(j)))
  {
    var (c, response) := (s.jobs[j].conn, s.jobs[j].phase.response);
    assert JobInv(encode, |s.conns|, s.lock, s.jobs[j], j);
    FinishConn(encode, s.conns[c], s.jobs, j, c);
    WriterKeeps(encode, s, j, Done(response), None, s.conns[c].(answered := s.conns[c].answered + [response]));
  }

  lemma FailKeeps(encode: Encoding, s: State, j: nat)
    requires Inv(encode, s) && Enabled(encode, s, Fail(j))
    ensures Inv(encode, Apply(encode, s, Fail(j)))
  {
    var (c, response, sent) := (s.jobs[j].conn, s.jobs[j].phase.response, s.jobs[j].phase.sent);
    assert JobInv(encode, |s.conns|, s.lock, s.jobs[j], j);
    FailConn(encode, s.conns[c], s.jobs, j, c);
    var cut := if s.conns[c].cut.Some? then s.conns[c].cut else Some(Cut(response, sent));
    WriterKeeps(encode, s, j, Failed(response), None, s.conns[c].(cut := cut));
  }

  lemma StepKeeps(encode: Encoding, s: State, l: Label)
    requires Framed(encode) && Inv(encode, s) && Enabled(encode, s, l)
    ensures Inv(encode, Apply(encode, s, l))
  {
    match l
    case Connect => ConnectKeeps(encode, s);
    case Read(request) => ReadKeeps(encode, s, request);
    case EndRead => CloseKeeps(encode, s, s.reader.value, None);
    case Handle(j, outcome) => PhaseKeeps(encode, s, j, Ready(ResponseFor(s.jobs[j].request, outcome)), s.lock);
    case Lock(j) =>
      assert JobInv(encode, |s.conns|, s.lock, s.jobs[j], j);
      PhaseKeeps(encode, s, j, Writing(s.jobs[j].phase.response, 0), Some(j));
    case Send(j, n) => SendKeeps(encode, s, j, n);
    case Finish(j) => FinishKeeps(encode, s, j);
    case Fail(j) => FailKeeps(encode, s, j);
    case Close(c) => CloseKeeps(encode, s, c, s.reader);
  }

  lemma {:induction false} RunKeeps(encode: Encoding, labels: seq<Label>)
    requires Framed(encode) && Run(encode, labels).Some?
    ensures Inv(encode, Run(encode, labels).value)
    decreases |labels|
  {
    if labels != [] {
      var n := |labels| - 1;
      RunKeeps(encode, labels[..n]);
      StepKeeps(encode, Run(encode, labels[..n]).value, labels[n]);
    }
  }

  // ---- what holds after every run ----

  /** At most one dispatcher is inside WriteJSON, whatever connection it writes to. */
  lemma OneWriterAtATime(encode: Encoding, labels: seq<Label>, i: nat, j: nat)
    requires Framed(encode) && Run(encode, labels).Some?
    requires var s := Run(encode, labels).value;
      i < |s.jobs| && j < |s.jobs| && s.jobs[i].phase.Writing? && s.jobs[j].phase.Writing?
    ensures i == j
  {
    RunKeeps(encode, labels);
    var s := Run(encode, labels).value;
    assert JobInv(encode, |s.conns|, s.lock, s.jobs[i], i);
  }

  /**
   Frames never interleave: every connection's bytes are whole frames in the order in which the
   writes finished, then nothing, the lock holder's unfinished frame, or one cut short by a failure.
   */
  lemma FramesStayWhole(encode: Encoding, labels: seq<Label>, c: nat)
    requires Framed(encode) && Run(encode, labels).Some? && c < |Run(encode, labels).value.conns|
    ensures var s := Run(encode, labels).value;
      var (conn, whole) := (s.conns[c], Frames(encode, s.conns[c].answered));
      if conn.cut.Some? then
        && conn.cut.value.sent <= |encode(conn.cut.value.response)|
        && conn.stream == whole + encode(conn.cut.value.response)[..conn.cut.value.sent]
      else if s.lock.Some? && s.lock.value < |s.jobs| && s.jobs[s.lock.value].conn == c then
        && s.jobs[s.lock.value].phase.Writing?
        && s.jobs[s.lock.value].phase.sent <= |encode(s.jobs[s.lock.value].phase.response)|
        && conn.stream == whole + encode(s.jobs[s.lock.value].phase.response)[..s.jobs[s.lock.value].phase.sent]
      else conn.stream == whole
  {
    RunKeeps(encode, labels);
    var s := Run(encode, labels).value;
    assert ConnInv(encode, s.conns[c], s.jobs, s.lock, c);
    if s.lock.Some? {
      assert JobInv(encode, |s.conns|, s.lock, s.jobs[s.lock.value], s.lock.value);
    }
    DropEmpty(Frames(encode, s.conns[c].answered), CutBytes(encode, s.conns[c].cut));
    DropEmpty(Frames(encode, s.conns[c].answered), Unfinished(encode, s.jobs, s.lock, c));
  }

  lemma DropEmpty(frames: Bytes, part: Bytes)
    ensures frames + part + [] == frames + part == frames + [] + part
    ensures frames + [] + [] == frames
  {
  }

  /** The response of a frame that is all on the wire although its write has not ended: it failed or goes on. */
  function Complete(encode: Encoding, response: Envelope, sent: nat): seq<Envelope> {
    if sent == |encode(response)| then [response] else []
  }

  function LateFrame(encode: Encoding, cut: Option<Cut>): seq<Envelope> {
    if cut.Some? then Complete(encode, cut.value.response, cut.value.sent) else []
  }

  function WriterFrame(encode: Encoding, jobs: seq<Job>, lock: Option<nat>, c: nat): seq<Envelope> {
    if lock.Some? && lock.value < |jobs| && jobs[lock.value].conn == c && jobs[lock.value].phase.Writing?
    then Complete(encode, jobs[lock.value].phase.response, jobs[lock.value].phase.sent)
    else []
  }

  /** The responses whose whole frame is on the wire. */
  function OnWire(encode: Encoding, s: State, c: nat): seq<Envelope>
    requires c < |s.conns|
  {
    s.conns[c].answered + LateFrame(encode, s.conns[c].cut) + WriterFrame(encode, s.jobs, s.lock, c)
  }

  lemma {:induction false} Counted(jobs: seq<Job>, j: nat, c: nat, fate: Fate, id: string)
    requires j < |jobs| && Counts(jobs[j], c, fate, id)
    ensures Tally(jobs, c, fate, id) > 0
    decreases |jobs|
  {
    if j < |jobs| - 1 {
      Counted(jobs[..|jobs| - 1], j, c, fate, id);
    }
  }

  /** No request is answered twice, and none is answered on another connection than it came from. */
  lemma AnswersWithinRequests(encode: Encoding, labels: seq<Label>, c: nat)
    requires Framed(encode) && Run(encode, labels).Some? && c < |Run(encode, labels).value.conns|
    ensures var s := Run(encode, labels).value;
      multiset(ResponseIds(OnWire(encode, s, c))) <= multiset(s.conns[c].received)
  {
    RunKeeps(encode, labels);
    var s := Run(encode, labels).value;
    var conn := s.conns[c];
    assert ConnInv(encode, conn, s.jobs, s.lock, c);
    IdsOnWire(conn.answered, LateFrame(encode, conn.cut), WriterFrame(encode, s.jobs, s.lock, c));
    forall id ensures multiset(ResponseIds(OnWire(encode, s, c)))[id] <= multiset(conn.received)[id] {
      assert AccountInv(conn, s.jobs, c, id);
      LateFrameLost(encode, conn, s.jobs, c, id);
      WriterFrameInFlight(encode, s, c, id);
    }
  }

  lemma IdsOnWire(a: seq<Envelope>, b: seq<Envelope>, d: seq<Envelope>)
    ensures multiset(ResponseIds(a + b + d)) == multiset(ResponseIds(a)) + multiset(ResponseIds(b))
        + multiset(ResponseIds(d))
  {
    assert ResponseIds(a + b + d) == ResponseIds(a) + ResponseIds(b) + ResponseIds(d);
  }

  lemma LateFrameLost(encode: Encoding, conn: Conn, jobs: seq<Job>, c: nat, id: string)
    requires AccountInv(conn, jobs, c, id)
    ensures multiset(ResponseIds(LateFrame(encode, conn.cut)))[id] <= Tally(jobs, c, Lost, id)
  {
    if LateFrame(encode, conn.cut) != [] {
      assert ResponseIds(LateFrame(encode, conn.cut)) == [conn.cut.value.response.id];
    }
  }

  lemma WriterFrameInFlight(encode: Encoding, s: State, c: nat, id: string)
    requires Inv(encode, s) && c < |s.conns|
    ensures multiset(ResponseIds(WriterFrame(encode, s.jobs, s.lock, c)))[id] <= Tally(s.jobs, c, InFlight, id)
  {
    if WriterFrame(encode, s.jobs, s.lock, c) != [] {
      var j := s.lock.value;
      assert JobInv(encode, |s.conns|, s.lock, s.jobs[j], j);
      assert ResponseIds(WriterFrame(encode, s.jobs, s.lock, c)) == [s.jobs[j].phase.response.id];
      if s.jobs[j].request.id == id {
        Counted(s.jobs, j, c, InFlight, id);
      }
    }
  }

  // ---- what the answers say ----

  /** The response is the one to the request of dispatcher `j`, as its handler ended. */
  predicate FromJob(s: State, c: nat, r: Envelope, j: nat) {
    && j < |s.jobs| && s.jobs[j].conn == c && s.jobs[j].request.kind == "request"
    && j in s.outcomes && r == ResponseFor(s.jobs[j].request, s.outcomes[j])
  }

  predicate FromSomeJob(s: State, c: nat, r: Envelope) { exists j: nat :: j < |s.jobs| && FromJob(s, c, r, j) }

  predicate JobTells(s: State, j: nat)
    requires j < |s.jobs|
  {
    && s.jobs[j].request.kind == "request"
    && (s.jobs[j].phase.Handling? ==> j !in s.outcomes)
    && (!s.jobs[j].phase.Handling? ==>
          j in s.outcomes && s.jobs[j].phase.response == ResponseFor(s.jobs[j].request, s.outcomes[j]))
  }

  predicate ConnTells(s: State, c: nat)
    requires c < |s.conns|
  {
    && (forall k :: 0 <= k < |s.conns[c].answered| ==> FromSomeJob(s, c, s.conns[c].answered[k]))
    && (s.conns[c].cut.Some? ==> FromSomeJob(s, c, s.conns[c].cut.value.response))
  }

  predicate Tells(s: State) {
    && (forall j :: j in s.outcomes ==> j < |s.jobs|)
    && (forall j :: 0 <= j < |s.jobs| ==> JobTells(s, j))
    && (forall c :: 0 <= c < |s.conns| ==> ConnTells(s, c))
  }

  lemma JobTellsOf(s: State, j: nat)
    requires Tells(s) && j < |s.jobs| && !s.jobs[j].phase.Handling?
    ensures FromJob(s, s.jobs[j].conn, s.jobs[j].phase.response, j)
  {
    assert JobTells(s, j);
  }

  /** Requests, connections and outcomes of dispatchers never change once they are there. */
  lemma FromJobStays(encode: Encoding, s: State, l: Label, c: nat, r: Envelope)
    requires Tells(s) && Enabled(encode, s, l) && FromSomeJob(s, c, r)
    ensures FromSomeJob(Apply(encode, s, l), c, r)
  {
    var j: nat :| j < |s.jobs| && FromJob(s, c, r, j);
    assert JobTells(s, j);
    assert FromJob(Apply(encode, s, l), c, r, j);
  }

  lemma JobTellsAfter(encode: Encoding, s: State, l: Label, j: nat)
    requires Tells(s) && Enabled(encode, s, l) && j < |Apply(encode, s, l).jobs|
    ensures JobTells(Apply(encode, s, l), j)
  {
    if j < |s.jobs| {
      assert JobTells(s, j);
    }
  }

  lemma ConnTellsAfter(encode: Encoding, s: State, l: Label, c: nat)
    requires Tells(s) && Enabled(encode, s, l) && c < |Apply(encode, s, l).conns|
    ensures ConnTells(Apply(encode, s, l), c)
  {
    var s' := Apply(encode, s, l);
    if c < |s.conns| {
      assert ConnTells(s, c);
      if l.Finish? || l.Fail? {
        JobTellsOf(s, l.job);
        assert FromSomeJob(s, s.jobs[l.job].conn, s.jobs[l.job].phase.response);
        FromJobStays(encode, s, l, s.jobs[l.job].conn, s.jobs[l.job].phase.response);
      }
      forall k | 0 <= k < |s'.conns[c].answered| ensures FromSomeJob(s', c, s'.conns[c].answered[k]) {
        if k < |s.conns[c].answered| {
          FromJobStays(encode, s, l, c, s.conns[c].answered[k]);
        }
      }
      if s.conns[c].cut.Some? {
        FromJobStays(encode, s, l, c, s.conns[c].cut.value.response);
      }
    }
  }

  lemma {:induction false} RunTells(encode: Encoding, labels: seq<Label>)
    requires Run(encode, labels).Some?
    ensures Tells(Run(encode, labels).value)
    decreases |labels|
  {
    if labels != [] {
      var n := |labels| - 1;
      RunTells(encode, labels[..n]);
      var s := Run(encode, labels[..n]).value;
      var s' := Apply(encode, s, labels[n]);
      forall j | 0 <= j < |s'.jobs| ensures JobTells(s', j) {
        JobTellsAfter(encode, s, labels[n], j);
      }
      forall c | 0 <= c < |s'.conns| ensures ConnTells(s', c) {
        ConnTellsAfter(encode, s, labels[n], c);
      }
    }
  }

  /**
   Every response on the wire of a connection is the one to a request read from it, as the handler of
   that request ended; and so is the response of every dispatcher that is done.
   */
  lemma AnswersTellOutcomes(encode: Encoding, labels: seq<Label>, c: nat, r: Envelope)
    requires Framed(encode) && Run(encode, labels).Some? && c < |Run(encode, labels).value.conns|
    requires r in OnWire(encode, Run(encode, labels).value, c)
    ensures FromSomeJob(Run(encode, labels).value, c, r)
    ensures r.id in Run(encode, labels).value.conns[c].received
  {
    AnswersWithinRequests(encode, labels, c);
    IdOfMember(OnWire(encode, Run(encode, labels).value, c), r);
    RunTells(encode, labels);
    var s := Run(encode, labels).value;
    assert ConnTells(s, c);
    if r in WriterFrame(encode, s.jobs, s.lock, c) {
      JobTellsOf(s, s.lock.value);
    }
  }

  lemma IdOfMember(rs: seq<Envelope>, r: Envelope)
    requires r in rs
    ensures r.id in multiset(ResponseIds(rs))
  {
    var k :| 0 <= k < |rs| && rs[k] == r;
    assert ResponseIds(rs)[k] == r.id;
  }

  lemma DoneTellsOutcome(encode: Encoding, labels: seq<Label>, j: nat)
    requires Run(encode, labels).Some? && j < |Run(encode, labels).value.jobs|
    requires Run(encode, labels).value.jobs[j].phase.Done?
    ensures var s := Run(encode, labels).value;
      j in s.outcomes && s.jobs[j].phase.response == ResponseFor(s.jobs[j].request, s.outcomes[j])
  {
    RunTells(encode, labels);
    JobTellsOf(Run(encode, labels).value, j);
  }

  // ---- how many there are ----

  /** Every request is in flight, answered or lost: the three numbers add up for every ID. */
  lemma EveryRequestAccountedFor(encode: Encoding, labels: seq<Label>, c: nat, id: string)
    requires Framed(encode) && Run(encode, labels).Some? && c < |Run(encode, labels).value.conns|
    ensures var s := Run(encode, labels).value;
      multiset(s.conns[c].received)[id]
        == Tally(s.jobs, c, InFlight, id) + multiset(ResponseIds(s.conns[c].answered))[id] + Tally(s.jobs, c, Lost, id)
  {
    RunKeeps(encode, labels);
    var s := Run(encode, labels).value;
    assert ConnInv(encode, s.conns[c], s.jobs, s.lock, c);
    assert AccountInv(s.conns[c], s.jobs, c, id);
  }

  /** Once every dispatcher is done and no write failed, each request has exactly one answer. */
  lemma QuiescentAnswersAll(encode: Encoding, labels: seq<Label>, c: nat)
    requires Framed(encode) && Run(encode, labels).Some? && c < |Run(encode, labels).value.conns|
    requires var s := Run(encode, labels).value;
      forall j :: 0 <= j < |s.jobs| && s.jobs[j].conn == c ==> s.jobs[j].phase.Done?
    ensures var conn := Run(encode, labels).value.conns[c];
      multiset(ResponseIds(conn.answered)) == multiset(conn.received)
  {
    var s := Run(encode, labels).value;
    forall id ensures multiset(ResponseIds(s.conns[c].answered))[id] == multiset(s.conns[c].received)[id] {
      EveryRequestAccountedFor(encode, labels, c, id);
      OnlyDone(s.jobs, c, InFlight, id);
      OnlyDone(s.jobs, c, Lost, id);
    }
  }

  lemma {:induction false} OnlyDone(jobs: seq<Job>, c: nat, fate: Fate, id: string)
    requires forall j :: 0 <= j < |jobs| && jobs[j].conn == c ==> jobs[j].phase.Done?
    requires fate != Answered
    ensures Tally(jobs, c, fate, id) == 0
    decreases |jobs|
  {
    if jobs != [] {
      OnlyDone(jobs[..|jobs| - 1], c, fate, id);
    }
  }
}
