/**
 The reconnect loop (tunnel/internal/client.go, Run) and the loop around it (tunnel/cmd/main.go).
 What the world does is given up front, as functions of the attempt; time is in nanoseconds.
 */
module Reconnect {
  import opened Wrappers

  const SECOND := 1_000_000_000
  const MAX_BACKOFF := 30 * SECOND
  const RESTART_PAUSE := 100_000_000

  function NextBackoff(current: int): int {
    if current >= MAX_BACKOFF then MAX_BACKOFF
    else if current * 2 > MAX_BACKOFF then MAX_BACKOFF
    else current * 2
  }

  const TERMINAL_REASONS := {
    "not_staked", "invalid_signature", "address_mismatch", "invalid_address",
    "missing_authentication", "missing_robot_id", "robot_id_in_use"
  }

  /** handshakeRejection: a refusal without a reason code is judged by its status. */
  predicate IsTerminal(status: int, reason: string) {
    if reason == "" then status in {400, 401, 403, 409} else reason in TERMINAL_REASONS
  }

  /** How one call of dial ends. */
  datatype Dial =
    | NoNonce
    | NotSigned(nonce: string)
    | NoResponse(nonce: string)
    | Refused(nonce: string, status: int, reason: string)
    | Connected(nonce: string)

  datatype Event =
    | Fetched(nonce: string)
    | Handshake(nonce: string)
    | Up
    | Down
    | Slept(duration: int)
    | Interrupted(duration: int)
    | Fatal(status: int, reason: string)

  /** What dial does before its outcome is known: each call fetches a nonce of its own. */
  function Attempt(d: Dial): seq<Event> {
    match d
    case NoNonce => []
    case NotSigned(nonce) => [Fetched(nonce)]
    case NoResponse(nonce) => [Fetched(nonce), Handshake(nonce)]
    case Refused(nonce, _, _) => [Fetched(nonce), Handshake(nonce)]
    case Connected(nonce) => [Fetched(nonce), Handshake(nonce)]
  }

  /**
   When the context is cancelled, how each attempt goes, how long it takes, how long a connection
   then lasts, and which of timer and cancellation wins when both are due.
   */
  datatype World = World(cancelAt: nat, dial: nat -> Dial, dialTime: nat -> nat, alive: nat -> nat, timerFirst: bool)

  /** Returned to the caller, or the process exited. */
  datatype Exit = Returned | Exited

  datatype Trace = Trace(events: seq<Event>, clock: nat, attempts: nat, exit: Exit)

  /** A dial takes some time, however little. */
  function DialDone(w: World, i: nat, clock: nat): nat { clock + 1 + w.dialTime(i) }

  /** sleepWithContext. */
  predicate SleepCompletes(w: World, t: nat, backoff: nat) {
    t + backoff < w.cancelAt || (t + backoff == w.cancelAt && w.timerFirst)
  }

  /** The read loop ends with its connection, which cancellation closes. */
  function ConnectionDown(w: World, i: nat, t: nat): nat {
    if t + w.alive(i) <= w.cancelAt then t + w.alive(i) else if t <= w.cancelAt then w.cancelAt else t
  }

  function Before(events: seq<Event>, rest: Trace): Trace { rest.(events := events + rest.events) }

  /** One turn of the loop: the run is over, or it goes on with a time and a backoff. */
  datatype Turn = Over(trace: Trace) | Again(events: seq<Event>, clock: nat, backoff: nat)

  function TurnOf(w: World, i: nat, clock: nat, backoff: nat): (turn: Turn)
    ensures if turn.Over? then turn.trace.clock >= clock else clock < w.cancelAt && turn.clock > clock
  {
    var d, t := w.dial(i), DialDone(w, i, clock);
    if clock >= w.cancelAt then Over(Trace([], clock, i, Returned))
    else if d.Connected? then Again(Attempt(d) + [Up, Down], ConnectionDown(w, i, t), SECOND)
    else if d.Refused? && IsTerminal(d.status, d.reason) then
      Over(Trace(Attempt(d) + [Fatal(d.status, d.reason)], t, i + 1, Exited))
    else if SleepCompletes(w, t, backoff) then Again(Attempt(d) + [Slept(backoff)], t + backoff, NextBackoff(backoff))
    else Over(Trace(Attempt(d) + [Interrupted(backoff)], if t < w.cancelAt then w.cancelAt else t, i + 1, Returned))
  }

  /** The rest of a run from attempt `i` at time `clock`. */
  function RunFrom(w: World, i: nat, clock: nat, backoff: nat): (r: Trace)
    ensures r.clock >= clock
    decreases w.cancelAt - clock
  {
    match TurnOf(w, i, clock, backoff)
    case Over(trace) => trace
    case Again(events, clock', backoff') => Before(events, RunFrom(w, i + 1, clock', backoff'))
  }

  /** Client.Run. */
  method Run(w: World, first: nat, start: nat) returns (r: Trace)
    ensures r == RunFrom(w, first, start, SECOND)
  {
    var backoff: nat := SECOND;
    var clock, i := start, first;
    var events: seq<Event> := [];
    while true
      invariant Before(events, RunFrom(w, i, clock, backoff)) == RunFrom(w, first, start, SECOND)
      decreases w.cancelAt - clock
    {
      ghost var turn := TurnOf(w, i, clock, backoff);
      if clock >= w.cancelAt {
        return Trace(events, clock, i, Returned);
      }
      var d := w.dial(i);
      var t := DialDone(w, i, clock);
      var step := Attempt(d);
      if !d.Connected? {
        if d.Refused? && IsTerminal(d.status, d.reason) {
          return Trace(events + (step + [Fatal(d.status, d.reason)]), t, i + 1, Exited);
        }
        if !SleepCompletes(w, t, backoff) {
          return Trace(events + (step + [Interrupted(backoff)]), if t < w.cancelAt then w.cancelAt
              else t, i + 1, Returned);
        }
        step := step + [Slept(backoff)];
        clock := t + backoff;
        backoff := NextBackoff(backoff);
      } else {
        backoff := SECOND;
        step := step + [Up, Down];
        clock := ConnectionDown(w, i, t);
      }
      assert turn == Again(step, clock, backoff);
      i := i + 1;
      BeforeBefore(events, step, RunFrom(w, i, clock, backoff));
      events := events + step;
    }
  }

  lemma BeforeBefore(a: seq<Event>, b: seq<Event>, rest: Trace)
    ensures Before(a, Before(b, rest)) == Before(a + b, rest)
  {
  }

  // ---- backoff ----

  function Pow2(k: nat): nat { if k == 0 then 1 else 2 * Pow2(k - 1) }

  /** The sleep after the k-th consecutive failure: 2^k seconds, at most 30. */
  function Delay(k: nat): nat { (if Pow2(k) < 30 then Pow2(k) else 30) * SECOND }

  lemma DelayDoubles(k: nat)
    ensures NextBackoff(Delay(k)) == Delay(k + 1)
  {
  }

  predicate IsSleep(e: Event) { e.Slept? || e.Interrupted? }

  /** The failures since the last connection, just before event `p`, if there were `k` at the start. */
  function Streak(events: seq<Event>, p: nat, k: nat): nat
    requires p <= |events|
  {
    if p == 0 then k
    else if events[p - 1].Up? then 0
    else Streak(events, p - 1, k) + (if IsSleep(events[p - 1]) then 1 else 0)
  }

  lemma {:induction false} StreakSplit(a: seq<Event>, b: seq<Event>, p: nat, k: nat)
    requires p <= |b|
    ensures Streak(a + b, |a| + p, k) == Streak(b, p, Streak(a, |a|, k))
  {
    if p == 0 {
      StreakPrefix(a, b, |a|, k);
    } else {
      StreakSplit(a, b, p - 1, k);
    }
  }

  lemma {:induction false} StreakPrefix(a: seq<Event>, b: seq<Event>, p: nat, k: nat)
    requires p <= |a|
    ensures Streak(a + b, p, k) == Streak(a, p, k)
  {
    if p > 0 {
      StreakPrefix(a, b, p - 1, k);
    }
  }

  /** Every sleep is as long as the failures before it ask for. */
  predicate Backoff(events: seq<Event>, k: nat) {
    forall p :: 0 <= p < |events| && IsSleep(events[p]) ==> events[p].duration == Delay(Streak(events, p, k))
  }

  lemma BackoffSplit(a: seq<Event>, b: seq<Event>, k: nat)
    requires Backoff(a, k) && Backoff(b, Streak(a, |a|, k))
    ensures Backoff(a + b, k)
  {
    forall p | 0 <= p < |a + b| && IsSleep((a + b)[p]) ensures (a + b)[p].duration == Delay(Streak(a + b, p, k)) {
      if p < |a| {
        StreakPrefix(a, b, p, k);
      } else {
        StreakSplit(a, b, p - |a|, k);
      }
    }
  }

  lemma AttemptStreak(d: Dial, k: nat)
    ensures Streak(Attempt(d), |Attempt(d)|, k) == k
  {
    var a := Attempt(d);
    if |a| == 2 {
      assert Streak(a, 1, k) == k;
    }
  }

  /** One failed attempt and its sleep. */
  lemma BackoffOfFailure(d: Dial, e: Event, k: nat)
    requires IsSleep(e) && e.duration == Delay(k)
    ensures Backoff(Attempt(d) + [e], k) && Streak(Attempt(d) + [e], |Attempt(d)| + 1, k) == k + 1
  {
    var a := Attempt(d);
    AttemptStreak(d, k);
    StreakPrefix(a, [e], |a|, k);
    assert (a + [e])[|a|] == e;
  }

  /** A connection starts the count anew. */
  lemma BackoffOfConnection(d: Dial, k: nat)
    ensures var a := Attempt(d) + [Up, Down];
      Backoff(a, k) && Streak(a, |a|, k) == 0
  {
  }

  lemma TurnBacksOff(w: World, i: nat, clock: nat, backoff: nat, k: nat)
    requires backoff == Delay(k)
    ensures var turn := TurnOf(w, i, clock, backoff);
      if turn.Over? then Backoff(turn.trace.events, k)
      else Backoff(turn.events, k) && turn.backoff == Delay(Streak(turn.events, |turn.events|, k))
  {
    var d := w.dial(i);
    BackoffOfConnection(d, k);
    BackoffOfFailure(d, Slept(backoff), k);
    BackoffOfFailure(d, Interrupted(backoff), k);
    DelayDoubles(k);
    assert Delay(0) == SECOND;
    if d.Refused? {
      NoSleep(d, k);
    }
  }

  lemma {:induction false} RunBacksOff(w: World, i: nat, clock: nat, backoff: nat, k: nat)
    requires backoff == Delay(k)
    ensures Backoff(RunFrom(w, i, clock, backoff).events, k)
    decreases w.cancelAt - clock
  {
    TurnBacksOff(w, i, clock, backoff, k);
    match TurnOf(w, i, clock, backoff)
    case Over(_) =>
    case Again(events, clock', backoff') =>
      RunBacksOff(w, i + 1, clock', backoff', Streak(events, |events|, k));
      BackoffSplit(events, RunFrom(w, i + 1, clock', backoff').events, k);
  }

  lemma NoSleep(d: Dial, k: nat)
    requires d.Refused?
    ensures Backoff(Attempt(d) + [Fatal(d.status, d.reason)], k)
  {
  }

  // ---- how long a streak of failures sleeps ----

  /** The time n consecutive failures sleep. */
  function TotalDelay(n: nat): nat { if n == 0 then 0 else TotalDelay(n - 1) + Delay(n - 1) }

  function ClosedForm(n: nat): int { (if n <= 5 then Pow2(n) - 1 else 31 + 30 * (n - 5)) * SECOND }

  lemma {:induction false} TotalDelayClosedForm(n: nat)
    ensures TotalDelay(n) == ClosedForm(n)
  {
    if n > 0 {
      TotalDelayClosedForm(n - 1);
      if n > 5 {
        PowerAtLeast32(n - 1);
      }
    }
  }

  lemma {:induction false} PowerAtLeast32(k: nat)
    requires k >= 5
    ensures Pow2(k) >= 32
  {
    if k > 5 {
      PowerAtLeast32(k - 1);
    }
  }

  function SleepCount(events: seq<Event>, a: nat, b: nat): nat
    requires a <= b <= |events|
  {
    if a == b then 0 else SleepCount(events, a, b - 1) + (if IsSleep(events[b - 1]) then 1 else 0)
  }

  function SleepTime(events: seq<Event>, a: nat, b: nat): int
    requires a <= b <= |events|
  {
    if a == b then 0 else SleepTime(events, a, b - 1) + (if IsSleep(events[b - 1]) then events[b - 1].duration else 0)
  }

  /** The sleeps that ran to their end, and the time they took. */
  function SleptCount(events: seq<Event>, a: nat, b: nat): nat
    requires a <= b <= |events|
  {
    if a == b then 0 else SleptCount(events, a, b - 1) + (if events[b - 1].Slept? then 1 else 0)
  }

  function SleptTime(events: seq<Event>, a: nat, b: nat): int
    requires a <= b <= |events|
  {
    if a == b then 0 else SleptTime(events, a, b - 1) + (if events[b - 1].Slept? then events[b - 1].duration else 0)
  }

  /** Only the last sleep of a run can have been interrupted, so that the others are those asked for. */
  lemma {:induction false} SleptIsAsked(events: seq<Event>, a: nat, b: nat)
    requires a <= b <= |events| && forall p :: a <= p < b ==> !events[p].Interrupted?
    ensures SleptCount(events, a, b) == SleepCount(events, a, b) && SleptTime(events, a, b) == SleepTime(events, a, b)
    decreases b
  {
    if a < b {
      SleptIsAsked(events, a, b - 1);
    }
  }

  lemma {:induction false} SleepsSinceUp(events: seq<Event>, a: nat, b: nat)
    requires a <= b <= |events| && Backoff(events, 0)
    requires a == 0 || events[a - 1].Up?
    requires forall p :: a <= p < b ==> !events[p].Up?
    ensures Streak(events, b, 0) == SleepCount(events, a, b)
    ensures SleepTime(events, a, b) == TotalDelay(SleepCount(events, a, b))
    decreases b
  {
    if a < b {
      SleepsSinceUp(events, a, b - 1);
    }
  }

  // ---- refusals, nonces, and the end of a run ----

  /**
   A fatal refusal or an interrupted sleep is the last event, the former terminal; a handshake follows
   the fetch of its own nonce.
   */
  predicate WellFormed(r: Trace) {
    && (forall p :: 0 <= p < |r.events| && r.events[p].Fatal? ==>
          p == |r.events| - 1 && r.exit.Exited? && IsTerminal(r.events[p].status, r.events[p].reason))
    && (forall p :: 0 <= p < |r.events| && r.events[p].Interrupted? ==> p == |r.events| - 1 && r.exit.Returned?)
    && (r.exit.Exited? ==> r.events != [] && r.events[|r.events| - 1].Fatal?)
    && (forall p :: 0 <= p < |r.events| && r.events[p].Handshake? ==>
          p > 0 && r.events[p - 1] == Fetched(r.events[p].nonce))
  }

  predicate Goes(events: seq<Event>) { forall p :: 0 <= p < |events| ==> !events[p].Fatal? && !events[p].Interrupted? }

  lemma WellFormedBefore(a: seq<Event>, rest: Trace)
    requires WellFormed(rest) && WellFormed(Trace(a, 0, 0, Returned)) && Goes(a)
    ensures WellFormed(Before(a, rest))
  {
  }

  /** An attempt that did not end the run so far. */
  lemma AttemptWellFormed(d: Dial, tail: seq<Event>, clock: nat, i: nat)
    requires Goes(tail) && forall p :: 0 <= p < |tail| ==> !tail[p].Handshake?
    ensures Goes(Attempt(d) + tail) && WellFormed(Trace(Attempt(d) + tail, clock, i, Returned))
  {
  }

  lemma InterruptedWellFormed(d: Dial, duration: int, clock: nat, i: nat)
    ensures WellFormed(Trace(Attempt(d) + [Interrupted(duration)], clock, i, Returned))
  {
  }

  lemma FatalWellFormed(d: Dial, clock: nat, i: nat)
    requires d.Refused? && IsTerminal(d.status, d.reason)
    ensures WellFormed(Trace(Attempt(d) + [Fatal(d.status, d.reason)], clock, i, Exited))
  {
  }

  lemma TurnWellFormed(w: World, i: nat, clock: nat, backoff: nat)
    ensures var turn := TurnOf(w, i, clock, backoff);
      if turn.Over? then WellFormed(turn.trace) else Goes(turn.events) && WellFormed(Trace(turn.events, 0, 0, Returned))
  {
    var d, t := w.dial(i), DialDone(w, i, clock);
    AttemptWellFormed(d, [Up, Down], 0, 0);
    AttemptWellFormed(d, [Slept(backoff)], 0, 0);
    InterruptedWellFormed(d, backoff, if t < w.cancelAt then w.cancelAt else t, i + 1);
    if d.Refused? && IsTerminal(d.status, d.reason) {
      FatalWellFormed(d, t, i + 1);
    }
  }

  lemma {:induction false} RunIsWellFormed(w: World, i: nat, clock: nat, backoff: nat)
    ensures WellFormed(RunFrom(w, i, clock, backoff))
    decreases w.cancelAt - clock
  {
    TurnWellFormed(w, i, clock, backoff);
    match TurnOf(w, i, clock, backoff)
    case Over(_) =>
    case Again(events, clock', backoff') =>
      RunIsWellFormed(w, i + 1, clock', backoff');
      WellFormedBefore(events, RunFrom(w, i + 1, clock', backoff'));
  }

  // ---- a run, attempt by attempt ----

  /** A refusal that retrying cannot change: one of seven reasons, or without a reason one of four statuses. */
  predicate RefusedForGood(d: Dial) {
    && d.Refused?
    && (|| d.reason in {"not_staked", "invalid_signature", "address_mismatch", "invalid_address",
                        "missing_authentication", "missing_robot_id", "robot_id_in_use"}
        || (d.reason == "" && d.status in {400, 401, 403, 409}))
  }

  /** The events of one attempt; only the last one can end in a fatal refusal or an interrupted sleep. */
  predicate BlockFor(d: Dial, block: seq<Event>, last: bool) {
    if d.Connected? then block == [Fetched(d.nonce), Handshake(d.nonce), Up, Down]
    else if RefusedForGood(d) then last && block == [Fetched(d.nonce), Handshake(d.nonce), Fatal(d.status, d.reason)]
    else
      && block != []
      && (block[|block| - 1].Slept? || (last && block[|block| - 1].Interrupted?))
      && block[..|block| - 1] == (
           if d.NoNonce? then []
           else if d.NotSigned? then [Fetched(d.nonce)]
           else [Fetched(d.nonce), Handshake(d.nonce)])
  }

  function Concat(blocks: seq<seq<Event>>): seq<Event> {
    if blocks == [] then [] else blocks[0] + Concat(blocks[1..])
  }

  /** The attempts of a run from attempt `i`, one block each. */
  predicate InBlocks(w: World, i: nat, r: Trace, blocks: seq<seq<Event>>) {
    && r.attempts == i + |blocks| && r.events == Concat(blocks)
    && (forall k :: 0 <= k < |blocks| ==> BlockFor(w.dial(i + k), blocks[k], k == |blocks| - 1))
    && (r.exit.Exited? <==> |blocks| > 0 && RefusedForGood(w.dial(r.attempts - 1)))
  }

  /**
   Attempts start only before the cancellation, and one after the other: a sleep runs to its end unless
   it would last until then, a connection lasts until it ends by itself or then, and nothing else stops
   a run that no refusal ends.
   */
  predicate Timely(w: World, i: nat, clock: nat, blocks: seq<seq<Event>>)
    decreases |blocks|
  {
    if blocks == [] then clock >= w.cancelAt
    else if blocks[0] == [] then false
    else
      var last, t := blocks[0][|blocks[0]| - 1], clock + 1 + w.dialTime(i);
      && clock < w.cancelAt
      && (last.Interrupted? ==> |blocks| == 1 && t + last.duration >= w.cancelAt)
      && (last.Slept? ==> 0 <= t + last.duration <= w.cancelAt && Timely(w, i + 1, t + last.duration, blocks[1..]))
      && (last.Down? ==>
            if t + w.alive(i) <= w.cancelAt then Timely(w, i + 1, t + w.alive(i), blocks[1..]) else |blocks| == 1)
  }

  lemma TurnIsBlock(w: World, i: nat, clock: nat, backoff: nat)
    ensures var turn := TurnOf(w, i, clock, backoff);
      if turn.Again? then BlockFor(w.dial(i), turn.events, false) && !RefusedForGood(w.dial(i))
      else if turn.trace.attempts == i then turn.trace.events == [] && turn.trace.exit.Returned?
      else
        && turn.trace.attempts == i + 1 && BlockFor(w.dial(i), turn.trace.events, true)
        && (turn.trace.exit.Exited? <==> RefusedForGood(w.dial(i)))
  {
  }

  lemma FirstBlock(w: World, i: nat, block: seq<Event>, rest: Trace, blocks: seq<seq<Event>>)
    requires BlockFor(w.dial(i), block, false) && !RefusedForGood(w.dial(i)) && InBlocks(w, i + 1, rest, blocks)
    ensures InBlocks(w, i, Before(block, rest), [block] + blocks)
  {
    var all := [block] + blocks;
    assert all[1..] == blocks;
    forall k | 0 <= k < |all| ensures BlockFor(w.dial(i + k), all[k], k == |all| - 1) {
      if k > 0 {
        assert all[k] == blocks[k - 1] && BlockFor(w.dial(i + 1 + (k - 1)), blocks[k - 1], k - 1 == |blocks| - 1);
      }
    }
  }

  /** Every run is one block of events for each attempt, in order. */
  lemma {:induction false} RunInBlocks(w: World, i: nat, clock: nat, backoff: nat) returns (blocks: seq<seq<Event>>)
    ensures InBlocks(w, i, RunFrom(w, i, clock, backoff), blocks) && Timely(w, i, clock, blocks)
    decreases w.cancelAt - clock
  {
    TurnIsBlock(w, i, clock, backoff);
    match TurnOf(w, i, clock, backoff)
    case Over(trace) =>
      blocks := if trace.attempts == i then [] else [trace.events];
      assert Concat([trace.events]) == trace.events + Concat([]);
    case Again(events, clock', backoff') =>
      var rest := RunInBlocks(w, i + 1, clock', backoff');
      FirstBlock(w, i, events, RunFrom(w, i + 1, clock', backoff'), rest);
      blocks := [events] + rest;
      FirstIsTimely(w, i, clock, backoff, rest);
  }

  lemma FirstIsTimely(w: World, i: nat, clock: nat, backoff: nat, rest: seq<seq<Event>>)
    requires var turn := TurnOf(w, i, clock, backoff);
      turn.Again? && Timely(w, i + 1, turn.clock, rest) && (turn.clock >= w.cancelAt ==> rest == [])
    ensures Timely(w, i, clock, [TurnOf(w, i, clock, backoff).events] + rest)
  {
    var events := TurnOf(w, i, clock, backoff).events;
    var blocks := [events] + rest;
    assert blocks[1..] == rest;
    assert events[|events| - 1] == if w.dial(i).Connected? then Down else Slept(backoff);
  }

  lemma {:induction false} ConcatEnds(blocks: seq<seq<Event>>)
    requires blocks != [] && blocks[|blocks| - 1] != []
    ensures Concat(blocks) != []
    ensures Concat(blocks)[|Concat(blocks)| - 1] == blocks[|blocks| - 1][|blocks[|blocks| - 1]| - 1]
    decreases |blocks|
  {
    if |blocks| > 1 {
      ConcatEnds(blocks[1..]);
    } else {
      assert Concat(blocks) == blocks[0] + [];
    }
  }

  /**
   A refusal for good is never retried: it is the run's last attempt, and its last event, and ends the
   process. Every other refusal before the last attempt is slept on.
   */
  lemma RefusalEndsRun(w: World, first: nat, clock: nat, backoff: nat, j: nat)
    requires first <= j < RunFrom(w, first, clock, backoff).attempts && RefusedForGood(w.dial(j))
    ensures var r := RunFrom(w, first, clock, backoff);
      && j == r.attempts - 1 && r.exit.Exited? && r.events != []
      && r.events[|r.events| - 1] == Fatal(w.dial(j).status, w.dial(j).reason)
  {
    var blocks := RunInBlocks(w, first, clock, backoff);
    assert BlockFor(w.dial(first + (j - first)), blocks[j - first], j - first == |blocks| - 1);
    ConcatEnds(blocks);
  }

  /** A run that returns does so when its context is cancelled, or as soon as the dial then going on has ended. */
  lemma {:induction false} ReturnsPromptly(w: World, i: nat, clock: nat, backoff: nat)
    requires RunFrom(w, i, clock, backoff).exit.Returned?
    ensures var r := RunFrom(w, i, clock, backoff);
      || r.clock == (if clock >= w.cancelAt then clock else w.cancelAt)
      || (r.attempts > i && w.cancelAt < r.clock <= w.cancelAt + w.dialTime(r.attempts - 1) + 1)
    decreases w.cancelAt - clock
  {
    match TurnOf(w, i, clock, backoff)
    case Over(_) =>
    case Again(_, clock', backoff') =>
      ReturnsPromptly(w, i + 1, clock', backoff');
  }

  // ---- nonces ----

  /** If the proxy never repeats a nonce, no nonce is used for two handshakes. */
  lemma NoncesNotReused(w: World, i: nat, clock: nat, backoff: nat, p: nat, q: nat)
    requires var events := RunFrom(w, i, clock, backoff).events;
      && (forall x, y :: 0 <= x < y < |events| && events[x].Fetched? && events[y].Fetched? ==> events[x] != events[y])
      && p < q < |events| && events[p].Handshake? && events[q].Handshake?
    ensures RunFrom(w, i, clock, backoff).events[p] != RunFrom(w, i, clock, backoff).events[q]
  {
    RunIsWellFormed(w, i, clock, backoff);
    var events := RunFrom(w, i, clock, backoff).events;
    assert events[p - 1].Fetched? && events[q - 1].Fetched?;
  }

  /** A run that does not exit the process ends only once its context is cancelled. */
  lemma {:induction false} ReturnsOnlyWhenCancelled(w: World, i: nat, clock: nat, backoff: nat)
    ensures RunFrom(w, i, clock, backoff).exit.Returned? ==> RunFrom(w, i, clock, backoff).clock >= w.cancelAt
    decreases w.cancelAt - clock
  {
    match TurnOf(w, i, clock, backoff)
    case Over(_) =>
    case Again(_, clock', backoff') => ReturnsOnlyWhenCancelled(w, i + 1, clock', backoff');
  }

  // ---- how long a streak of failures lasts ----

  lemma SleptPrefix(events: seq<Event>, a: nat, b: nat)
    requires a <= b <= |events| && Backoff(events, 0)
    requires a == 0 || events[a - 1].Up?
    requires forall p :: a <= p < b ==> !events[p].Up? && !events[p].Interrupted?
    ensures SleptTime(events, a, b) == ClosedForm(SleptCount(events, a, b))
  {
    SleptIsAsked(events, a, b);
    SleepsSinceUp(events, a, b);
    TotalDelayClosedForm(SleepCount(events, a, b));
  }

  lemma SleptSinceUp(r: Trace, a: nat, b: nat)
    requires WellFormed(r) && Backoff(r.events, 0) && a <= b <= |r.events|
    requires a == 0 || r.events[a - 1].Up?
    requires forall p :: a <= p < b ==> !r.events[p].Up?
    ensures SleptTime(r.events, a, b) == ClosedForm(SleptCount(r.events, a, b))
  {
    if a < b && r.events[b - 1].Interrupted? {
      SleptPrefix(r.events, a, b - 1);
    } else {
      SleptPrefix(r.events, a, b);
    }
  }

  /**
   In every run, n consecutive failures since a connection or the start ask for 2^n - 1 seconds, or
   31 + 30(n - 5) beyond five; and that is how long they slept, counting the sleeps not interrupted.
   */
  lemma StreakSleeps(w: World, i: nat, clock: nat, a: nat, b: nat)
    requires var events := RunFrom(w, i, clock, SECOND).events;
      && a <= b <= |events|
      && (a == 0 || events[a - 1].Up?)
      && (forall p :: a <= p < b ==> !events[p].Up?)
    ensures var events := RunFrom(w, i, clock, SECOND).events;
      && SleepTime(events, a, b) == ClosedForm(SleepCount(events, a, b))
      && SleptTime(events, a, b) == ClosedForm(SleptCount(events, a, b))
  {
    var r := RunFrom(w, i, clock, SECOND);
    RunBacksOff(w, i, clock, SECOND, 0);
    RunIsWellFormed(w, i, clock, SECOND);
    SleepsSinceUp(r.events, a, b);
    TotalDelayClosedForm(SleepCount(r.events, a, b));
    SleptSinceUp(r, a, b);
  }

  // ---- the restart loop ----

  /** context.WithCancel: done when its parent is, or once it is cancelled itself. */
  datatype Context = Context(parentDone: nat, cancelled: Option<nat>)

  function DoneAt(c: Context): nat {
    if c.cancelled.Some? && c.cancelled.value < c.parentDone then c.cancelled.value else c.parentDone
  }

  datatype Process = Process(setups: nat, exit: Exit)

  /** When the cancel function of each turn's child context is called, if it ever is. */
  type Cancels = nat -> Option<nat>

  /** The world as the client sees it through a context of its own. */
  function Under(w: World, c: Context): World { w.(cancelAt := DoneAt(c)) }

  /** One run of the client, under a context derived from the process's own. */
  function ClientRun(w: World, cancelled: Option<nat>, i: nat, clock: nat): (r: Trace)
    ensures r.clock >= clock
  {
    RunFrom(Under(w, Context(w.cancelAt, cancelled)), i, clock, SECOND)
  }

  function More(setups: nat, p: Process): Process { p.(setups := setups + p.setups) }

  /** How often the rest of the restart loop sets up the router, from its k-th turn, and how it ends. */
  function ServeFrom(w: World, cancels: Cancels, k: nat, i: nat, clock: nat): Process
    decreases w.cancelAt - clock
  {
    var r := ClientRun(w, cancels(k), i, clock);
    if r.exit.Exited? then Process(1, Exited)
    else if r.clock >= w.cancelAt then Process(1, Returned)
    else
      More(1, ServeFrom(w, cancels, k + 1, r.attempts, r.clock + RESTART_PAUSE))
  }

  /** The loop of main. */
  method Serve(w: World, cancels: Cancels) returns (p: Process)
    ensures p == ServeFrom(w, cancels, 0, 0, 0)
  {
    var setups, i, clock := 0, 0, 0;
    while true
      invariant More(setups, ServeFrom(w, cancels, setups, i, clock)) == ServeFrom(w, cancels, 0, 0, 0)
      decreases w.cancelAt - clock
    {
      var child := Context(w.cancelAt, cancels(setups));
      setups := setups + 1;
      var r := Run(Under(w, child), i, clock);
      assert r == ClientRun(w, cancels(setups - 1), i, clock);
      if r.exit.Exited? {
        return Process(setups, Exited);
      }
      if r.clock >= w.cancelAt {
        return Process(setups, Returned);
      }
      i, clock := r.attempts, r.clock + RESTART_PAUSE;
    }
  }

  /** main calls the cancel function of its first child context only once the client has returned. */
  predicate CancelsAfterReturn(w: World, cancels: Cancels) {
    cancels(0).Some? ==> ClientRun(w, cancels(0), 0, 0).clock < cancels(0).value
  }

  /**
   The client returns only when its context is done, and that can only be the parent's doing: the
   restart loop never goes around, and the router is set up exactly once.
   */
  lemma RouterSetUpOnce(w: World, cancels: Cancels)
    requires CancelsAfterReturn(w, cancels)
    ensures ServeFrom(w, cancels, 0, 0, 0) == Process(1, ClientRun(w, cancels(0), 0, 0).exit)
  {
    ReturnsOnlyWhenCancelled(Under(w, Context(w.cancelAt, cancels(0))), 0, 0, SECOND);
  }

  /** A child context cancelled before that would be set up anew: the order in main is what matters. */
  lemma EarlyCancelRestarts(w: World, cancels: Cancels)
    requires 0 < w.cancelAt && cancels(0) == Some(0)
    ensures ServeFrom(w, cancels, 0, 0, 0).setups > 1
  {
    var r := ClientRun(w, cancels(0), 0, 0);
    assert r == Trace([], 0, 0, Returned);
    assert ServeFrom(w, cancels, 1, 0, RESTART_PAUSE).setups >= 1;
  }
}
