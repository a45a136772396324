// The Redis circuit breaker (server/internal/cache/redis.go), for calls made
// one after the other.
module CircuitBreaker {
  import L = Limiter

  type Instant = int  // nanoseconds since the epoch

  const REDIS_ERR_THRESHOLD: nat := 5
  const CIRCUIT_OPEN_DURATION: nat := 30 * 1_000_000_000

  // What Redis answers; Missing is redis.Nil.
  datatype Reply = Value | Missing | Failure

  datatype Breaker = Breaker(consecErrors: nat, circuitUntil: Instant)

  const CLOSED := Breaker(0, 0)

  // isOpen, with its half-opening side effect.
  function CheckOpen(b: Breaker, now: Instant): (Breaker, bool) {
    if b.circuitUntil == 0 then (b, false)
    else if now < b.circuitUntil then (b, true)
    else (CLOSED, false)
  }

  function RecordError(b: Breaker, now: Instant): Breaker {
    var n := b.consecErrors + 1;
    Breaker(n, if n >= REDIS_ERR_THRESHOLD then now + CIRCUIT_OPEN_DURATION else b.circuitUntil)
  }

  function Observe(b: Breaker, reply: Reply, now: Instant): Breaker {
    if reply.Failure? then RecordError(b, now) else b.(consecErrors := 0)
  }

  // One guarded operation: begun at `start`, answered at `end` if Redis was asked.
  datatype Call = Call(start: Instant, end: Instant, reply: Reply)

  function Guarded(b: Breaker, call: Call): (Breaker, bool) {
    var (b', open) := CheckOpen(b, call.start);
    if open then (b', false) else (Observe(b', call.reply, call.end), true)
  }

  // New pings once, outside the guard.
  function Fresh(pingOk: bool, now: Instant): Breaker {
    if pingOk then CLOSED else RecordError(CLOSED, now)
  }

  // ---- the client in the source's imperative form ----

  datatype Outcome = CircuitOpen | Answer(reply: Reply)

  class Client {
    var consecErrors: nat
    var circuitUntil: Instant

    ghost function State(): Breaker
      reads this
    {
      Breaker(consecErrors, circuitUntil)
    }

    constructor (pingOk: bool, now: Instant)
      ensures State() == Fresh(pingOk, now)
    {
      consecErrors, circuitUntil := 0, 0;
      new;
      if !pingOk {
        RecordErrorAt(now);
      }
    }

    method IsOpen(now: Instant) returns (open: bool)
      modifies this
      ensures (State(), open) == CheckOpen(old(State()), now)
    {
      if circuitUntil == 0 { return false; }
      if now < circuitUntil { return true; }
      circuitUntil := 0;
      consecErrors := 0;
      return false;
    }

    method RecordErrorAt(now: Instant)
      modifies this
      ensures State() == RecordError(old(State()), now)
    {
      consecErrors := consecErrors + 1;
      if consecErrors >= REDIS_ERR_THRESHOLD {
        circuitUntil := now + CIRCUIT_OPEN_DURATION;
      }
    }

    method ObserveAt(reply: Reply, now: Instant)
      modifies this
      ensures State() == Observe(old(State()), reply, now)
    {
      if reply.Failure? {
        RecordErrorAt(now);
      } else {
        consecErrors := 0;
      }
    }

    // Ping, SetEX, GetDel and Publish all have this shape.
    method Operation(call: Call) returns (outcome: Outcome)
      modifies this
      ensures State() == Guarded(old(State()), call).0
      ensures outcome == if Guarded(old(State()), call).1 then Answer(call.reply) else CircuitOpen
    {
      var open := IsOpen(call.start);
      if open { return CircuitOpen; }
      ObserveAt(call.reply, call.end);
      return Answer(call.reply);
    }
  }

  // ---- exactly when the circuit opens ----

  // The breaker with the replies seen since it last closed.
  datatype Traced = Traced(b: Breaker, since: seq<Reply>)

  function TracedStep(s: Traced, call: Call): Traced {
    var (b, reached) := Guarded(s.b, call);
    if !reached then s
    else Traced(b, (if s.b.circuitUntil != 0 then [] else s.since) + [call.reply])
  }

  function TracedRun(s: Traced, calls: seq<Call>): Traced
    decreases calls
  {
    if calls == [] then s else TracedRun(TracedStep(s, calls[0]), calls[1..])
  }

  // Length of the run of errors at the end.
  function TrailingErrors(replies: seq<Reply>): nat {
    if replies == [] || !replies[|replies| - 1].Failure? then 0
    else 1 + TrailingErrors(replies[..|replies| - 1])
  }

  predicate InOrder(t: Instant, calls: seq<Call>)
    decreases calls
  {
    calls == [] || (t <= calls[0].start <= calls[0].end && InOrder(calls[0].end, calls[1..]))
  }

  // The counter counts trailing errors, and the circuit is open, or was when
  // last looked at, exactly when there are five of them.
  predicate Counted(s: Traced) {
    && s.b.consecErrors == TrailingErrors(s.since) <= REDIS_ERR_THRESHOLD
    && (s.b.circuitUntil != 0 <==> TrailingErrors(s.since) == REDIS_ERR_THRESHOLD)
  }

  lemma TrailingAppend(replies: seq<Reply>, r: Reply)
    ensures TrailingErrors(replies + [r]) == if r.Failure? then TrailingErrors(replies) + 1 else 0
  {
    assert (replies + [r])[..|replies|] == replies;
  }

  lemma StepKeepsCounted(s: Traced, call: Call)
    requires Counted(s) && 0 <= call.end
    ensures Counted(TracedStep(s, call))
  {
    TrailingAppend(if s.b.circuitUntil != 0 then [] else s.since, call.reply);
  }

  lemma {:induction false} RunKeepsCounted(s: Traced, t: Instant, calls: seq<Call>)
    requires Counted(s) && 0 <= t && InOrder(t, calls)
    ensures Counted(TracedRun(s, calls))
    decreases calls
  {
    if calls != [] {
      StepKeepsCounted(s, calls[0]);
      RunKeepsCounted(TracedStep(s, calls[0]), calls[0].end, calls[1..]);
    }
  }

  // A client just made, the first ping counted as an error if it failed.
  function Made(pingOk: bool, at: Instant): Traced {
    Traced(Fresh(pingOk, at), if pingOk then [] else [Failure])
  }

  lemma MadeIsCounted(pingOk: bool, at: Instant)
    ensures Counted(Made(pingOk, at))
  {
    TrailingAppend([], Failure);
    assert [] + [Failure] == [Failure];
  }

  predicate Before(calls: seq<Call>, until: Instant) {
    forall i :: 0 <= i < |calls| ==> calls[i].start < until
  }

  lemma {:induction false} NothingReachesWhileOpen(b: Breaker, calls: seq<Call>)
    requires b.circuitUntil != 0 && Before(calls, b.circuitUntil)
    ensures Reached(b, calls) == 0 && After(b, calls) == b
    decreases calls
  {
    if calls != [] {
      assert calls[0].start < b.circuitUntil;
      assert forall i :: 0 <= i < |calls| - 1 ==> calls[1..][i] == calls[i + 1];
      NothingReachesWhileOpen(b, calls[1..]);
    }
  }

  // A call that reaches Redis opens the circuit exactly when it is the fifth
  // error in a row since the circuit last closed, the first ping included.
  lemma OpensOnFifthError(pingOk: bool, at: Instant, calls: seq<Call>, call: Call)
    requires 0 <= at && InOrder(at, calls) && 0 <= call.start <= call.end
    requires var s := TracedRun(Made(pingOk, at), calls); Guarded(s.b, call).1
    ensures var s := TracedRun(Made(pingOk, at), calls);
            var s' := TracedStep(s, call);
            && (s'.b.circuitUntil != 0 <==> TrailingErrors(s'.since) == REDIS_ERR_THRESHOLD)
            && (s'.b.circuitUntil != 0 ==> s'.b.circuitUntil == call.end + CIRCUIT_OPEN_DURATION)
  {
    MadeIsCounted(pingOk, at);
    RunKeepsCounted(Made(pingOk, at), at, calls);
    StepKeepsCounted(TracedRun(Made(pingOk, at), calls), call);
  }

  // Once it is open, nothing reaches Redis for 30 seconds from that error,
  // whatever is called; while it is closed, the next call does.
  lemma OpenFor30Seconds(pingOk: bool, at: Instant, calls: seq<Call>, call: Call, next: Call, later: seq<Call>)
    requires 0 <= at && InOrder(at, calls) && 0 <= call.start <= call.end
    requires var s := TracedRun(Made(pingOk, at), calls); Guarded(s.b, call).1
    ensures var b := TracedStep(TracedRun(Made(pingOk, at), calls), call).b;
            && (b.circuitUntil != 0 && Before(later, call.end + CIRCUIT_OPEN_DURATION) ==> Reached(b, later) == 0)
            && (b.circuitUntil == 0 ==> Guarded(b, next).1)
  {
    OpensOnFifthError(pingOk, at, calls, call);
    var b := TracedStep(TracedRun(Made(pingOk, at), calls), call).b;
    if b.circuitUntil != 0 && Before(later, b.circuitUntil) {
      NothingReachesWhileOpen(b, later);
    }
  }

  // A failed first ping leaves the circuit closed, one error nearer to opening.
  lemma FailedPingDoesNotOpen(now: Instant)
    requires 0 <= now
    ensures Fresh(false, now) == Breaker(1, 0) && !CheckOpen(Fresh(false, now), now).1
  {
  }

  // ---- refinement of the limiter ----

  // The pauses agree, or both are over.
  predicate Similar(b: Breaker, s: L.State, t: Instant) {
    && s.count == (if b.circuitUntil != 0 then 0 else b.consecErrors)
    && s.count < REDIS_ERR_THRESHOLD
    && (b.circuitUntil == s.until || (b.circuitUntil == 0 && s.until <= t))
  }

  predicate AllFail(calls: seq<Call>) {
    forall i :: 0 <= i < |calls| ==> calls[i].reply.Failure?
  }

  function Reached(b: Breaker, calls: seq<Call>): nat
    decreases calls
  {
    if calls == [] then 0
    else (if Guarded(b, calls[0]).1 then 1 else 0) + Reached(Guarded(b, calls[0]).0, calls[1..])
  }

  function AsEvents(calls: seq<Call>): (r: seq<L.Event>)
    ensures |r| == |calls|
    ensures forall i :: 0 <= i < |r| ==> r[i] == L.Try(true, calls[i].start, calls[i].end)
  {
    if calls == [] then []
    else [L.Try(true, calls[0].start, calls[0].end)] + AsEvents(calls[1..])
  }

  lemma FailureRefines(b: Breaker, s: L.State, t: Instant, call: Call)
    requires 0 <= t <= call.start <= call.end && call.reply.Failure? && Similar(b, s, t)
    ensures var e := L.Try(true, call.start, call.end);
            && Similar(Guarded(b, call).0, L.Step(s, e, REDIS_ERR_THRESHOLD, CIRCUIT_OPEN_DURATION), call.end)
            && (Guarded(b, call).1 <==> !L.Blocked(s, e))
  {
  }

  lemma {:induction false} FailuresRefine(b: Breaker, s: L.State, t: Instant, calls: seq<Call>)
    requires 0 <= t && Similar(b, s, t) && InOrder(t, calls) && AllFail(calls)
    ensures Reached(b, calls) == L.Passed(s, AsEvents(calls), REDIS_ERR_THRESHOLD, CIRCUIT_OPEN_DURATION)
    ensures L.Ordered(t, AsEvents(calls))
    decreases calls
  {
    if calls != [] {
      var e := L.Try(true, calls[0].start, calls[0].end);
      FailureRefines(b, s, t, calls[0]);
      assert AllFail(calls[1..]) by {
        assert forall i :: 0 <= i < |calls| - 1 ==> calls[1..][i] == calls[i + 1];
      }
      FailuresRefine(Guarded(b, calls[0]).0, L.Step(s, e, REDIS_ERR_THRESHOLD, CIRCUIT_OPEN_DURATION),
        calls[0].end, calls[1..]);
      assert AsEvents(calls)[1..] == AsEvents(calls[1..]);
    }
  }

  // A breaker state that some earlier run, successes included, may have left.
  predicate Plausible(b: Breaker, t: Instant) {
    && (b.circuitUntil == 0 ==> b.consecErrors < REDIS_ERR_THRESHOLD)
    && b.circuitUntil <= t + CIRCUIT_OPEN_DURATION
  }

  lemma {:induction false} RunKeepsPlausible(b: Breaker, t: Instant, calls: seq<Call>)
    requires 0 <= t && Plausible(b, t) && InOrder(t, calls)
    ensures forall from :: from >= t && (forall i :: 0 <= i < |calls| ==> calls[i].end <= from) ==>
              Plausible(After(b, calls), from)
    decreases calls
  {
    if calls != [] {
      var b' := Guarded(b, calls[0]).0;
      RunKeepsPlausible(b', calls[0].end, calls[1..]);
      forall from | from >= t && (forall i :: 0 <= i < |calls| ==> calls[i].end <= from)
        ensures Plausible(After(b, calls), from)
      {
        assert calls[0].end <= from;
        assert forall i :: 0 <= i < |calls| - 1 ==> calls[1..][i] == calls[i + 1];
      }
    }
  }

  function After(b: Breaker, calls: seq<Call>): Breaker
    decreases calls
  {
    if calls == [] then b else After(Guarded(b, calls[0]).0, calls[1..])
  }

  lemma PlausibleBound(b: Breaker, calls: seq<Call>, from: Instant, window: nat)
    requires 0 <= from && Plausible(b, from) && InOrder(from, calls) && AllFail(calls)
    requires forall i :: 0 <= i < |calls| ==> calls[i].start <= from + window
    ensures Reached(b, calls) <= REDIS_ERR_THRESHOLD * (window / CIRCUIT_OPEN_DURATION + 1)
  {
    var s := L.State(if b.circuitUntil != 0 then 0 else b.consecErrors, b.circuitUntil);
    FailuresRefine(b, s, from, calls);
    L.FromSound(s, from, AsEvents(calls), window, REDIS_ERR_THRESHOLD, CIRCUIT_OPEN_DURATION);
  }

  // While Redis is down, any `window` of any sequential run holds at most
  // 5 * (window / 30 s + 1) calls that reach it.
  lemma BackendCallBound(pingOk: bool, prefix: seq<Call>, calls: seq<Call>, from: Instant, window: nat)
    requires InOrder(0, prefix) && 0 <= from && forall i :: 0 <= i < |prefix| ==> prefix[i].end <= from
    requires InOrder(from, calls) && AllFail(calls)
    requires forall i :: 0 <= i < |calls| ==> calls[i].start <= from + window
    ensures Reached(After(Fresh(pingOk, 0), prefix), calls)
            <= REDIS_ERR_THRESHOLD * (window / CIRCUIT_OPEN_DURATION + 1)
  {
    RunKeepsPlausible(Fresh(pingOk, 0), 0, prefix);
    PlausibleBound(After(Fresh(pingOk, 0), prefix), calls, from, window);
  }

  // ---- closing again ----

  // Thirty seconds after it opened the next call reaches Redis, with the count
  // started afresh: one error later it is one, and the circuit stays closed.
  lemma ClosesAfter30Seconds(b: Breaker, call: Call)
    requires b.circuitUntil != 0 && b.circuitUntil <= call.start
    ensures Guarded(b, call) == (Breaker(if call.reply == Failure then 1 else 0, 0), true)
  {
  }

  // While it is closed, an error counts, and a value or a missing key resets.
  lemma ClosedCallCounts(b: Breaker, call: Call)
    requires b.circuitUntil == 0
    ensures Guarded(b, call).1
    ensures call.reply != Failure ==> Guarded(b, call).0 == Breaker(0, 0)
    ensures call.reply == Failure && b.consecErrors < 4 ==> Guarded(b, call).0 == Breaker(b.consecErrors + 1, 0)
    ensures call.reply == Failure && b.consecErrors == 4 ==>
              Guarded(b, call).0 == Breaker(5, call.end + 30_000_000_000)
  {
  }

  lemma OpenCallIsHeldBack(b: Breaker, call: Call)
    requires b.circuitUntil != 0 && call.start < b.circuitUntil
    ensures Guarded(b, call) == (b, false)
  {
  }
}
