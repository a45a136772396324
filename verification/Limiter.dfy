// A batch-then-pause limiter: after `n` failures nothing gated gets through for
// `d` time units, and the count starts afresh. The account lockout and the
// Redis circuit breaker both behave like this.
module Limiter {
  type Instant = int

  datatype State = State(count: nat, until: Instant)

  // Try: an attempt that fails, begun at `start` and recorded at `end`. An
  // ungated one is not held back by the pause but counts all the same.
  datatype Event =
    | Try(gated: bool, start: Instant, end: Instant)
    | Clear(at: Instant)

  function Fail(s: State, at: Instant, n: nat, d: nat): State {
    if s.count + 1 >= n then State(0, at + d) else State(s.count + 1, s.until)
  }

  predicate Blocked(s: State, e: Event) {
    e.Try? && e.gated && e.start < s.until
  }

  function Step(s: State, e: Event, n: nat, d: nat): State {
    match e
    case Clear(_) => State(0, 0)
    case Try(_, _, end) => if Blocked(s, e) then s else Fail(s, end, n, d)
  }

  function Run(s: State, events: seq<Event>, n: nat, d: nat): State
    decreases events
  {
    if events == [] then s else Run(Step(s, events[0], n, d), events[1..], n, d)
  }

  // How many gated attempts got through.
  function Passed(s: State, events: seq<Event>, n: nat, d: nat): nat
    decreases events
  {
    if events == [] then 0
    else
      (if events[0].Try? && events[0].gated && !Blocked(s, events[0]) then 1 else 0)
      + Passed(Step(s, events[0], n, d), events[1..], n, d)
  }

  function EndOf(e: Event): Instant {
    if e.Try? then e.end else e.at
  }

  function StartOf(e: Event): Instant {
    if e.Try? then e.start else e.at
  }

  // The events follow one another from time `t` on.
  predicate Ordered(t: Instant, events: seq<Event>)
    decreases events
  {
    events == [] ||
    (t <= StartOf(events[0]) <= EndOf(events[0]) && Ordered(EndOf(events[0]), events[1..]))
  }

  function LastEnd(t: Instant, events: seq<Event>): Instant
    decreases events
  {
    if events == [] then t else LastEnd(EndOf(events[0]), events[1..])
  }

  predicate BeginBy(events: seq<Event>, last: Instant) {
    forall i :: 0 <= i < |events| ==> StartOf(events[i]) <= last
  }

  predicate NoClear(events: seq<Event>) {
    forall i :: 0 <= i < |events| ==> events[i].Try?
  }

  // ---- invariant ----

  // The count stays below the threshold and a pause reaches at most `d` ahead.
  predicate Sound(s: State, t: Instant, n: nat, d: nat) {
    s.count < n && s.until <= t + d
  }

  lemma {:induction false} RunKeepsSound(s: State, t: Instant, events: seq<Event>, n: nat, d: nat)
    requires 1 <= n && 0 <= t && Sound(s, t, n, d) && Ordered(t, events)
    ensures Sound(Run(s, events, n, d), LastEnd(t, events), n, d) && t <= LastEnd(t, events)
    decreases events
  {
    if events != [] {
      RunKeepsSound(Step(s, events[0], n, d), EndOf(events[0]), events[1..], n, d);
    }
  }

  // ---- the bound ----

  // What a window of length x admits: n at its start and n more per pause.
  function Allowance(x: int, n: nat, d: nat): (r: nat)
    requires 1 <= d
    decreases if x < 0 then 0 else x + 1
  {
    if x < 0 then 0 else n + Allowance(x - d, n, d)
  }

  lemma {:induction false} AllowanceMonotone(x: int, y: int, n: nat, d: nat)
    requires 1 <= d && x <= y
    ensures Allowance(x, n, d) <= Allowance(y, n, d)
    decreases if y < 0 then 0 else y + 1
  {
    if 0 <= x {
      AllowanceMonotone(x - d, y - d, n, d);
    }
  }

  lemma MulMonotone(a: nat, b: nat, d: nat)
    requires a <= b
    ensures a * d <= b * d
  {
  }

  lemma DivideStep(x: nat, d: nat)
    requires 1 <= d <= x
    ensures x / d == (x - d) / d + 1
  {
    var p, q := x / d, (x - d) / d;
    var r, s := x % d, (x - d) % d;
    assert p * d + r == q * d + s + d;
    Successor(q, d);
    if p <= q {
      MulMonotone(p, q, d);
    } else if q + 2 <= p {
      MulMonotone(q + 2, p, d);
      Successor(q + 1, d);
    }
  }

  lemma Successor(q: nat, d: nat)
    ensures (q + 1) * d == q * d + d
  {
  }

  lemma {:induction false} AllowanceIs(x: nat, n: nat, d: nat)
    requires 1 <= d
    ensures Allowance(x, n, d) == n * (x / d + 1)
    decreases x
  {
    if x < d {
      assert Allowance(x - d, n, d) == 0 && x / d == 0;
    } else {
      AllowanceIs(x - d, n, d);
      DivideStep(x, d);
      Distribute(n, (x - d) / d + 1);
    }
  }

  lemma Distribute(n: nat, q: nat)
    ensures n * (q + 1) == n + n * q
  {
  }

  function Max(a: int, b: int): int { if a < b then b else a }

  // `batch` of the counted failures were gated attempts let through since the
  // last pause began; they use up the current batch.
  lemma {:induction false} PassedAtMost(s: State, batch: nat, t: Instant, events: seq<Event>, last: Instant,
                                        n: nat, d: nat)
    requires 1 <= n && 1 <= d && Sound(s, t, n, d) && batch <= s.count
    requires batch > 0 ==> s.until <= t
    requires Ordered(t, events) && NoClear(events) && BeginBy(events, last)
    ensures var open := Max(t, s.until);
            Passed(s, events, n, d) <= if last < open then 0 else Allowance(last - open, n, d) - batch
    decreases events
  {
    if events != [] {
      var e, rest := events[0], events[1..];
      var s' := Step(s, e, n, d);
      var open, open' := Max(t, s.until), Max(e.end, s'.until);
      assert events[0].Try? && StartOf(events[0]) <= last;
      assert NoClear(rest) && BeginBy(rest, last) by {
        assert forall i :: 0 <= i < |rest| ==> rest[i] == events[i + 1];
      }
      var locks := !Blocked(s, e) && s.count + 1 >= n;
      var batch' := if locks then 0 else if e.gated && !Blocked(s, e) then batch + 1 else batch;
      PassedAtMost(s', batch', e.end, rest, last, n, d);
      if open <= open' {
        AllowanceMonotone(last - open', last - open, n, d);
      }
      if locks {
        AllowanceMonotone(last - e.end - d, last - open, n, d);
        if open <= e.end {
          AllowanceMonotone(last - e.end, last - open, n, d);
        }
      }
    }
  }

  // From a sound state, at most n * (window / d + 1) gated attempts that begin
  // within `window` get through.
  lemma FromSound(s: State, from: Instant, events: seq<Event>, window: nat, n: nat, d: nat)
    requires 1 <= n && 1 <= d && Sound(s, from, n, d)
    requires Ordered(from, events) && NoClear(events) && BeginBy(events, from + window)
    ensures Passed(s, events, n, d) <= n * (window / d + 1)
  {
    PassedAtMost(s, 0, from, events, from + window, n, d);
    AllowanceMonotone(from + window - Max(from, s.until), window, n, d);
    AllowanceIs(window, n, d);
  }

  // In any `window` time units of any run, `prefix` being what came before,
  // at most n * (window / d + 1) gated attempts get through.
  lemma WindowBound(s: State, t: Instant, prefix: seq<Event>, events: seq<Event>, from: Instant, window: nat,
                    n: nat, d: nat)
    requires 1 <= n && 1 <= d && 0 <= t && Sound(s, t, n, d)
    requires Ordered(t, prefix) && LastEnd(t, prefix) <= from
    requires Ordered(from, events) && NoClear(events) && BeginBy(events, from + window)
    ensures Passed(Run(s, prefix, n, d), events, n, d) <= n * (window / d + 1)
    ensures Run(s, prefix, n, d).count < n
  {
    RunKeepsSound(s, t, prefix, n, d);
    FromSound(Run(s, prefix, n, d), from, events, window, n, d);
  }
}
