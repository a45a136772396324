// Single-use OIDC state (server/internal/httpapi/auth_sso.go): kept in Redis,
// shared by all pods, or else in the memory of the pod that issued it. Redis and
// each pod's circuit breaker may go up and down between any two steps.
module OidcState {
  import opened Wrappers

  type Instant = int  // nanoseconds
  type StateId = nat  // the issued random state, numbered in order of issue
  type PodId = nat
  type HandlerId = nat

  const TTL: nat := 10 * 60 * 1_000_000_000

  datatype Entry = Entry(provider: string, verifier: string, expiresAt: Instant)

  // A state is put in the memory of one pod only, the one that issued it.
  datatype Held = Held(pod: PodId, entry: Entry)

  // How a GetDel went: not sent (no client, or circuit open), answered, or failed
  // for the caller, who cannot tell whether Redis carried it out. One that the
  // Redis client sent twice may have been carried out and answer that there was
  // nothing, which for the caller is Failed(true).
  datatype Command = Skipped | Answered | Failed(done: bool)

  // How a SetEX went. The Redis client sends it again once when it hears nothing;
  // of the attempts, `late` may yet be carried out, each at any later time,
  // beside the one that decided the outcome.
  datatype Setting = NotSent | Confirmed(late: nat) | Unconfirmed(done: bool, late: nat)

  predicate Stores(how: Setting) {
    how.Confirmed? || (how.Unconfirmed? && how.done)
  }

  function Late(how: Setting): nat {
    if how.NotSent? then 0 else how.late
  }

  // At most two attempts are made.
  predicate TwoAttempts(how: Setting) {
    (if Stores(how) then 1 else 0) + Late(how) <= 2
  }

  datatype Flight = Flight(pod: PodId, state: StateId)

  // `issued` is history: the entry of every state ever issued. `pending` are
  // the states whose SetEX may yet be carried out, as often as it may.
  datatype System = System(issued: seq<Entry>, redis: map<StateId, Entry>, memory: map<StateId, Held>,
                           flights: map<HandlerId, Flight>, pending: multiset<StateId>)

  const EMPTY := System([], map[], map[], map[], multiset{})

  datatype Step =
    | Issue(at: Instant, pod: PodId, provider: string, verifier: string, setEX: Setting)
    | AskRedis(at: Instant, handler: HandlerId, pod: PodId, state: StateId, getDel: Command)
    | AskMemory(at: Instant, handler: HandlerId)
    | Land(at: Instant, state: StateId)   // a pending SetEX reaches Redis after all
    | Evict(at: Instant, state: StateId)  // TTL, memory pressure, a late GetDel, or a restart of Redis
    | Restart(at: Instant, pod: PodId)

  datatype Reply = Issued(state: StateId) | Accepted(state: StateId, entry: Entry) | Rejected | Quiet

  // ---- what the functions do to the stores ----

  predicate Expired(e: Entry, now: Instant) {
    now > e.expiresAt
  }

  function Purged(memory: map<StateId, Held>, pod: PodId, now: Instant): map<StateId, Held> {
    map st | st in memory && !(memory[st].pod == pod && Expired(memory[st].entry, now)) :: memory[st]
  }

  function Respond(s: System, step: Step): (System, Reply) {
    match step
    case Issue(at, pod, provider, verifier, setEX) =>
      var st, e := |s.issued|, Entry(provider, verifier, at + TTL);
      var redis := if Stores(setEX) then s.redis[st := e] else s.redis;
      var memory := if setEX.Confirmed? then s.memory else Purged(s.memory, pod, at)[st := Held(pod, e)];
      var pending := s.pending[st := s.pending[st] + Late(setEX)];
      (s.(issued := s.issued + [e], redis := redis, memory := memory, pending := pending), Issued(st))
    case AskRedis(at, handler, pod, st, getDel) =>
      if handler in s.flights then (s, Quiet)
      else if getDel.Answered? && st in s.redis then
        (s.(redis := s.redis - {st}), if Expired(s.redis[st], at) then Rejected else Accepted(st, s.redis[st]))
      else
        var redis := if getDel.Failed? && getDel.done then s.redis - {st} else s.redis;
        (s.(redis := redis, flights := s.flights[handler := Flight(pod, st)]), Quiet)
    case AskMemory(at, handler) =>
      if handler !in s.flights then (s, Quiet)
      else
        var f := s.flights[handler];
        var s' := s.(flights := s.flights - {handler});
        if f.state !in s.memory || s.memory[f.state].pod != f.pod then (s', Rejected)
        else
          var e := s.memory[f.state].entry;
          (s'.(memory := s.memory - {f.state}), if Expired(e, at) then Rejected else Accepted(f.state, e))
    case Land(_, st) =>
      if st !in s.pending || st >= |s.issued| then (s, Quiet)
      else (s.(redis := s.redis[st := s.issued[st]], pending := s.pending[st := s.pending[st] - 1]), Quiet)
    case Evict(_, st) => (s.(redis := s.redis - {st}), Quiet)
    case Restart(_, pod) =>
      (s.(memory := map st | st in s.memory && s.memory[st].pod != pod :: s.memory[st]), Quiet)
  }

  function Next(s: System, step: Step): System { Respond(s, step).0 }

  function ReplyTo(s: System, step: Step): Reply { Respond(s, step).1 }

  function Run(s: System, steps: seq<Step>): System
    decreases steps
  {
    if steps == [] then s else Run(Next(s, steps[0]), steps[1..])
  }

  // How often `st` is accepted.
  function Accepts(s: System, steps: seq<Step>, st: StateId): nat
    decreases steps
  {
    if steps == [] then 0
    else
      (if ReplyTo(s, steps[0]).Accepted? && ReplyTo(s, steps[0]).state == st then 1 else 0)
      + Accepts(Next(s, steps[0]), steps[1..], st)
  }

  predicate Ordered(t: Instant, steps: seq<Step>)
    decreases steps
  {
    steps == [] || (t <= steps[0].at && Ordered(steps[0].at, steps[1..]))
  }

  // ---- the two functions in the source's imperative form ----

  class Redis {
    var store: map<StateId, Entry>

    constructor ()
      ensures store == map[]
    {
      store := map[];
    }

    method SetEX(st: StateId, e: Entry, how: Setting) returns (ok: bool)
      modifies this
      ensures ok == how.Confirmed?
      ensures store == if Stores(how) then old(store)[st := e] else old(store)
    {
      if Stores(how) { store := store[st := e]; }
      return how.Confirmed?;
    }

    method GetDel(st: StateId, how: Command) returns (found: Option<Entry>)
      modifies this
      ensures found == if how.Answered? && st in old(store) then Some(old(store)[st]) else None
      ensures store == if how.Answered? || (how.Failed? && how.done) then old(store) - {st} else old(store)
    {
      found := if how.Answered? && st in store then Some(store[st]) else None;
      if how.Answered? || (how.Failed? && how.done) { store := store - {st}; }
    }
  }

  class Pod {
    const redis: Redis
    const id: PodId
    var memory: map<StateId, Entry>

    constructor (redis: Redis, id: PodId)
      ensures this.redis == redis && this.id == id && memory == map[]
    {
      this.redis, this.id, memory := redis, id, map[];
    }

    // The system as this pod and Redis see it.
    ghost function State(issued: seq<Entry>, pending: multiset<StateId>): System
      reads this, redis
    {
      System(issued, redis.store, map st | st in memory :: Held(id, memory[st]), map[], pending)
    }

    method Purge(now: Instant)
      modifies this
      ensures memory == map st | st in old(memory) && !Expired(old(memory)[st], now) :: old(memory)[st]
    {
      var todo := memory.Keys;
      while todo != {}
        invariant todo <= old(memory).Keys
        invariant memory == map st | st in old(memory) && (st in todo || !Expired(old(memory)[st], now)) :: old(memory)[st]
        decreases |todo|
      {
        var st :| st in todo;
        if Expired(memory[st], now) { memory := memory - {st}; }
        todo := todo - {st};
      }
    }

    // issueOIDCState; `st` is the random state just drawn.
    method Issue(ghost issued: seq<Entry>, ghost pending: multiset<StateId>, st: StateId, provider: string,
                 verifier: string, now: Instant, setEX: Setting)
      requires st == |issued|
      modifies this, redis
      ensures State(issued + [Entry(provider, verifier, now + TTL)],
                    pending[st := pending[st] + Late(setEX)])
              == Next(old(State(issued, pending)), Step.Issue(now, id, provider, verifier, setEX))
    {
      var e := Entry(provider, verifier, now + TTL);
      if !setEX.NotSent? {
        var ok := redis.SetEX(st, e, setEX);
        if ok { return; }
      }
      Purge(now);
      memory := memory[st := e];
    }

    // consumeOIDCState with nothing between its two halves.
    method Consume(st: StateId, now: Instant, getDel: Command) returns (r: Option<Entry>)
      modifies this, redis
      ensures var inRedis := getDel.Answered? && st in old(redis.store);
              var found := if inRedis then Some(old(redis.store)[st])
                           else if st in old(memory) then Some(old(memory)[st]) else None;
              && r == (if found.Some? && !Expired(found.value, now) then found else None)
              && memory == (if inRedis then old(memory) else old(memory) - {st})
              && redis.store == (if inRedis || (getDel.Failed? && getDel.done)
                                 then old(redis.store) - {st} else old(redis.store))
    {
      if !getDel.Skipped? {
        var found := redis.GetDel(st, getDel);
        if found.Some? {
          if Expired(found.value, now) { return None; }
          return found;
        }
      }
      if st !in memory { return None; }
      var e := memory[st];
      memory := memory - {st};
      if Expired(e, now) { return None; }
      return Some(e);
    }
  }

  // What Consume promises is the two steps one after the other.
  lemma ConsumeIsBothSteps(s: System, h: HandlerId, pod: PodId, st: StateId, now: Instant, getDel: Command)
    requires h !in s.flights
    ensures var ask, mem := AskRedis(now, h, pod, st, getDel), AskMemory(now, h);
            var s1 := Next(s, ask);
            var s2 := Next(s1, mem);
            var inRedis := getDel.Answered? && st in s.redis;
            var inMemory := st in s.memory && s.memory[st].pod == pod;
            && s2.flights == s.flights && s2.issued == s.issued
            && s2.memory == (if inRedis || !inMemory then s.memory else s.memory - {st})
            && s2.redis == (if inRedis || (getDel.Failed? && getDel.done) then s.redis - {st} else s.redis)
            && (ReplyTo(s, ask).Accepted? <==> inRedis && !Expired(s.redis[st], now))
            && (ReplyTo(s1, mem).Accepted? <==> !inRedis && inMemory && !Expired(s.memory[st].entry, now))
  {
  }

  // ---- the invariant ----

  // Every copy is of the entry as issued.
  predicate Inv(s: System) {
    && (forall st :: st in s.redis ==> st < |s.issued| && s.redis[st] == s.issued[st])
    && (forall st :: st in s.memory ==> st < |s.issued| && s.memory[st].entry == s.issued[st])
    && (forall st :: st in s.pending ==> st < |s.issued|)
  }

  lemma NextKeepsInv(s: System, step: Step)
    requires Inv(s)
    ensures Inv(Next(s, step))
  {
  }

  lemma {:induction false} RunKeepsInv(s: System, steps: seq<Step>)
    requires Inv(s)
    ensures Inv(Run(s, steps)) && s.issued <= Run(s, steps).issued
    decreases steps
  {
    if steps != [] {
      NextKeepsInv(s, steps[0]);
      RunKeepsInv(Next(s, steps[0]), steps[1..]);
    }
  }

  // What is accepted is what was issued, provider and PKCE verifier included,
  // and at most ten minutes old.
  lemma AcceptedAsIssued(prefix: seq<Step>, issue: Step, middle: seq<Step>, step: Step)
    requires issue.Issue?
    ensures var s := Run(EMPTY, prefix);
            var s' := Run(Next(s, issue), middle);
            ReplyTo(s', step).Accepted? && ReplyTo(s', step).state == |s.issued| ==>
              && ReplyTo(s', step).entry == Entry(issue.provider, issue.verifier, issue.at + TTL)
              && step.at <= issue.at + TTL
  {
    RunKeepsInv(EMPTY, prefix);
    var s := Run(EMPTY, prefix);
    NextKeepsInv(s, issue);
    RunKeepsInv(Next(s, issue), middle);
  }

  // ---- single use ----

  function Copies(s: System, st: StateId): nat {
    (if st in s.redis then 1 else 0) + (if st in s.memory then 1 else 0)
  }

  function Coming(s: System, st: StateId): nat {
    s.pending[st]
  }

  function Landings(steps: seq<Step>, st: StateId): nat {
    if steps == [] then 0 else (if steps[0].Land? && steps[0].state == st then 1 else 0) + Landings(steps[1..], st)
  }

  // An accept uses up a copy, and no copy of an issued state is ever made but
  // by a SetEX that was pending.
  lemma {:induction false} AcceptsUseCopies(s: System, steps: seq<Step>, st: StateId)
    requires st < |s.issued|
    ensures Accepts(s, steps, st) + Copies(Run(s, steps), st) + Coming(Run(s, steps), st) <= Copies(s, st) + Coming(s, st)
    decreases steps
  {
    if steps != [] {
      StepUsesCopies(s, steps[0], st);
      AcceptsUseCopies(Next(s, steps[0]), steps[1..], st);
    }
  }

  lemma StepUsesCopies(s: System, step: Step, st: StateId)
    requires st < |s.issued|
    ensures var used := if ReplyTo(s, step).Accepted? && ReplyTo(s, step).state == st then 1 else 0;
            && used + Copies(Next(s, step), st) + Coming(Next(s, step), st) <= Copies(s, st) + Coming(s, st)
            && used + Copies(Next(s, step), st) <= Copies(s, st) + if step.Land? && step.state == st then 1 else 0
  {
  }

  lemma {:induction false} LandingsAddCopies(s: System, steps: seq<Step>, st: StateId)
    requires st < |s.issued|
    ensures Accepts(s, steps, st) + Copies(Run(s, steps), st) <= Copies(s, st) + Landings(steps, st)
    decreases steps
  {
    if steps != [] {
      StepUsesCopies(s, steps[0], st);
      LandingsAddCopies(Next(s, steps[0]), steps[1..], st);
    }
  }

  lemma {:induction false} NotAcceptedBeforeIssue(s: System, steps: seq<Step>, st: StateId)
    requires Inv(s) && |Run(s, steps).issued| <= st
    ensures Accepts(s, steps, st) == 0
    decreases steps
  {
    if steps != [] {
      NextKeepsInv(s, steps[0]);
      RunKeepsInv(Next(s, steps[0]), steps[1..]);
      NotAcceptedBeforeIssue(Next(s, steps[0]), steps[1..], st);
    }
  }

  function Min(a: nat, b: nat): nat { if a < b then a else b }

  // In every run, a state is accepted never before its issue and then at most
  // once, and once more for each SetEX that stored it unknown to the caller: the
  // one that seemed to fail, and those that landed late. With two attempts that
  // makes three at most.
  lemma AcceptedAtMostOnce(prefix: seq<Step>, issue: Step, steps: seq<Step>)
    requires issue.Issue?
    ensures var s := Run(EMPTY, prefix);
            var st := |s.issued|;
            var accepts := Accepts(Next(s, issue), steps, st);
            && Accepts(EMPTY, prefix, st) == 0
            && accepts <= 1 + (if issue.setEX.Unconfirmed? && issue.setEX.done then 1 else 0)
                            + Min(Late(issue.setEX), Landings(steps, st))
            && (TwoAttempts(issue.setEX) ==> accepts <= 3)
  {
    var s := Run(EMPTY, prefix);
    RunKeepsInv(EMPTY, prefix);
    NotAcceptedBeforeIssue(EMPTY, prefix, |s.issued|);
    AcceptsUseCopies(Next(s, issue), steps, |s.issued|);
    LandingsAddCopies(Next(s, issue), steps, |s.issued|);
    assert |s.issued| !in s.pending && |s.issued| !in s.redis && |s.issued| !in s.memory;
  }

  // Nothing is accepted once the entry has expired.
  lemma {:induction false} NothingAfterExpiry(s: System, t: Instant, steps: seq<Step>, st: StateId)
    requires Inv(s) && st < |s.issued| && Expired(s.issued[st], t) && Ordered(t, steps)
    ensures Accepts(s, steps, st) == 0
    decreases steps
  {
    if steps != [] {
      NextKeepsInv(s, steps[0]);
      NothingAfterExpiry(Next(s, steps[0]), steps[0].at, steps[1..], st);
    }
  }

  // Some handler is not in use.
  function FreeHandler(flights: map<HandlerId, Flight>): (h: HandlerId)
    ensures h !in flights
  {
    FreeAbove(flights.Keys, 0)
  }

  function FreeAbove(used: set<HandlerId>, h: HandlerId): (r: HandlerId)
    ensures r !in used && h <= r
    decreases |used - set k | k in used && k < h|
  {
    if h !in used then h
    else
      assert (used - set k | k in used && k < h + 1) == (used - set k | k in used && k < h) - {h};
      FreeAbove(used, h + 1)
  }

  // One use of every copy: in Redis, then each that lands late, then in memory.
  lemma {:induction false} UseAll(s: System, t: Instant, st: StateId, land: bool) returns (steps: seq<Step>)
    requires Inv(s) && st < |s.issued| && !Expired(s.issued[st], t)
    ensures Ordered(t, steps)
    ensures Accepts(s, steps, st) == Copies(s, st) + if land then Coming(s, st) else 0
    ensures !land ==> Landings(steps, st) == 0
    decreases 2 * Coming(s, st) + Copies(s, st)
  {
    var h := FreeHandler(s.flights);
    if st in s.redis {
      steps := UseThen(s, t, st, land, AskRedis(t, h, 0, st, Answered));
    } else if land && s.pending[st] > 0 {
      steps := UseThen(s, t, st, land, Land(t, st));
    } else if st in s.memory {
      var ask, mem := AskRedis(t, h, s.memory[st].pod, st, Skipped), AskMemory(t, h);
      NextKeepsInv(s, ask);
      NextKeepsInv(Next(s, ask), mem);
      var rest := UseAll(Next(Next(s, ask), mem), t, st, land);
      steps := [ask] + ([mem] + rest);
      assert steps[1..] == [mem] + rest && ([mem] + rest)[1..] == rest;
      assert Ordered(t, [mem] + rest);
      assert Accepts(Next(s, ask), [mem] + rest, st) == 1 + Accepts(Next(Next(s, ask), mem), rest, st);
    } else {
      steps := [];
    }
  }

  lemma {:induction false} UseThen(s: System, t: Instant, st: StateId, land: bool, step: Step)
    returns (steps: seq<Step>)
    requires Inv(s) && st < |s.issued| && !Expired(s.issued[st], t)
    requires var h := FreeHandler(s.flights);
             || (st in s.redis && step == AskRedis(t, h, 0, st, Answered))
             || (land && st !in s.redis && s.pending[st] > 0 && step == Land(t, st))
    ensures Ordered(t, steps)
    ensures Accepts(s, steps, st) == Copies(s, st) + if land then Coming(s, st) else 0
    ensures !land ==> Landings(steps, st) == 0
    decreases 2 * Coming(s, st) + Copies(s, st), 0
  {
    NextKeepsInv(s, step);
    var rest := UseAll(Next(s, step), t, st, land);
    steps := [step] + rest;
    assert steps[1..] == rest;
  }

  // From any state of the system: k more accepts are possible exactly when there
  // are k copies, in Redis, in the memory of a pod, or on their way to Redis, and
  // the state has not expired.
  lemma AcceptableIff(s: System, t: Instant, st: StateId, k: nat)
    requires Inv(s) && st < |s.issued| && k > 0
    ensures (exists steps :: Ordered(t, steps) && Accepts(s, steps, st) >= k)
            <==> Copies(s, st) + Coming(s, st) >= k && !Expired(s.issued[st], t)
    ensures (exists steps :: Ordered(t, steps) && Landings(steps, st) == 0 && Accepts(s, steps, st) >= k)
            <==> Copies(s, st) >= k && !Expired(s.issued[st], t)
  {
    forall steps | Ordered(t, steps) && Accepts(s, steps, st) >= k
      ensures Copies(s, st) + Coming(s, st) >= k && !Expired(s.issued[st], t)
      ensures Landings(steps, st) == 0 ==> Copies(s, st) >= k
    {
      AcceptsUseCopies(s, steps, st);
      LandingsAddCopies(s, steps, st);
      if Expired(s.issued[st], t) {
        NothingAfterExpiry(s, t, steps, st);
      }
    }
    if !Expired(s.issued[st], t) {
      var all := UseAll(s, t, st, true);
      var stored := UseAll(s, t, st, false);
    }
  }

  // A state just issued can be accepted k times exactly when there are k of
  // these: the copy that the caller knows of, the one a SetEX stored that seemed
  // to fail, and those that may land late.
  lemma IssuedAcceptableIff(s: System, issue: Step, k: nat)
    requires Inv(s) && issue.Issue? && k > 0
    ensures var st, issued, setEX := |s.issued|, Next(s, issue), issue.setEX;
            var stored := 1 + if setEX.Unconfirmed? && setEX.done then 1 else 0;
            && ((exists steps :: Ordered(issue.at, steps) && Accepts(issued, steps, st) >= k)
                <==> stored + Late(setEX) >= k)
            && ((exists steps :: Ordered(issue.at, steps) && Landings(steps, st) == 0 && Accepts(issued, steps, st) >= k)
                <==> stored >= k)
  {
    NextKeepsInv(s, issue);
    AcceptableIff(Next(s, issue), issue.at, |s.issued|, k);
    assert |s.issued| !in s.pending && |s.issued| !in s.redis && |s.issued| !in s.memory;
  }

  // ---- the honest use ----

  // The first use, with nothing in between, is accepted exactly when it comes
  // within ten minutes and either Redis has the state and answers, or the state
  // fell back to memory and the callback reaches the pod that issued it.
  lemma FirstUseAcceptedIff(s: System, issue: Step, at: Instant, handler: HandlerId, pod: PodId, getDel: Command)
    requires Inv(s) && issue.Issue? && handler !in s.flights
    ensures var st, issued := |s.issued|, Next(s, issue);
            var use := [AskRedis(at, handler, pod, st, getDel), AskMemory(at, handler)];
            Accepts(issued, use, st) == 1
            <==> at <= issue.at + TTL
                 && ((Stores(issue.setEX) && getDel.Answered?) || (!issue.setEX.Confirmed? && pod == issue.pod))
  {
    var st, issued := |s.issued|, Next(s, issue);
    NextKeepsInv(s, issue);
    var ask, mem := AskRedis(at, handler, pod, st, getDel), AskMemory(at, handler);
    assert [ask, mem][1..] == [mem] && [mem][1..] == [];
    var s1 := Next(issued, ask);
    assert Accepts(s1, [mem], st) == if ReplyTo(s1, mem).Accepted? && ReplyTo(s1, mem).state == st then 1 else 0;
  }

  // ---- a state keeps until it is used or lost ----

  // The step neither asks for the state, nor loses what holds it.
  predicate Spares(s: System, step: Step, st: StateId) {
    match step
    case AskRedis(_, _, _, asked, getDel) => asked != st || getDel == Skipped
    case AskMemory(_, handler) => handler in s.flights ==> s.flights[handler].state != st
    case Evict(_, evicted) => evicted != st
    case Restart(_, pod) => st in s.memory ==> s.memory[st].pod != pod
    case _ => true
  }

  predicate AllSpare(s: System, steps: seq<Step>, st: StateId)
    decreases steps
  {
    steps == [] || (Spares(s, steps[0], st) && AllSpare(Next(s, steps[0]), steps[1..], st))
  }

  predicate AllBy(steps: seq<Step>, last: Instant) {
    forall i :: 0 <= i < |steps| ==> steps[i].at <= last
  }

  lemma StepSpares(s: System, step: Step, st: StateId)
    requires Inv(s) && st < |s.issued| && Spares(s, step, st) && step.at <= s.issued[st].expiresAt
    ensures var s' := Next(s, step);
            && (st in s.redis ==> st in s'.redis)
            && (st in s.memory ==> st in s'.memory && s'.memory[st] == s.memory[st])
            && st < |s'.issued| && s'.issued[st] == s.issued[st]
  {
  }

  // Until its expiry, issues on any pod, other states' callbacks and everything
  // else that is not aimed at it leave a state where it is.
  lemma {:induction false} StateKeeps(s: System, steps: seq<Step>, st: StateId)
    requires Inv(s) && st < |s.issued| && AllSpare(s, steps, st) && AllBy(steps, s.issued[st].expiresAt)
    ensures var s' := Run(s, steps);
            && (st in s.redis ==> st in s'.redis)
            && (st in s.memory ==> st in s'.memory && s'.memory[st] == s.memory[st])
            && st < |s'.issued| && s'.issued[st] == s.issued[st] && Inv(s')
    decreases steps
  {
    if steps != [] {
      assert steps[0].at <= s.issued[st].expiresAt;
      assert forall i :: 0 <= i < |steps| - 1 ==> steps[1..][i] == steps[i + 1];
      StepSpares(s, steps[0], st);
      NextKeepsInv(s, steps[0]);
      StateKeeps(Next(s, steps[0]), steps[1..], st);
    }
  }

  // The use of a state within ten minutes of its issue, whatever came between
  // that was not aimed at it: accepted by Redis if it was stored there and Redis
  // answers, or by the pod that issued it if SetEX was not confirmed.
  lemma LaterUseAccepted(s: System, issue: Step, middle: seq<Step>, at: Instant, handler: HandlerId, pod: PodId,
                         getDel: Command)
    requires Inv(s) && issue.Issue? && at <= issue.at + 10 * 60 * 1_000_000_000
    requires AllSpare(Next(s, issue), middle, |s.issued|) && AllBy(middle, issue.at + 10 * 60 * 1_000_000_000)
    requires handler !in Run(Next(s, issue), middle).flights
    requires (Stores(issue.setEX) && getDel == Answered) || (!issue.setEX.Confirmed? && pod == issue.pod)
    ensures var before := Run(Next(s, issue), middle);
            var ask := AskRedis(at, handler, pod, |s.issued|, getDel);
            var entry := Entry(issue.provider, issue.verifier, issue.at + 10 * 60 * 1_000_000_000);
            || ReplyTo(before, ask) == Accepted(|s.issued|, entry)
            || ReplyTo(Next(before, ask), AskMemory(at, handler)) == Accepted(|s.issued|, entry)
  {
    NextKeepsInv(s, issue);
    StateKeeps(Next(s, issue), middle, |s.issued|);
  }

  // Consuming uses a state up: Redis no longer has it, or the pod does not.
  lemma UseIsUsedUp(s: System, at: Instant, handler: HandlerId, pod: PodId, st: StateId)
    ensures handler !in s.flights && st in s.redis ==> st !in Next(s, AskRedis(at, handler, pod, st, Answered)).redis
    ensures handler in s.flights && s.flights[handler] == Flight(pod, st) && st in s.memory && s.memory[st].pod == pod ==>
              st !in Next(s, AskMemory(at, handler)).memory
  {
  }
}
