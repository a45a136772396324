// Account lockout: the failure counter on the user row
// (server/internal/auth/lockout.go, server/internal/httpapi/auth_login.go) and
// the handlers that share it.
module Lockout {
  import opened Wrappers
  import L = Limiter

  type Instant = int  // nanoseconds since the epoch

  const MAX_FAILED_LOGIN_ATTEMPTS: nat := 10
  const LOCKOUT_DURATION: nat := 30 * 60 * 1_000_000_000

  // failed_login_attempts, locked_until
  datatype Counter = Counter(failed: nat, lockedUntil: Option<Instant>)

  predicate IsLocked(c: Counter, now: Instant) {
    c.lockedUntil.Some? && c.lockedUntil.value > now
  }

  // The CASE expressions of recordLoginFailure.
  function RecordFailure(c: Counter, now: Instant): Counter {
    Counter(
      if c.failed + 1 >= MAX_FAILED_LOGIN_ATTEMPTS then 0 else c.failed + 1,
      if c.failed + 1 >= MAX_FAILED_LOGIN_ATTEMPTS then Some(now + LOCKOUT_DURATION) else c.lockedUntil)
  }

  const CLEARED := Counter(0, None)

  // ---- the handlers ----

  // The columns of the user row that Login consults.
  datatype Policy = Policy(
    requiresClientCert: bool, restrictsIp: bool, disabled: bool,
    hasTotp: bool, totpRequired: bool, mustChangePassword: bool)

  // What the request brings: `code` is None without a TOTP code, otherwise
  // whether it is right.
  datatype Factors = Factors(
    certOk: bool, ipAllowed: bool, passwordOk: bool, trustedDevice: bool, code: Option<bool>)

  datatype Verdict =
    | Refused
    | WrongFactor
    | SessionIssued(mustSetupTotp: bool)
    | Done

  function LoginVerdict(p: Policy, f: Factors, locked: bool): Verdict {
    if p.requiresClientCert && !f.certOk then Refused
    else if p.restrictsIp && !f.ipAllowed then Refused
    else if p.disabled then Refused
    else if locked then Refused
    else if !f.passwordOk then WrongFactor
    else if !p.hasTotp && p.totpRequired then SessionIssued(!p.mustChangePassword)
    else if p.hasTotp && !f.trustedDevice then
      if f.code.None? then Refused
      else if !f.code.value then WrongFactor
      else SessionIssued(false)
    else SessionIssued(false)
  }

  // ConfirmPassword stands for TOTPDisable and InitKeypair, which check the
  // current password and touch the counter only when it is wrong.
  datatype Call =
    | Login(policy: Policy, factors: Factors)
    | BootstrapLogin(disabled: bool, passwordOk: bool, isAdmin: bool)
    | RecoverInit(codeOk: bool)
    | ChangePassword(passwordOk: bool)
    | ConfirmPassword(passwordOk: bool)
    | RecoverComplete
    | SsoLogin

  // The endpoints that look at locked_until first.
  predicate IsGated(call: Call) {
    call.Login? || call.BootstrapLogin? || call.RecoverInit?
  }

  function VerdictOf(c: Counter, now: Instant, call: Call): Verdict {
    match call
    case Login(policy, factors) => LoginVerdict(policy, factors, IsLocked(c, now))
    case BootstrapLogin(disabled, passwordOk, isAdmin) =>
      if disabled || IsLocked(c, now) then Refused
      else if !passwordOk then WrongFactor
      else if !isAdmin then Refused
      else SessionIssued(false)
    case RecoverInit(codeOk) =>
      if IsLocked(c, now) then Refused else if codeOk then Done else WrongFactor
    case ChangePassword(passwordOk) => if passwordOk then Done else WrongFactor
    case ConfirmPassword(passwordOk) => if passwordOk then Done else WrongFactor
    case RecoverComplete => Done
    case SsoLogin => SessionIssued(false)
  }

  predicate Clears(call: Call, verdict: Verdict) {
    verdict.SessionIssued? || (verdict.Done? && (call.ChangePassword? || call.RecoverComplete?))
  }

  function Handle(c: Counter, now: Instant, call: Call): Counter {
    var verdict := VerdictOf(c, now, call);
    if verdict.WrongFactor? then RecordFailure(c, now)
    else if Clears(call, verdict) then CLEARED
    else c
  }

  // ---- the handlers in the source's imperative form ----

  class Account {
    var failedAttempts: nat
    var lockedUntil: Option<Instant>
    const policy: Policy

    ghost function State(): Counter
      reads this
    {
      Counter(failedAttempts, lockedUntil)
    }

    constructor (policy: Policy)
      ensures State() == CLEARED && this.policy == policy
    {
      failedAttempts, lockedUntil := 0, None;
      this.policy := policy;
    }

    method RecordLoginFailure(now: Instant)
      modifies this
      ensures State() == RecordFailure(old(State()), now)
    {
      if failedAttempts + 1 >= MAX_FAILED_LOGIN_ATTEMPTS {
        failedAttempts, lockedUntil := 0, Some(now + LOCKOUT_DURATION);
      } else {
        failedAttempts := failedAttempts + 1;
      }
    }

    method RecordLoginSuccess()
      modifies this
      ensures State() == CLEARED
    {
      failedAttempts, lockedUntil := 0, None;
    }

    method Login(f: Factors, now: Instant) returns (verdict: Verdict)
      modifies this
      ensures verdict == VerdictOf(old(State()), now, Call.Login(policy, f))
      ensures State() == Handle(old(State()), now, Call.Login(policy, f))
    {
      if policy.requiresClientCert && !f.certOk { return Refused; }
      if policy.restrictsIp && !f.ipAllowed { return Refused; }
      if policy.disabled { return Refused; }
      if lockedUntil.Some? && lockedUntil.value > now { return Refused; }
      if !f.passwordOk {
        RecordLoginFailure(now);
        return WrongFactor;
      }
      if !policy.hasTotp && policy.totpRequired {
        RecordLoginSuccess();
        return SessionIssued(!policy.mustChangePassword);
      }
      if policy.hasTotp && !f.trustedDevice {
        if f.code.None? { return Refused; }
        if !f.code.value {
          RecordLoginFailure(now);
          return WrongFactor;
        }
      }
      RecordLoginSuccess();
      return SessionIssued(false);
    }

    method RecoverInit(codeOk: bool, now: Instant) returns (verdict: Verdict)
      modifies this
      ensures verdict == VerdictOf(old(State()), now, Call.RecoverInit(codeOk))
      ensures State() == Handle(old(State()), now, Call.RecoverInit(codeOk))
    {
      if lockedUntil.Some? && lockedUntil.value > now { return Refused; }
      if !codeOk {
        RecordLoginFailure(now);
        return WrongFactor;
      }
      return Done;
    }

    method BootstrapLogin(disabled: bool, passwordOk: bool, isAdmin: bool, now: Instant) returns (verdict: Verdict)
      modifies this
      ensures verdict == VerdictOf(old(State()), now, Call.BootstrapLogin(disabled, passwordOk, isAdmin))
      ensures State() == Handle(old(State()), now, Call.BootstrapLogin(disabled, passwordOk, isAdmin))
    {
      if disabled { return Refused; }
      if lockedUntil.Some? && lockedUntil.value > now { return Refused; }
      if !passwordOk {
        RecordLoginFailure(now);
        return WrongFactor;
      }
      if !isAdmin { return Refused; }
      RecordLoginSuccess();
      return SessionIssued(false);
    }

    method ChangePassword(passwordOk: bool, now: Instant) returns (verdict: Verdict)
      modifies this
      ensures verdict == VerdictOf(old(State()), now, Call.ChangePassword(passwordOk))
      ensures State() == Handle(old(State()), now, Call.ChangePassword(passwordOk))
    {
      if !passwordOk {
        RecordLoginFailure(now);
        return WrongFactor;
      }
      failedAttempts, lockedUntil := 0, None;
      return Done;
    }
  }

  // ---- who gets a session ----

  // A session is issued exactly when every gate passes, the password is right,
  // and an enrolled TOTP factor is met by a right code or a trusted device. In
  // particular nothing but `disabled` is asked of the account's status.
  lemma LoginSucceedsIff(c: Counter, now: Instant, p: Policy, f: Factors)
    ensures VerdictOf(c, now, Login(p, f)).SessionIssued? <==>
            && (p.requiresClientCert ==> f.certOk)
            && (p.restrictsIp ==> f.ipAllowed)
            && !p.disabled && !IsLocked(c, now) && f.passwordOk
            && (p.hasTotp ==> f.trustedDevice || f.code == Some(true))
    ensures Handle(c, now, Login(p, f)) == RecordFailure(c, now) && c != RecordFailure(c, now) ==>
            !IsLocked(c, now)
  {
  }

  // ---- what is counted, what locks, and what a lock does ----

  // The gates before the password let the request through.
  predicate GatesOpen(p: Policy, f: Factors) {
    (p.requiresClientCert ==> f.certOk) && (p.restrictsIp ==> f.ipAllowed) && !p.disabled
  }

  // A wrong password, or a wrong TOTP code where one is asked for; or a wrong
  // password or recovery code elsewhere.
  predicate WrongGuess(call: Call) {
    match call
    case Login(p, f) =>
      GatesOpen(p, f) && (!f.passwordOk || (p.hasTotp && !f.trustedDevice && f.code == Some(false)))
    case BootstrapLogin(disabled, passwordOk, _) => !disabled && !passwordOk
    case RecoverInit(codeOk) => !codeOk
    case ChangePassword(passwordOk) => !passwordOk
    case ConfirmPassword(passwordOk) => !passwordOk
    case _ => false
  }

  // These start the count afresh.
  predicate Proves(call: Call) {
    match call
    case Login(p, f) => GatesOpen(p, f) && f.passwordOk && (p.hasTotp ==> f.trustedDevice || f.code == Some(true))
    case BootstrapLogin(disabled, passwordOk, isAdmin) => !disabled && passwordOk && isAdmin
    case ChangePassword(passwordOk) => passwordOk
    case RecoverComplete => true
    case SsoLogin => true
    case _ => false
  }

  predicate AsksForLock(call: Call) {
    call.Login? || call.BootstrapLogin? || call.RecoverInit?
  }

  predicate Locked(c: Counter, now: Instant) {
    c.lockedUntil.Some? && now < c.lockedUntil.value
  }

  // Every call in every state: a wrong guess that gets past the lock is counted,
  // the tenth locks for thirty minutes and starts from zero; a proof that gets
  // past it clears both columns; nothing else changes them.
  lemma CallCounts(c: Counter, now: Instant, call: Call)
    requires c.failed < 10
    ensures Handle(c, now, call)
            == if AsksForLock(call) && Locked(c, now) then c
               else if WrongGuess(call) then
                 if c.failed == 9 then Counter(0, Some(now + 30 * 60 * 1_000_000_000))
                 else Counter(c.failed + 1, c.lockedUntil)
               else if Proves(call) then Counter(0, None)
               else c
  {
  }

  // While locked, every gated endpoint refuses, the right password included.
  lemma LockRefuses(c: Counter, now: Instant, call: Call)
    requires AsksForLock(call) && Locked(c, now)
    ensures VerdictOf(c, now, call) == Refused && Handle(c, now, call) == c
  {
  }

  // Not locked, a wrong guess is told apart from a proof, and a proof gets its
  // session or is done.
  lemma UnlockedAnswers(c: Counter, now: Instant, call: Call)
    requires !(AsksForLock(call) && Locked(c, now))
    ensures VerdictOf(c, now, call) == WrongFactor <==> WrongGuess(call)
    ensures Proves(call) ==> VerdictOf(c, now, call).SessionIssued? || VerdictOf(c, now, call) == Done
    ensures call.RecoverInit? && call.codeOk ==> VerdictOf(c, now, call) == Done
    ensures call.Login? && Proves(call) && (call.policy.hasTotp || !call.policy.totpRequired) ==>
              VerdictOf(c, now, call) == SessionIssued(false)
    ensures call.Login? && Proves(call) && !call.policy.hasTotp && call.policy.totpRequired ==>
              VerdictOf(c, now, call) == SessionIssued(!call.policy.mustChangePassword)
  {
  }

  // ---- refinement of the limiter ----

  function Abs(c: Counter): L.State {
    L.State(c.failed, if c.lockedUntil.Some? then c.lockedUntil.value else 0)
  }

  // What a call is to the limiter: a failed attempt, a clearing, or nothing.
  function EventsOf(c: Counter, now: Instant, call: Call): seq<L.Event> {
    var verdict := VerdictOf(c, now, call);
    if verdict.WrongFactor? then [L.Try(IsGated(call), now, now)]
    else if Clears(call, verdict) then [L.Clear(now)]
    else []
  }

  lemma HandleRefines(c: Counter, now: Instant, call: Call)
    requires 0 <= now
    ensures Abs(Handle(c, now, call)) ==
            L.Run(Abs(c), EventsOf(c, now, call), MAX_FAILED_LOGIN_ATTEMPTS, LOCKOUT_DURATION)
    ensures VerdictOf(c, now, call).WrongFactor? && IsGated(call) ==>
              !L.Blocked(Abs(c), L.Try(true, now, now))
  {
  }

  // ---- runs ----

  datatype Timed = Timed(now: Instant, call: Call)

  predicate InOrder(t: Instant, calls: seq<Timed>)
    decreases calls
  {
    calls == [] || (t <= calls[0].now && InOrder(calls[0].now, calls[1..]))
  }

  function RunCalls(c: Counter, calls: seq<Timed>): Counter
    decreases calls
  {
    if calls == [] then c else RunCalls(Handle(c, calls[0].now, calls[0].call), calls[1..])
  }

  // Wrong-factor attempts recorded by the lockout-gated endpoints.
  function GatedFailures(c: Counter, calls: seq<Timed>): nat
    decreases calls
  {
    if calls == [] then 0
    else
      (if IsGated(calls[0].call) && VerdictOf(c, calls[0].now, calls[0].call).WrongFactor? then 1 else 0)
      + GatedFailures(Handle(c, calls[0].now, calls[0].call), calls[1..])
  }

  predicate NoneClears(c: Counter, calls: seq<Timed>)
    decreases calls
  {
    calls == [] ||
    (&& !Clears(calls[0].call, VerdictOf(c, calls[0].now, calls[0].call))
     && NoneClears(Handle(c, calls[0].now, calls[0].call), calls[1..]))
  }

  function RunEvents(c: Counter, calls: seq<Timed>): seq<L.Event>
    decreases calls
  {
    if calls == [] then []
    else EventsOf(c, calls[0].now, calls[0].call)
         + RunEvents(Handle(c, calls[0].now, calls[0].call), calls[1..])
  }

  lemma {:induction false} OrderedFromEarlier(t: Instant, t': Instant, events: seq<L.Event>)
    requires t <= t' && L.Ordered(t', events)
    ensures L.Ordered(t, events)
    ensures events == [] || L.LastEnd(t, events) == L.LastEnd(t', events)
  {
  }

  lemma {:induction false} RunRefines(c: Counter, t: Instant, calls: seq<Timed>, last: Instant)
    requires 0 <= t && InOrder(t, calls)
    requires forall i :: 0 <= i < |calls| ==> calls[i].now <= last
    ensures var events, n, d := RunEvents(c, calls), MAX_FAILED_LOGIN_ATTEMPTS, LOCKOUT_DURATION;
            && Abs(RunCalls(c, calls)) == L.Run(Abs(c), events, n, d)
            && GatedFailures(c, calls) == L.Passed(Abs(c), events, n, d)
            && L.Ordered(t, events) && L.BeginBy(events, last)
            && (t <= last ==> L.LastEnd(t, events) <= last)
            && (NoneClears(c, calls) ==> L.NoClear(events))
    decreases calls
  {
    if calls != [] {
      var now, call, rest := calls[0].now, calls[0].call, calls[1..];
      var c' := Handle(c, now, call);
      HandleRefines(c, now, call);
      RunRefines(c', now, rest, last);
      var head, tail := EventsOf(c, now, call), RunEvents(c', rest);
      if head == [] {
        assert head + tail == tail;
        OrderedFromEarlier(t, now, tail);
      } else {
        assert (head + tail)[1..] == tail && head[1..] == [];
      }
    }
  }

  // In any `window` of any run in which nothing clears the counter, the gated
  // endpoints record at most 10 * (window / 30 min + 1) wrong factors, however
  // often the ungated endpoints add failures of their own; and the stored
  // counter is always below 10.
  lemma LockoutBound(prefix: seq<Timed>, calls: seq<Timed>, from: Instant, window: nat)
    requires InOrder(0, prefix) && 0 <= from && forall i :: 0 <= i < |prefix| ==> prefix[i].now <= from
    requires InOrder(from, calls) && forall i :: 0 <= i < |calls| ==> calls[i].now <= from + window
    requires NoneClears(RunCalls(CLEARED, prefix), calls)
    ensures GatedFailures(RunCalls(CLEARED, prefix), calls)
            <= MAX_FAILED_LOGIN_ATTEMPTS * (window / LOCKOUT_DURATION + 1)
    ensures RunCalls(CLEARED, prefix).failed < MAX_FAILED_LOGIN_ATTEMPTS
  {
    RunRefines(CLEARED, 0, prefix, from);
    RunRefines(RunCalls(CLEARED, prefix), from, calls, from + window);
    L.WindowBound(Abs(CLEARED), 0, RunEvents(CLEARED, prefix), RunEvents(RunCalls(CLEARED, prefix), calls),
      from, window, MAX_FAILED_LOGIN_ATTEMPTS, LOCKOUT_DURATION);
  }

  // ---- ten wrong guesses ----

  predicate AllGuess(calls: seq<Timed>) {
    forall i :: 0 <= i < |calls| ==> WrongGuess(calls[i].call)
  }

  // With no lock in force, wrong guesses on any endpoints add up; until there
  // are ten nothing is locked.
  lemma {:induction false} GuessesAddUp(c: Counter, t: Instant, calls: seq<Timed>)
    requires InOrder(t, calls) && AllGuess(calls) && !Locked(c, t) && c.failed + |calls| < 10
    ensures RunCalls(c, calls) == Counter(c.failed + |calls|, c.lockedUntil)
    decreases calls
  {
    if calls != [] {
      assert WrongGuess(calls[0].call);
      assert forall i :: 0 <= i < |calls| - 1 ==> calls[1..][i] == calls[i + 1];
      CallCounts(c, calls[0].now, calls[0].call);
      GuessesAddUp(Handle(c, calls[0].now, calls[0].call), calls[0].now, calls[1..]);
    }
  }

  lemma {:induction false} RunCallsAppend(c: Counter, a: seq<Timed>, b: seq<Timed>)
    ensures RunCalls(c, a + b) == RunCalls(RunCalls(c, a), b)
    decreases a
  {
    if a == [] {
      assert a + b == b;
    } else {
      assert (a + b)[1..] == a[1..] + b;
      RunCallsAppend(Handle(c, a[0].now, a[0].call), a[1..], b);
    }
  }

  lemma {:induction false} InOrderFront(t: Instant, calls: seq<Timed>, n: nat)
    requires InOrder(t, calls) && n < |calls|
    ensures InOrder(t, calls[..n]) && t <= calls[n].now
    ensures n > 0 ==> calls[n - 1].now <= calls[n].now
    decreases calls
  {
    if n > 0 {
      InOrderFront(calls[0].now, calls[1..], n - 1);
      assert calls[..n][1..] == calls[1..][..n - 1];
    }
  }

  // The guess that makes ten locks the account for thirty minutes from then.
  lemma TenGuessesLock(c: Counter, t: Instant, calls: seq<Timed>)
    requires InOrder(t, calls) && AllGuess(calls) && !Locked(c, t) && c.failed + |calls| == 10 && c.failed < 10
    ensures RunCalls(c, calls) == Counter(0, Some(calls[|calls| - 1].now + 30 * 60 * 1_000_000_000))
  {
    var n := |calls| - 1;
    InOrderFront(t, calls, n);
    GuessesAddUp(c, t, calls[..n]);
    assert calls == calls[..n] + [calls[n]];
    RunCallsAppend(c, calls[..n], [calls[n]]);
    assert [calls[n]][1..] == [];
    assert WrongGuess(calls[n].call) && !Locked(c, calls[n].now);
    CallCounts(RunCalls(c, calls[..n]), calls[n].now, calls[n].call);
  }

  // From then on a login, with everything right, is refused for thirty minutes
  // and then succeeds and clears the count.
  lemma LockLastsThirtyMinutes(c: Counter, t: Instant, calls: seq<Timed>, now: Instant, login: Call)
    requires InOrder(t, calls) && AllGuess(calls) && !Locked(c, t) && c.failed + |calls| == 10 && c.failed < 10
    requires login.Login? && Proves(login) && calls[|calls| - 1].now <= now
    ensures var c' := RunCalls(c, calls);
            if now < calls[|calls| - 1].now + 1_800_000_000_000
            then VerdictOf(c', now, login) == Refused && Handle(c', now, login) == c'
            else VerdictOf(c', now, login).SessionIssued? && Handle(c', now, login) == Counter(0, None)
  {
    TenGuessesLock(c, t, calls);
  }
}
