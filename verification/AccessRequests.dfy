// The approval workflow (server/internal/httpapi/access_request_handlers.go).
// Any number of handlers run at once; approving and denying fetch the request
// in one statement and update it in another, and other steps may come between.
module AccessRequests {
  import opened Wrappers

  type Instant = int  // nanoseconds
  type ItemId = nat
  type UserId = nat
  type RequestId = nat  // insertion position
  type HandlerId = nat  // one HTTP request being handled

  const MINUTE: nat := 60 * 1_000_000_000
  const MAX_MINUTES: nat := 1440
  const DEFAULT_MINUTES: nat := 60

  datatype Status = Pending | Approved | Denied | Cancelled | Expired

  datatype Request = Request(item: ItemId, requester: UserId, status: Status, minutes: int,
                             respondedAt: Option<Instant>, expiresAt: Option<Instant>)

  type Table = seq<Request>

  // What a handler remembers between its two statements.
  datatype Flight =
    | Approving(id: RequestId, minutes: int, expiresAt: Instant)
    | Denying(id: RequestId)

  datatype System = System(table: Table, flights: map<HandlerId, Flight>)

  const EMPTY := System([], map[])

  datatype Step =
    | Create(at: Instant, item: ItemId, requester: UserId, minutes: int, mayRead: bool)
    | BeginApprove(at: Instant, handler: HandlerId, id: RequestId, admin: bool, override: Option<int>)
    | BeginDeny(at: Instant, handler: HandlerId, id: RequestId, admin: bool)
    | Finish(at: Instant, handler: HandlerId)  // the conditional UPDATE
    | Abandon(at: Instant, handler: HandlerId) // the UPDATE failed, or the server died
    | Cancel(at: Instant, id: RequestId, requester: UserId)
    | Sweep(at: Instant, item: ItemId, requester: UserId)
    | Check(at: Instant, item: ItemId, requester: UserId)

  datatype Reply =
    | Created(id: RequestId)
    | Conflict
    | NotFound
    | Forbidden
    | Fetched
    | Answered(id: RequestId)
    | Active(yes: bool)
    | Silent

  // ---- the statements ----

  predicate IsPending(t: Table, id: RequestId) {
    id < |t| && t[id].status == Pending
  }

  predicate HasPending(t: Table, item: ItemId, requester: UserId) {
    exists id :: 0 <= id < |t| && t[id].status == Pending && t[id].item == item && t[id].requester == requester
  }

  function RequestedMinutes(asked: int): int {
    var minutes := if asked <= 0 then DEFAULT_MINUTES else asked;
    if minutes > MAX_MINUTES then MAX_MINUTES else minutes
  }

  function ApprovedMinutes(asked: int, override: Option<int>): int {
    var minutes := if override.Some? && override.value > 0 then override.value else asked;
    if minutes > MAX_MINUTES then MAX_MINUTES else minutes
  }

  function Opened(item: ItemId, requester: UserId, asked: int): Request {
    Request(item, requester, Pending, RequestedMinutes(asked), None, None)
  }

  function Answer(r: Request, f: Flight, now: Instant): Request {
    match f
    case Approving(_, minutes, expiresAt) =>
      r.(status := Approved, respondedAt := Some(now), expiresAt := Some(expiresAt), minutes := minutes)
    case Denying(_) => r.(status := Denied, respondedAt := Some(now))
  }

  predicate Stale(r: Request, now: Instant) {
    r.status == Approved && r.expiresAt.Some? && r.expiresAt.value <= now
  }

  function Expire(t: Table, item: ItemId, requester: UserId, now: Instant): (u: Table)
    ensures |u| == |t|
  {
    seq(|t|, i requires 0 <= i < |t| =>
      if t[i].item == item && t[i].requester == requester && Stale(t[i], now)
      then t[i].(status := Expired) else t[i])
  }

  predicate Grants(r: Request, item: ItemId, requester: UserId, now: Instant) {
    r.item == item && r.requester == requester && r.status == Approved && r.expiresAt.Some? && r.expiresAt.value > now
  }

  predicate HasActive(t: Table, item: ItemId, requester: UserId, now: Instant) {
    exists i :: 0 <= i < |t| && Grants(t[i], item, requester, now)
  }

  // ---- one step ----

  function Respond(s: System, step: Step): (System, Reply) {
    match step
    case Create(_, item, requester, minutes, mayRead) =>
      if !mayRead then (s, NotFound)
      else if HasPending(s.table, item, requester) then (s, Conflict)
      else (s.(table := s.table + [Opened(item, requester, minutes)]), Created(|s.table|))
    case BeginApprove(at, handler, id, admin, override) =>
      if handler in s.flights then (s, Silent)
      else if !admin then (s, Forbidden)
      else if !IsPending(s.table, id) then (s, NotFound)
      else
        var minutes := ApprovedMinutes(s.table[id].minutes, override);
        (s.(flights := s.flights[handler := Approving(id, minutes, at + minutes * MINUTE)]), Fetched)
    case BeginDeny(_, handler, id, admin) =>
      if handler in s.flights then (s, Silent)
      else if !admin then (s, Forbidden)
      else if !IsPending(s.table, id) then (s, NotFound)
      else (s.(flights := s.flights[handler := Denying(id)]), Fetched)
    case Finish(at, handler) =>
      if handler !in s.flights then (s, Silent)
      else
        var f := s.flights[handler];
        var s' := s.(flights := s.flights - {handler});
        if !IsPending(s.table, f.id) then (s', Conflict)
        else (s'.(table := s.table[f.id := Answer(s.table[f.id], f, at)]), Answered(f.id))
    case Abandon(_, handler) => (s.(flights := s.flights - {handler}), Conflict)
    case Cancel(at, id, requester) =>
      if !IsPending(s.table, id) || s.table[id].requester != requester then (s, NotFound)
      else
        var r := s.table[id].(status := Cancelled, respondedAt := Some(at));
        (s.(table := s.table[id := r]), Answered(id))
    case Sweep(at, item, requester) => (s.(table := Expire(s.table, item, requester, at)), Silent)
    case Check(at, item, requester) => (s, Active(HasActive(s.table, item, requester, at)))
  }

  function Next(s: System, step: Step): System { Respond(s, step).0 }

  function ReplyTo(s: System, step: Step): Reply { Respond(s, step).1 }

  function Run(s: System, steps: seq<Step>): System
    decreases steps
  {
    if steps == [] then s else Run(Next(s, steps[0]), steps[1..])
  }

  // One clock for the server and its database.
  predicate Ordered(t: Instant, steps: seq<Step>)
    decreases steps
  {
    steps == [] || (t <= steps[0].at && Ordered(steps[0].at, steps[1..]))
  }

  function LastAt(t: Instant, steps: seq<Step>): Instant
    decreases steps
  {
    if steps == [] then t else LastAt(steps[0].at, steps[1..])
  }

  // ---- the handlers in the source's imperative form ----

  class ItemHandlers {
    var table: Table

    constructor ()
      ensures table == []
    {
      table := [];
    }

    method CreateAccessRequest(item: ItemId, requester: UserId, asked: int, mayRead: bool)
      returns (reply: Reply)
      modifies this
      ensures reply.NotFound? <==> !mayRead
      ensures mayRead ==> (reply.Conflict? <==> HasPending(old(table), item, requester))
      ensures mayRead && !reply.Conflict? ==>
                reply == Created(|old(table)|) && table == old(table) + [Opened(item, requester, asked)]
      ensures !reply.Created? ==> table == old(table)
    {
      var minutes := asked;
      if minutes <= 0 { minutes := DEFAULT_MINUTES; }
      if minutes > MAX_MINUTES { minutes := MAX_MINUTES; }
      if !mayRead { return NotFound; }
      if HasPending(table, item, requester) { return Conflict; }
      table := table + [Request(item, requester, Pending, minutes, None, None)];
      return Created(|table| - 1);
    }

    // Everything in ApproveAccessRequest up to the update.
    method FetchForApproval(id: RequestId, override: Option<int>, now: Instant) returns (f: Option<Flight>)
      ensures f.Some? <==> IsPending(table, id)
      ensures f.Some? ==>
                var minutes := ApprovedMinutes(table[id].minutes, override);
                f.value == Approving(id, minutes, now + minutes * MINUTE)
    {
      if id >= |table| || table[id].status != Pending { return None; }
      var minutes := table[id].minutes;
      if override.Some? && override.value > 0 { minutes := override.value; }
      if minutes > MAX_MINUTES { minutes := MAX_MINUTES; }
      return Some(Approving(id, minutes, now + minutes * MINUTE));
    }

    method FetchForDenial(id: RequestId) returns (f: Option<Flight>)
      ensures f.Some? <==> IsPending(table, id)
      ensures f.Some? ==> f.value.Denying? && f.value.id == id
    {
      if id >= |table| || table[id].status != Pending { return None; }
      return Some(Denying(id));
    }

    // UPDATE ... WHERE id = $1 AND status = 'pending', and its row count.
    method UpdatePending(f: Flight, now: Instant) returns (rowsAffected: nat)
      modifies this
      ensures rowsAffected == if IsPending(old(table), f.id) then 1 else 0
      ensures table == if rowsAffected == 1 then old(table)[f.id := Answer(old(table)[f.id], f, now)] else old(table)
    {
      if f.id >= |table| || table[f.id].status != Pending { return 0; }
      table := table[f.id := Answer(table[f.id], f, now)];
      return 1;
    }

    method CancelAccessRequest(id: RequestId, requester: UserId, now: Instant) returns (reply: Reply)
      modifies this
      ensures (System(table, map[]), reply) == Respond(System(old(table), map[]), Cancel(now, id, requester))
    {
      if id >= |table| || table[id].status != Pending || table[id].requester != requester { return NotFound; }
      table := table[id := table[id].(status := Cancelled, respondedAt := Some(now))];
      return Answered(id);
    }

    method HasActiveApproval(item: ItemId, requester: UserId, now: Instant) returns (ok: bool)
      modifies this
      ensures table == Expire(old(table), item, requester, now)
      ensures ok <==> HasActive(old(table), item, requester, now)
    {
      ExpireIsInvisible(table, item, requester, now, item, requester, now);
      table := Expire(table, item, requester, now);
      ok := HasActive(table, item, requester, now);
    }
  }

  // ---- what every run keeps ----

  predicate MayBecome(a: Status, b: Status) {
    a == b || a == Pending || (a == Approved && b == Expired)
  }

  // The fetched expiry lies 1 to 1440 minutes past a time no later than `now`.
  predicate FlightOk(t: Table, f: Flight, now: Instant) {
    && f.id < |t|
    && (f.Approving? ==> 0 < f.minutes <= MAX_MINUTES && f.expiresAt <= now + f.minutes * MINUTE)
  }

  predicate RequestOk(r: Request, now: Instant) {
    && 0 < r.minutes <= MAX_MINUTES
    && (r.status == Pending <==> r.respondedAt.None?)
    && (r.status in {Approved, Expired} <==> r.expiresAt.Some?)
    && (r.respondedAt.Some? ==> r.respondedAt.value <= now)
    && (r.expiresAt.Some? && r.respondedAt.Some? ==>
          r.expiresAt.value <= r.respondedAt.value + r.minutes * MINUTE)
    && (r.status == Expired && r.expiresAt.Some? ==> r.expiresAt.value <= now)
  }

  predicate OnePendingEach(t: Table) {
    forall i, j :: 0 <= i < j < |t| && t[i].status == Pending && t[j].status == Pending ==>
      t[i].item != t[j].item || t[i].requester != t[j].requester
  }

  predicate Inv(s: System, now: Instant) {
    && (forall i :: 0 <= i < |s.table| ==> RequestOk(s.table[i], now))
    && (forall h :: h in s.flights ==> FlightOk(s.table, s.flights[h], now))
    && OnePendingEach(s.table)
  }

  lemma TimesMinute(a: int, b: int)
    requires a <= b
    ensures a * MINUTE <= b * MINUTE
  {
  }

  lemma NextKeepsRows(s: System, now: Instant, step: Step)
    requires Inv(s, now) && now <= step.at
    ensures forall i :: 0 <= i < |Next(s, step).table| ==> RequestOk(Next(s, step).table[i], step.at)
  {
  }

  lemma NextKeepsFlights(s: System, now: Instant, step: Step)
    requires Inv(s, now) && now <= step.at
    ensures var s' := Next(s, step);
            forall h :: h in s'.flights ==> FlightOk(s'.table, s'.flights[h], step.at)
  {
  }

  lemma NextKeepsOnePending(s: System, step: Step)
    requires OnePendingEach(s.table)
    ensures OnePendingEach(Next(s, step).table)
  {
  }

  lemma NextKeepsInv(s: System, now: Instant, step: Step)
    requires Inv(s, now) && now <= step.at
    ensures Inv(Next(s, step), step.at)
  {
    NextKeepsRows(s, now, step);
    NextKeepsFlights(s, now, step);
    NextKeepsOnePending(s, step);
  }

  // No grant outlives its answer by more than 1440 minutes, and no user has
  // two pending requests for an item.
  lemma {:induction false} RunKeepsInv(s: System, now: Instant, steps: seq<Step>)
    requires Inv(s, now) && Ordered(now, steps)
    ensures Inv(Run(s, steps), LastAt(now, steps)) && now <= LastAt(now, steps)
    decreases steps
  {
    if steps != [] {
      NextKeepsInv(s, now, steps[0]);
      RunKeepsInv(Next(s, steps[0]), steps[0].at, steps[1..]);
    }
  }

  lemma GrantsAreShort(now: Instant, steps: seq<Step>, id: RequestId)
    requires Ordered(now, steps)
    ensures var t := Run(EMPTY, steps).table;
            && OnePendingEach(t)
            && (id < |t| && t[id].expiresAt.Some? ==>
                  && t[id].respondedAt.Some?
                  && t[id].expiresAt.value <= t[id].respondedAt.value + MAX_MINUTES * MINUTE)
  {
    RunKeepsInv(EMPTY, now, steps);
    var t := Run(EMPTY, steps).table;
    if id < |t| {
      assert RequestOk(t[id], LastAt(now, steps));
      TimesMinute(t[id].minutes, MAX_MINUTES);
    }
  }

  // ---- statuses only move forward ----

  // An answered request keeps its answer, its expiry and its duration.
  predicate Follows(a: Request, b: Request) {
    && b.item == a.item && b.requester == a.requester
    && MayBecome(a.status, b.status)
    && (a.status != Pending ==>
          b.minutes == a.minutes && b.respondedAt == a.respondedAt && b.expiresAt == a.expiresAt)
  }

  // The only steps there are between statuses.
  predicate Moves(a: Status, b: Status) {
    || a == b
    || (a == Pending && (b == Approved || b == Denied || b == Cancelled))
    || (a == Approved && b == Expired)
  }

  // A step changes the one request it reports as answered, from pending; a
  // sweep changes only stale approvals of its pair; nothing else changes any.
  lemma StepMoves(s: System, step: Step, i: RequestId)
    requires i < |s.table|
    ensures var t' := Next(s, step).table;
            && i < |t'| && Moves(s.table[i].status, t'[i].status)
            && (t'[i] != s.table[i] && !step.Sweep? ==>
                  ReplyTo(s, step) == Answered(i) && s.table[i].status == Pending)
            && (step.Sweep? && t'[i] != s.table[i] ==>
                  Stale(s.table[i], step.at) && s.table[i].item == step.item
                  && s.table[i].requester == step.requester)
  {
  }

  predicate TableFollows(t: Table, u: Table) {
    |t| <= |u| && forall i :: 0 <= i < |t| ==> Follows(t[i], u[i])
  }

  lemma {:induction false} RunFollows(s: System, steps: seq<Step>)
    ensures TableFollows(s.table, Run(s, steps).table)
    decreases steps
  {
    if steps != [] {
      var s' := Next(s, steps[0]);
      assert TableFollows(s.table, s'.table);
      RunFollows(s', steps[1..]);
      assert forall i :: 0 <= i < |s.table| ==> Follows(s.table[i], s'.table[i]);
    }
  }

  // ---- every request is answered at most once ----

  // How often an approve, a deny or a cancel reported success for request `id`.
  function Answers(s: System, steps: seq<Step>, id: RequestId): nat
    decreases steps
  {
    if steps == [] then 0
    else (if ReplyTo(s, steps[0]) == Answered(id) then 1 else 0) + Answers(Next(s, steps[0]), steps[1..], id)
  }

  predicate Settled(t: Table, id: RequestId) {
    id < |t| && t[id].status != Pending
  }

  lemma {:induction false} AnsweredOnceIffSettled(s: System, steps: seq<Step>, id: RequestId)
    ensures Answers(s, steps, id)
            == if Settled(Run(s, steps).table, id) && !Settled(s.table, id) then 1 else 0
    decreases steps
  {
    RunFollows(s, steps);
    if steps != [] {
      var s' := Next(s, steps[0]);
      RunFollows(s', steps[1..]);
      assert Settled(s'.table, id) <==> Settled(s.table, id) || ReplyTo(s, steps[0]) == Answered(id);
      AnsweredOnceIffSettled(s', steps[1..], id);
    }
  }

  // ---- the sweep is invisible ----

  lemma ExpireIsInvisible(t: Table, item: ItemId, requester: UserId, now: Instant,
                          item': ItemId, requester': UserId, later: Instant)
    requires now <= later
    ensures HasActive(Expire(t, item, requester, now), item', requester', later)
            <==> HasActive(t, item', requester', later)
  {
    var u := Expire(t, item, requester, now);
    assert forall i :: 0 <= i < |t| ==>
        (Grants(u[i], item', requester', later) <==> Grants(t[i], item', requester', later));
  }

  function WithoutSweeps(steps: seq<Step>): seq<Step> {
    if steps == [] then []
    else (if steps[0].Sweep? then [] else [steps[0]]) + WithoutSweeps(steps[1..])
  }

  // What clients see: the replies to everything but the sweeps.
  function Replies(s: System, steps: seq<Step>): seq<Reply>
    decreases steps
  {
    if steps == [] then []
    else (if steps[0].Sweep? then [] else [ReplyTo(s, steps[0])]) + Replies(Next(s, steps[0]), steps[1..])
  }

  // `r` is `u`, perhaps swept.
  predicate Swept(r: Request, u: Request, now: Instant) {
    r == u || (Stale(u, now) && r == u.(status := Expired))
  }

  predicate SweptTable(t: Table, u: Table, now: Instant) {
    |t| == |u| && forall i :: 0 <= i < |t| ==> Swept(t[i], u[i], now)
  }

  lemma SweptHasSameActive(t: Table, u: Table, item: ItemId, requester: UserId, now: Instant)
    requires SweptTable(t, u, now)
    ensures HasActive(t, item, requester, now) <==> HasActive(u, item, requester, now)
  {
  }

  lemma SweptHasSamePending(t: Table, u: Table, item: ItemId, requester: UserId, now: Instant)
    requires SweptTable(t, u, now)
    ensures HasPending(t, item, requester) <==> HasPending(u, item, requester)
  {
  }

  lemma StepKeepsSwept(s: System, u: System, now: Instant, step: Step)
    requires SweptTable(s.table, u.table, now) && s.flights == u.flights && now <= step.at
    ensures var u' := if step.Sweep? then u else Next(u, step);
            SweptTable(Next(s, step).table, u'.table, step.at) && Next(s, step).flights == u'.flights
    ensures !step.Sweep? ==> ReplyTo(s, step) == ReplyTo(u, step)
  {
    assert SweptTable(s.table, u.table, step.at);
    match step
    case Create(_, item, requester, _, _) => SweptHasSamePending(s.table, u.table, item, requester, step.at);
    case Check(_, item, requester) => SweptHasSameActive(s.table, u.table, item, requester, step.at);
    case _ =>
  }

  lemma {:induction false} SimulatesWithoutSweeps(s: System, u: System, now: Instant, steps: seq<Step>)
    requires SweptTable(s.table, u.table, now) && s.flights == u.flights && Ordered(now, steps)
    ensures SweptTable(Run(s, steps).table, Run(u, WithoutSweeps(steps)).table, LastAt(now, steps))
    ensures Replies(s, steps) == Replies(u, WithoutSweeps(steps))
    decreases steps
  {
    if steps != [] {
      var step, rest := steps[0], steps[1..];
      var u' := if step.Sweep? then u else Next(u, step);
      StepKeepsSwept(s, u, now, step);
      SimulatesWithoutSweeps(Next(s, step), u', step.at, rest);
      if !step.Sweep? {
        assert WithoutSweeps(steps) == [step] + WithoutSweeps(rest);
        assert WithoutSweeps(steps)[1..] == WithoutSweeps(rest);
      } else {
        assert WithoutSweeps(steps) == WithoutSweeps(rest);
      }
    }
  }

  // Whenever and however often stale approvals are swept, or not at all, every
  // other statement gives the same reply and the gate the same answer.
  lemma SweepIsInvisible(s: System, now: Instant, steps: seq<Step>, item: ItemId, requester: UserId, later: Instant)
    requires Ordered(now, steps) && LastAt(now, steps) <= later
    ensures Replies(s, steps) == Replies(s, WithoutSweeps(steps))
    ensures HasActive(Run(s, steps).table, item, requester, later)
            <==> HasActive(Run(s, WithoutSweeps(steps)).table, item, requester, later)
  {
    SimulatesWithoutSweeps(s, s, now, steps);
    var t, u := Run(s, steps).table, Run(s, WithoutSweeps(steps)).table;
    assert forall i :: 0 <= i < |t| ==> Swept(t[i], u[i], LastAt(now, steps));
    SweptHasSameActive(t, u, item, requester, later);
  }

  // ---- the gate read off the history ----

  // A successful approval: who may see what until when, and when it was given.
  datatype Grant = Grant(item: ItemId, requester: UserId, at: Instant, expiresAt: Instant)

  function Granted(s: System, step: Step): seq<Grant> {
    if step.Finish? && step.handler in s.flights && s.flights[step.handler].Approving?
       && IsPending(s.table, s.flights[step.handler].id)
    then
      var f := s.flights[step.handler];
      [Grant(s.table[f.id].item, s.table[f.id].requester, step.at, f.expiresAt)]
    else []
  }

  function History(s: System, steps: seq<Step>): seq<Grant>
    decreases steps
  {
    if steps == [] then [] else Granted(s, steps[0]) + History(Next(s, steps[0]), steps[1..])
  }

  predicate GrantCovers(g: Grant, item: ItemId, requester: UserId, now: Instant) {
    g.item == item && g.requester == requester && g.expiresAt > now
  }

  predicate SomeGrant(gs: seq<Grant>, item: ItemId, requester: UserId, now: Instant) {
    exists i :: 0 <= i < |gs| && GrantCovers(gs[i], item, requester, now)
  }

  lemma SomeGrantAppend(a: seq<Grant>, b: seq<Grant>, item: ItemId, requester: UserId, now: Instant)
    ensures SomeGrant(a + b, item, requester, now)
            <==> SomeGrant(a, item, requester, now) || SomeGrant(b, item, requester, now)
  {
    var c := a + b;
    if i :| 0 <= i < |a| && GrantCovers(a[i], item, requester, now) {
      assert GrantCovers(c[i], item, requester, now);
    }
    if i :| 0 <= i < |b| && GrantCovers(b[i], item, requester, now) {
      assert GrantCovers(c[|a| + i], item, requester, now);
    }
  }

  lemma StepActive(s: System, step: Step, item: ItemId, requester: UserId, later: Instant)
    requires step.at <= later
    ensures HasActive(Next(s, step).table, item, requester, later)
            <==> HasActive(s.table, item, requester, later) || SomeGrant(Granted(s, step), item, requester, later)
  {
    var t, u := s.table, Next(s, step).table;
    var changed := if ReplyTo(s, step).Answered? then ReplyTo(s, step).id else |t|;
    assert forall i :: 0 <= i < |t| && i != changed ==>
        (Grants(u[i], item, requester, later) <==> Grants(t[i], item, requester, later));
    assert |t| < |u| ==> |u| == |t| + 1 && !Grants(u[|t|], item, requester, later);
    if Granted(s, step) != [] {
      assert GrantCovers(Granted(s, step)[0], item, requester, later) <==> Grants(u[changed], item, requester, later);
    }
  }

  // The gate is open exactly when some approval was given for the pair that
  // has not yet expired, whatever was swept, denied or cancelled since.
  lemma {:induction false} ActiveIffGranted(s: System, now: Instant, steps: seq<Step>,
                                            item: ItemId, requester: UserId, later: Instant)
    requires Ordered(now, steps) && LastAt(now, steps) <= later
    ensures HasActive(Run(s, steps).table, item, requester, later)
            <==> HasActive(s.table, item, requester, later) || SomeGrant(History(s, steps), item, requester, later)
    decreases steps
  {
    if steps != [] {
      var s', rest := Next(s, steps[0]), steps[1..];
      LastAtIsLast(steps[0].at, rest);
      StepActive(s, steps[0], item, requester, later);
      ActiveIffGranted(s', steps[0].at, rest, item, requester, later);
      SomeGrantAppend(Granted(s, steps[0]), History(s', rest), item, requester, later);
    }
  }

  lemma {:induction false} LastAtIsLast(t: Instant, steps: seq<Step>)
    requires Ordered(t, steps)
    ensures t <= LastAt(t, steps)
    decreases steps
  {
    if steps != [] {
      LastAtIsLast(steps[0].at, steps[1..]);
    }
  }

  // ---- what one approval gives ----

  predicate LeavesAlone(step: Step, handler: HandlerId) {
    (step.Finish? || step.Abandon?) ==> step.handler != handler
  }

  lemma {:induction false} FlightStays(s: System, steps: seq<Step>, handler: HandlerId)
    requires handler in s.flights
    requires forall i :: 0 <= i < |steps| ==> LeavesAlone(steps[i], handler)
    ensures handler in Run(s, steps).flights && Run(s, steps).flights[handler] == s.flights[handler]
    decreases steps
  {
    if steps != [] {
      assert LeavesAlone(steps[0], handler);
      assert forall i :: 0 <= i < |steps| - 1 ==> steps[1..][i] == steps[i + 1];
      FlightStays(Next(s, steps[0]), steps[1..], handler);
    }
  }

  // However the handlers interleave between the two statements of an approval:
  // its update goes through exactly when the request is still pending, and then
  // opens the gate for the asked item and user until the agreed number of
  // minutes after the fetch, not after the request or the update.
  lemma ApprovalOpensGate(s: System, begin: Step, middle: seq<Step>, at: Instant, later: Instant)
    requires begin.BeginApprove? && ReplyTo(s, begin) == Fetched
    requires forall i :: 0 <= i < |middle| ==> LeavesAlone(middle[i], begin.handler)
    ensures var before := Run(Next(s, begin), middle);
            var finish := Finish(at, begin.handler);
            var after := Next(before, finish);
            && begin.id < |s.table| && begin.id < |before.table| && begin.id < |after.table|
            && (ReplyTo(before, finish) == Answered(begin.id) <==> before.table[begin.id].status == Pending)
            && (ReplyTo(before, finish) != Answered(begin.id) ==>
                  ReplyTo(before, finish) == Conflict && after.table == before.table)
            && (ReplyTo(before, finish) == Answered(begin.id) ==>
                  var asked := s.table[begin.id];
                  (Grants(after.table[begin.id], asked.item, asked.requester, later)
                   <==> later < begin.at + ApprovedMinutes(asked.minutes, begin.override) * MINUTE))
  {
    FlightStays(Next(s, begin), middle, begin.handler);
    RunFollows(Next(s, begin), middle);
    var before := Run(Next(s, begin), middle);
    assert Follows(s.table[begin.id], before.table[begin.id]);
  }

  // ---- what each statement does, written out ----

  // A minute is sixty seconds, a request asks for one hour by default and for a
  // day at most, and an approver may set any number of minutes up to a day.
  lemma MinutesAre(asked: int, override: int)
    ensures MINUTE == 60_000_000_000
    ensures RequestedMinutes(asked) == if asked <= 0 then 60 else if asked <= 1440 then asked else 1440
    ensures 0 < asked <= 1440 ==> ApprovedMinutes(asked, None) == asked
    ensures override <= 0 && 0 < asked <= 1440 ==> ApprovedMinutes(asked, Some(override)) == asked
    ensures 0 < override <= 1440 ==> ApprovedMinutes(asked, Some(override)) == override
    ensures override > 1440 ==> ApprovedMinutes(asked, Some(override)) == 1440
  {
  }

  // A readable item without a pending request of the user gets one; nothing
  // else in the system changes, and otherwise nothing at all.
  lemma CreateDoes(s: System, at: Instant, item: ItemId, requester: UserId, asked: int, mayRead: bool)
    ensures var (s', reply) := Respond(s, Create(at, item, requester, asked, mayRead));
            && s'.flights == s.flights
            && (!mayRead ==> reply == NotFound && s' == s)
            && (mayRead && HasPending(s.table, item, requester) ==> reply == Conflict && s' == s)
            && (mayRead && !HasPending(s.table, item, requester) ==>
                  && reply == Created(|s.table|)
                  && |s'.table| == |s.table| + 1 && s'.table[..|s.table|] == s.table
                  && var r := s'.table[|s.table|];
                     && r.item == item && r.requester == requester && r.status == Pending
                     && r.minutes == (if asked <= 0 then 60 else if asked <= 1440 then asked else 1440)
                     && r.respondedAt.None? && r.expiresAt.None?)
  {
  }

  // The first statement of an approval or a denial changes no request: an admin
  // gets hold of a pending one, and nobody else of any.
  lemma BeginDoes(s: System, begin: Step)
    requires (begin.BeginApprove? || begin.BeginDeny?) && begin.handler !in s.flights
    ensures var (s', reply) := Respond(s, begin);
            && s'.table == s.table
            && (reply == Fetched <==> begin.admin && IsPending(s.table, begin.id))
            && (!begin.admin ==> reply == Forbidden)
            && (begin.admin && !IsPending(s.table, begin.id) ==> reply == NotFound)
            && (reply != Fetched ==> s' == s)
            && (reply == Fetched && begin.BeginDeny? ==> s'.flights == s.flights[begin.handler := Denying(begin.id)])
            && (reply == Fetched && begin.BeginApprove? ==>
                  && s'.flights.Keys == s.flights.Keys + {begin.handler}
                  && (forall h :: h in s.flights ==> s'.flights[h] == s.flights[h])
                  && s'.flights[begin.handler].Approving? && s'.flights[begin.handler].id == begin.id)
  {
  }

  // The second changes the one request, and only while it is pending.
  lemma FinishDoes(s: System, at: Instant, handler: HandlerId)
    requires handler in s.flights
    ensures var (s', reply) := Respond(s, Finish(at, handler));
            var id := s.flights[handler].id;
            && handler !in s'.flights && s'.flights == s.flights - {handler}
            && (!IsPending(s.table, id) ==> reply == Conflict && s'.table == s.table)
            && (IsPending(s.table, id) ==>
                  && reply == Answered(id) && |s'.table| == |s.table|
                  && (forall i :: 0 <= i < |s.table| && i != id ==> s'.table[i] == s.table[i])
                  && var r := s'.table[id];
                     && r.item == s.table[id].item && r.requester == s.table[id].requester
                     && r.respondedAt == Some(at)
                     && (s.flights[handler].Denying? ==>
                           r.status == Denied && r.expiresAt == s.table[id].expiresAt && r.minutes == s.table[id].minutes)
                     && (s.flights[handler].Approving? ==>
                           r.status == Approved && r.expiresAt == Some(s.flights[handler].expiresAt)
                           && r.minutes == s.flights[handler].minutes))
  {
  }

  // Cancelling: the requester's own pending request, and no other.
  lemma CancelDoes(s: System, at: Instant, id: RequestId, requester: UserId)
    ensures var (s', reply) := Respond(s, Cancel(at, id, requester));
            var own := IsPending(s.table, id) && s.table[id].requester == requester;
            && s'.flights == s.flights
            && (!own ==> reply == NotFound && s' == s)
            && (own ==>
                  && reply == Answered(id) && |s'.table| == |s.table|
                  && s'.table[id] == s.table[id].(status := Cancelled, respondedAt := Some(at))
                  && forall i :: 0 <= i < |s.table| && i != id ==> s'.table[i] == s.table[i])
  {
  }

  // A sweep expires exactly the approvals of its pair whose time has come.
  lemma SweepDoes(s: System, at: Instant, item: ItemId, requester: UserId, i: RequestId)
    requires i < |s.table|
    ensures var t' := Next(s, Sweep(at, item, requester)).table;
            var r := s.table[i];
            && |t'| == |s.table|
            && t'[i] == (if r.item == item && r.requester == requester && r.status == Approved
                            && r.expiresAt.Some? && r.expiresAt.value <= at
                         then r.(status := Expired) else r)
  {
  }

  // From asking to access: a new request, approved with `override`, opens the
  // gate for exactly that many minutes from the fetch, or for those asked.
  lemma AskedAndApproved(s: System, item: ItemId, requester: UserId, asked: int, handler: HandlerId,
                         override: Option<int>, t0: Instant, t1: Instant, t2: Instant, later: Instant)
    requires !HasPending(s.table, item, requester) && handler !in s.flights && 0 < asked <= 1440
    requires override.Some? ==> override.value <= 1440
    requires !HasActive(s.table, item, requester, later)
    ensures var id := |s.table|;
            var s1 := Next(s, Create(t0, item, requester, asked, true));
            var s2 := Next(s1, BeginApprove(t1, handler, id, true, override));
            var s3 := Next(s2, Finish(t2, handler));
            var minutes := if override.Some? && override.value > 0 then override.value else asked;
            && ReplyTo(s2, Finish(t2, handler)) == Answered(id)
            && (ReplyTo(s3, Check(later, item, requester)) == Active(true) <==> later < t1 + minutes * 60_000_000_000)
            && ReplyTo(s3, Check(later, item, requester)).Active?
  {
    var id := |s.table|;
    var s1 := Next(s, Create(t0, item, requester, asked, true));
    var s2 := Next(s1, BeginApprove(t1, handler, id, true, override));
    var s3 := Next(s2, Finish(t2, handler));
    assert forall i :: 0 <= i < id ==> s3.table[i] == s.table[i];
    assert s3.table[id].status == Approved;
    assert Grants(s3.table[id], item, requester, later) <==> later < s2.flights[handler].expiresAt;
  }
}
