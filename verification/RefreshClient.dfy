// The desktop client's coalesced refresh (client/src/api/client.ts) running
// against the session table, with requests, replies and other actors
// interleaved in any order. Each client step is the code between two awaits.
module RefreshClient {
  import opened Wrappers
  import opened Sessions

  // One refreshOnce() promise: its request is out; it has thrown and the
  // .catch has yet to run; it is settled and the .finally has yet to run; done.
  datatype Progress = Waiting | Rejected | Settled(ok: bool) | Finished(ok: bool)

  // `token` is the refresh token put on the wire, if there was one to send.
  datatype Flight = Flight(token: Option<Token>, progress: Progress)

  // One apiFetch call; `sends` counts how often its request went out.
  datatype Task =
    | Requesting(mayRefresh: bool, sends: nat)
    | Joined(flight: nat, sends: nat)
    | Returned(ok: bool, sends: nat)

  // How the server answers an ordinary request. Expired is a 401 for which
  // isAccessTokenExpired holds; Failed is any other error, the network's too.
  datatype Response = Success | Failed | Expired

  // The access token is represented by the session id it carries.
  datatype Client = Client(
    access: Option<SessionId>,
    refresh: Option<Token>,
    inflight: Option<nat>,
    flights: seq<Flight>,
    tasks: map<nat, Task>)

  const EMPTY_CLIENT := Client(None, None, None, [], map[])

  function EnsureRefresh(c: Client): (Client, nat) {
    if c.inflight.Some? then (c, c.inflight.value)
    else
      var k := |c.flights|;
      var flight := Flight(c.refresh, if c.refresh.Some? then Waiting else Rejected);
      (c.(flights := c.flights + [flight], inflight := Some(k)), k)
  }

  function Start(c: Client, id: nat, mayRefresh: bool): Client {
    if id in c.tasks then c else c.(tasks := c.tasks[id := Requesting(mayRefresh, 1)])
  }

  function Respond(c: Client, id: nat, response: Response): Client {
    if id !in c.tasks || !c.tasks[id].Requesting? then c
    else if response.Expired? && c.tasks[id].mayRefresh then
      var (c', k) := EnsureRefresh(c);
      c'.(tasks := c'.tasks[id := Joined(k, c.tasks[id].sends)])
    else c.(tasks := c.tasks[id := Returned(response.Success?, c.tasks[id].sends)])
  }

  function Resume(c: Client, id: nat): Client {
    if id !in c.tasks || !c.tasks[id].Joined? then c
    else
      var k, sends := c.tasks[id].flight, c.tasks[id].sends;
      if k >= |c.flights| || !c.flights[k].progress.Finished? then c
      else if c.flights[k].progress.ok then c.(tasks := c.tasks[id := Requesting(false, sends + 1)])
      else c.(tasks := c.tasks[id := Returned(false, sends)])
  }

  function SetProgress(c: Client, k: nat, progress: Progress): Client {
    if k < |c.flights| then c.(flights := c.flights[k := c.flights[k].(progress := progress)]) else c
  }

  predicate InflightIs(c: Client, progress: Progress) {
    c.inflight.Some? && c.inflight.value < |c.flights| && c.flights[c.inflight.value].progress == progress
  }

  // `stored` says whether localStorage took the write; setRefreshToken
  // swallows a failure, so the cell then keeps its old content.
  function StoreTokens(c: Client, access: Option<SessionId>, refresh: Option<Token>, stored: bool): Client {
    c.(access := access, refresh := if stored then refresh else c.refresh)
  }

  function ReceiveReply(c: Client, reply: Reply, stored: bool): Client {
    if !InflightIs(c, Waiting) then c
    else match reply
      case Tokens(minted, session) =>
        SetProgress(StoreTokens(c, Some(session), Some(minted), stored), c.inflight.value, Settled(true))
      case _ => SetProgress(c, c.inflight.value, Rejected)
  }

  function NetworkError(c: Client): Client {
    if InflightIs(c, Waiting) then SetProgress(c, c.inflight.value, Rejected) else c
  }

  function Catch(c: Client, stored: bool): Client {
    if InflightIs(c, Rejected)
    then SetProgress(StoreTokens(c, None, None, stored), c.inflight.value, Settled(false))
    else c
  }

  function Finally(c: Client): Client {
    if InflightIs(c, Settled(true)) then SetProgress(c, c.inflight.value, Finished(true)).(inflight := None)
    else if InflightIs(c, Settled(false)) then SetProgress(c, c.inflight.value, Finished(false)).(inflight := None)
    else c
  }

  // ---- the client in the source's imperative form ----

  class ApiClient {
    var access: Option<SessionId>
    var refresh: Option<Token>
    var inflight: Option<nat>
    var flights: seq<Flight>
    var tasks: map<nat, Task>

    ghost function State(): Client
      reads this
    {
      Client(access, refresh, inflight, flights, tasks)
    }

    constructor ()
      ensures State() == EMPTY_CLIENT
    {
      access, refresh, inflight, flights, tasks := None, None, None, [], map[];
    }

    method RefreshOnce() returns (k: nat)
      modifies this`flights
      ensures k == |old(flights)|
      ensures flights == old(flights) + [Flight(refresh, if refresh.Some? then Waiting else Rejected)]
    {
      k := |flights|;
      if refresh.None? {
        flights := flights + [Flight(None, Rejected)];
        return;
      }
      flights := flights + [Flight(refresh, Waiting)];
    }

    method Ensure() returns (k: nat)
      modifies this
      ensures (State(), k) == EnsureRefresh(old(State()))
    {
      if inflight.Some? {
        return inflight.value;
      }
      k := RefreshOnce();
      inflight := Some(k);
    }

    method StartFetch(id: nat, noRetry: bool, unauthenticated: bool)
      requires id !in tasks
      modifies this
      ensures State() == Start(old(State()), id, !noRetry && !unauthenticated)
    {
      tasks := tasks[id := Requesting(!noRetry && !unauthenticated, 1)];
    }

    method OnResponse(id: nat, response: Response)
      requires id in tasks && tasks[id].Requesting?
      modifies this
      ensures State() == Respond(old(State()), id, response)
    {
      var task := tasks[id];
      if response.Expired? && task.mayRefresh {
        var k := Ensure();
        tasks := tasks[id := Joined(k, task.sends)];
        return;
      }
      tasks := tasks[id := Returned(response.Success?, task.sends)];
    }

    method OnRefreshReply(reply: Reply, stored: bool)
      requires InflightIs(State(), Waiting)
      modifies this
      ensures State() == ReceiveReply(old(State()), reply, stored)
    {
      var k := inflight.value;
      if !reply.Tokens? {
        flights := flights[k := flights[k].(progress := Rejected)];
        return;
      }
      access := Some(reply.session);
      if stored {
        refresh := Some(reply.minted);
      }
      flights := flights[k := flights[k].(progress := Settled(true))];
    }

    method OnCatch(stored: bool)
      requires InflightIs(State(), Rejected)
      modifies this
      ensures State() == Catch(old(State()), stored)
    {
      access := None;
      if stored {
        refresh := None;
      }
      flights := flights[inflight.value := flights[inflight.value].(progress := Settled(false))];
    }

    method OnFinally(ok: bool)
      requires InflightIs(State(), Settled(ok))
      modifies this
      ensures State() == Finally(old(State()))
    {
      flights := flights[inflight.value := flights[inflight.value].(progress := Finished(ok))];
      inflight := None;
    }

    method OnRefreshed(id: nat)
      requires id in tasks && tasks[id].Joined?
      requires tasks[id].flight < |flights| && flights[tasks[id].flight].progress.Finished?
      modifies this
      ensures State() == Resume(old(State()), id)
    {
      var task := tasks[id];
      if flights[task.flight].progress.ok {
        tasks := tasks[id := Requesting(false, task.sends + 1)];
      } else {
        tasks := tasks[id := Returned(false, task.sends)];
      }
    }
  }

  // ---- client, server and everyone else ----

  // `served` holds the server's answer to each refresh request it has
  // processed, `logins` the login replies still on their way, and `owned` every
  // token ever minted for this client.
  datatype System = System(
    rows: Table,
    client: Client,
    served: map<nat, Reply>,
    logins: map<Token, SessionId>,
    owned: set<Token>)

  const INITIAL := System([], EMPTY_CLIENT, map[], map[], {})

  datatype Step =
    | StartTask(id: nat, mayRefresh: bool)
    | TaskResponse(id: nat, response: Response)
    | ResumeTask(id: nat)
    | Serve(flight: nat, now: Instant, minted: Token, signs: bool)
    | Deliver(stored: bool)
    | Lose
    | RunCatch(stored: bool)
    | RunFinally
    | ServeLogin(user: UserId, now: Instant, minted: Token, signs: bool)
    | AdoptLogin(token: Token, stored: bool)
    | Forget(stored: bool)
    | Others(now: Instant, op: Op)

  // A request may reach the server long after the client gave up on it. Others
  // are any users and devices; they never present a token they were not given.
  function Next(s: System, step: Step): System {
    match step
    case StartTask(id, mayRefresh) => s.(client := Start(s.client, id, mayRefresh))
    case TaskResponse(id, response) => s.(client := Respond(s.client, id, response))
    case ResumeTask(id) => s.(client := Resume(s.client, id))
    case Serve(k, now, minted, signs) =>
      if k >= |s.client.flights| || s.client.flights[k].token.None? || k in s.served then s
      else
        var (rows, reply) := Apply(s.rows, now, Refresh(s.client.flights[k].token.value, minted, signs));
        s.(rows := rows, served := s.served[k := reply],
           owned := if reply.Tokens? then s.owned + {minted} else s.owned)
    case Deliver(stored) =>
      if s.client.inflight.Some? && s.client.inflight.value in s.served
      then s.(client := ReceiveReply(s.client, s.served[s.client.inflight.value], stored))
      else s
    case Lose => s.(client := NetworkError(s.client))
    case RunCatch(stored) => s.(client := Catch(s.client, stored))
    case RunFinally => s.(client := Finally(s.client))
    case ServeLogin(user, now, minted, signs) =>
      var (rows, reply) := Apply(s.rows, now, Op.Login(user, minted, signs));
      if reply.Tokens?
      then s.(rows := rows, logins := s.logins[minted := reply.session], owned := s.owned + {minted})
      else s.(rows := rows)
    case AdoptLogin(token, stored) =>
      if token in s.logins
      then s.(client := StoreTokens(s.client, Some(s.logins[token]), Some(token), stored),
              logins := s.logins - {token})
      else s
    case Forget(stored) => s.(client := StoreTokens(s.client, None, None, stored))
    case Others(now, op) =>
      if op.Refresh? && op.token in s.owned then s else s.(rows := Apply(s.rows, now, op).0)
  }

  function RunSystem(s: System, steps: seq<Step>): System
    decreases steps
  {
    if steps == [] then s else RunSystem(Next(s, steps[0]), steps[1..])
  }

  // localStorage accepts the writes of this step.
  predicate Reliable(step: Step) {
    match step
    case Deliver(stored) => stored
    case RunCatch(stored) => stored
    case AdoptLogin(_, stored) => stored
    case Forget(stored) => stored
    case _ => true
  }

  predicate AllReliable(steps: seq<Step>) {
    forall i :: 0 <= i < |steps| ==> Reliable(steps[i])
  }

  // ---- invariants ----

  predicate Sent(c: Client, k: int, t: Token) {
    0 <= k < |c.flights| && c.flights[k].token == Some(t)
  }

  ghost predicate OnWire(c: Client, t: Token) {
    exists k :: Sent(c, k, t)
  }

  // Every flight but the one in `inflight`, the newest, is finished.
  predicate OneFlight(c: Client) {
    && (c.inflight.Some? ==> c.inflight.value == |c.flights| - 1
                             && !c.flights[c.inflight.value].progress.Finished?)
    && (forall k :: 0 <= k < |c.flights| && c.inflight != Some(k) ==> c.flights[k].progress.Finished?)
  }

  // A call sends at most twice, the second time with refreshing switched off.
  predicate TasksRetryOnce(c: Client) {
    forall id :: id in c.tasks ==>
      match c.tasks[id]
      case Requesting(mayRefresh, sends) => sends <= if mayRefresh then 1 else 2
      case Joined(k, sends) => sends <= 1 && k < |c.flights|
      case Returned(_, sends) => sends <= 2
  }

  ghost predicate SentOnce(c: Client) {
    forall i, j, t :: Sent(c, i, t) && Sent(c, j, t) ==> i == j
  }

  // A token that is still in the cell can be on the wire only in the current
  // flight, before that flight has settled.
  ghost predicate CellIsUnspent(c: Client) {
    forall k, t :: c.refresh == Some(t) && Sent(c, k, t) ==>
      c.inflight == Some(k) && (c.flights[k].progress.Waiting? || c.flights[k].progress.Rejected?)
  }

  ghost predicate Unused(s: System, t: Token) {
    !OnWire(s.client, t) && s.client.refresh != Some(t)
  }

  ghost predicate RepliesUnused(s: System) {
    forall k :: k in s.served && s.served[k].Tokens?
                && k < |s.client.flights| && s.client.flights[k].progress.Waiting? ==>
      Unused(s, s.served[k].minted) && s.served[k].minted !in s.logins
  }

  ghost predicate LoginsUnused(s: System) {
    forall t :: t in s.logins ==> Unused(s, t)
  }

  ghost predicate Owned(s: System) {
    && (forall t :: t in s.owned ==> Lookup(s.rows, t).Some?)
    && (forall k, t: Token :: Sent(s.client, k, t) ==> t in s.owned)
    && (s.client.refresh.Some? ==> s.client.refresh.value in s.owned)
    && (forall t :: t in s.logins ==> t in s.owned)
    && (forall k :: k in s.served && s.served[k].Tokens? ==> s.served[k].minted in s.owned)
    && (forall k :: k in s.served ==> k < |s.client.flights| && s.client.flights[k].token.Some?)
  }

  // Only the server's handling of a refresh request of this client rotates a
  // session of this client.
  ghost predicate RotatedWereServed(s: System) {
    forall i :: 0 <= i < |s.rows| && s.rows[i].token in s.owned && s.rows[i].RevokedFor(Rotation) ==>
      exists k :: Sent(s.client, k, s.rows[i].token) && k in s.served
  }

  predicate Names(rows: Table, session: SessionId, t: Token) {
    session < |rows| && rows[session].token == t
  }

  // The two tokens of a reply name one session.
  ghost predicate RepliesNamed(s: System) {
    && (forall t :: t in s.logins ==> Names(s.rows, s.logins[t], t))
    && (forall k :: k in s.served && s.served[k].Tokens? ==>
          Names(s.rows, s.served[k].session, s.served[k].minted))
  }

  // The access token in memory names the session of the refresh token beside it.
  predicate Paired(s: System) {
    s.client.access.Some? && s.client.refresh.Some? ==>
      Names(s.rows, s.client.access.value, s.client.refresh.value)
  }

  ghost predicate ClientInv(c: Client) {
    OneFlight(c) && TasksRetryOnce(c) && SentOnce(c) && CellIsUnspent(c)
  }

  ghost predicate Inv(s: System) {
    && Valid(s.rows) && ClientInv(s.client) && Owned(s)
    && RepliesUnused(s) && LoginsUnused(s) && RotatedWereServed(s) && RepliesNamed(s)
  }

  // ---- the steps that leave a spent token behind ----

  // The cell still holds the token of the flight under way.
  predicate HoldsInFlight(c: Client) {
    && c.inflight.Some? && c.inflight.value < |c.flights|
    && c.refresh.Some? && c.flights[c.inflight.value].token == c.refresh
  }

  // The cell refuses the write that settles a flight, be it the new token or
  // the clearing after a failure, and still holds the token that was sent.
  predicate Spends(s: System, step: Step) {
    match step
    case Deliver(stored) =>
      !stored && InflightIs(s.client, Waiting) && HoldsInFlight(s.client)
      && s.client.inflight.value in s.served && s.served[s.client.inflight.value].Tokens?
    case RunCatch(stored) => !stored && InflightIs(s.client, Rejected) && HoldsInFlight(s.client)
    case _ => false
  }

  predicate NoneSpends(s: System, steps: seq<Step>)
    decreases steps
  {
    steps == [] || (!Spends(s, steps[0]) && NoneSpends(Next(s, steps[0]), steps[1..]))
  }

  lemma {:induction false} ReliableNeverSpends(s: System, steps: seq<Step>)
    requires AllReliable(steps)
    ensures NoneSpends(s, steps)
    decreases steps
  {
    if steps != [] {
      assert Reliable(steps[0]);
      assert forall i :: 0 <= i < |steps| - 1 ==> steps[1..][i] == steps[i + 1];
      ReliableNeverSpends(Next(s, steps[0]), steps[1..]);
    }
  }

  // ---- every other step keeps the invariant ----

  lemma TableStep(t: Table, now: Instant, op: Op)
    requires Valid(t)
    ensures Valid(Apply(t, now, op).0) && Evolves(t, Apply(t, now, op).0)
    ensures forall token :: Lookup(t, token).Some? ==> Lookup(Apply(t, now, op).0, token) == Lookup(t, token)
    ensures forall id: SessionId, token: Token :: Names(t, id, token) ==> Names(Apply(t, now, op).0, id, token)
  {
    var t' := Apply(t, now, op).0;
    StepKeepsValid(t, now, op);
    StepEvolves(t, now, op);
    forall token | Lookup(t, token).Some? ensures Lookup(t', token) == Lookup(t, token) {
      assert t'[Lookup(t, token).value].token == token;
      FindsRow(t', Lookup(t, token).value);
    }
    forall id: SessionId, token: Token | Names(t, id, token) ensures Names(t', id, token) {
      assert t'[id].(revoked := t[id].revoked) == t[id];
    }
  }

  // Rows that only this operation could have rotated.
  lemma NewlyRotated(t: Table, now: Instant, op: Op, i: SessionId)
    requires i < |t| && !t[i].RevokedFor(Rotation) && Apply(t, now, op).0[i].RevokedFor(Rotation)
    ensures op.Refresh? && t[i].token == op.token
  {
  }

  // Requests that were sent stay sent.
  lemma StillServed(s: System, s': System)
    requires RotatedWereServed(s) && s'.rows == s.rows && s'.owned == s.owned && s'.served == s.served
    requires forall k, t: Token :: Sent(s.client, k, t) ==> Sent(s'.client, k, t)
    ensures RotatedWereServed(s')
  {
    forall i | 0 <= i < |s.rows| && s.rows[i].token in s.owned && s.rows[i].RevokedFor(Rotation)
      ensures exists k :: Sent(s'.client, k, s.rows[i].token) && k in s.served
    {
      var k :| Sent(s.client, k, s.rows[i].token) && k in s.served;
      assert Sent(s'.client, k, s.rows[i].token);
    }
  }

  lemma TaskStepKeepsInv(s: System, c: Client)
    requires Inv(s) && TasksRetryOnce(c)
    requires c.(tasks := s.client.tasks) == s.client
    ensures Inv(s.(client := c))
  {
    assert forall k, t: Token :: Sent(c, k, t) <==> Sent(s.client, k, t);
    assert forall t: Token :: OnWire(c, t) <==> OnWire(s.client, t);
  }

  lemma NewFlightSends(c: Client)
    requires c.inflight.None?
    ensures var c' := EnsureRefresh(c).0;
            && (forall k, t: Token :: Sent(c', k, t) <==> Sent(c, k, t) || (k == |c.flights| && c.refresh == Some(t)))
            && (forall t: Token :: OnWire(c', t) <==> OnWire(c, t) || c.refresh == Some(t))
  {
    var c' := EnsureRefresh(c).0;
    assert forall k, t: Token :: Sent(c', k, t) <==> Sent(c, k, t) || (k == |c.flights| && c.refresh == Some(t));
    forall t: Token ensures OnWire(c', t) <==> OnWire(c, t) || c.refresh == Some(t) {
      if k :| Sent(c, k, t) {
        assert Sent(c', k, t);
      }
      if c.refresh == Some(t) {
        assert Sent(c', |c.flights|, t);
      }
    }
  }

  lemma NewFlightKeepsClient(c: Client)
    requires ClientInv(c) && c.inflight.None?
    ensures ClientInv(EnsureRefresh(c).0)
  {
    NewFlightSends(c);
  }

  lemma NewFlightKeepsInv(s: System)
    requires Inv(s)
    ensures Inv(s.(client := EnsureRefresh(s.client).0))
    ensures EnsureRefresh(s.client).1 < |EnsureRefresh(s.client).0.flights|
  {
    if s.client.inflight.None? {
      NewFlightSends(s.client);
      NewFlightKeepsClient(s.client);
      StillServed(s, s.(client := EnsureRefresh(s.client).0));
    }
  }

  // Settling a flight without touching the cell, or clearing the cell.
  predicate Progresses(c: Client, c': Client) {
    && c.inflight.Some? && c.inflight.value < |c.flights|
    && var k := c.inflight.value;
       var progress := c.flights[k].progress;
       || c' == SetProgress(c, k, Rejected)
       || c' == SetProgress(StoreTokens(c, None, None, true), k, Settled(false))
       || (progress.Settled? && c' == SetProgress(c, k, Finished(progress.ok)).(inflight := None))
  }

  lemma ProgressKeepsClient(c: Client, c': Client)
    requires ClientInv(c) && Progresses(c, c')
    ensures ClientInv(c')
    ensures forall k, t: Token :: Sent(c', k, t) <==> Sent(c, k, t)
    ensures forall t: Token :: OnWire(c', t) <==> OnWire(c, t)
  {
    assert forall k, t: Token :: Sent(c', k, t) <==> Sent(c, k, t);
  }

  lemma ProgressKeepsInv(s: System, c: Client)
    requires Inv(s) && Progresses(s.client, c)
    ensures Inv(s.(client := c))
  {
    ProgressKeepsClient(s.client, c);
    StillServed(s, s.(client := c));
  }

  // Writing a fresh pair, or nothing, into the cells.
  lemma StoreKeepsInv(s: System, c: Client, access: Option<SessionId>, refresh: Option<Token>,
                      logins: map<Token, SessionId>)
    requires Inv(s)
    requires logins == s.logins || (refresh.Some? && logins == s.logins - {refresh.value})
    requires refresh.Some? ==> refresh.value in s.owned && Unused(s, refresh.value) && refresh.value !in logins
    requires refresh.Some? ==> access.Some? && Names(s.rows, access.value, refresh.value)
    requires refresh.Some? ==>
      forall k :: k in s.served && s.served[k].Tokens? && k < |c.flights| && c.flights[k].progress.Waiting? ==>
        s.served[k].minted != refresh.value
    requires var stored := StoreTokens(s.client, access, refresh, true);
             c == stored || (InflightIs(stored, Waiting) && c == SetProgress(stored, stored.inflight.value, Settled(true)))
    ensures Inv(s.(client := c, logins := logins))
  {
    assert forall k, t: Token :: Sent(c, k, t) <==> Sent(s.client, k, t);
    assert forall t: Token :: OnWire(c, t) <==> OnWire(s.client, t);
    StillServed(s, s.(client := c, logins := logins));
  }

  // The cell refused the write and keeps what it had, which is not the token of
  // a flight that settles.
  lemma RefusedKeepsInv(s: System, c: Client, access: Option<SessionId>, logins: map<Token, SessionId>, ok: bool)
    requires Inv(s)
    requires forall t :: t in logins ==> t in s.logins && logins[t] == s.logins[t]
    requires || c == s.client.(access := access)
             || (&& s.client.inflight.Some? && !HoldsInFlight(s.client)
                 && !s.client.flights[s.client.inflight.value].progress.Finished?
                 && c == SetProgress(s.client.(access := access), s.client.inflight.value, Settled(ok)))
    ensures Inv(s.(client := c, logins := logins))
  {
    assert forall k, t: Token :: Sent(c, k, t) <==> Sent(s.client, k, t);
    assert forall t: Token :: OnWire(c, t) <==> OnWire(s.client, t);
    StillServed(s, s.(client := c, logins := logins));
  }

  // The table part of the invariant after one server operation.
  lemma RowsKeepInv(s: System, now: Instant, op: Op, served: map<nat, Reply>, owned: set<Token>)
    requires Inv(s)
    requires s.served.Keys <= served.Keys
    requires owned <= s.owned + (if Apply(s.rows, now, op).1.Tokens? then {Apply(s.rows, now, op).1.minted} else {})
    requires op.Refresh? && op.token in s.owned ==> exists k :: Sent(s.client, k, op.token) && k in served
    ensures RotatedWereServed(s.(rows := Apply(s.rows, now, op).0, served := served, owned := owned))
  {
    var rows := Apply(s.rows, now, op).0;
    forall i | 0 <= i < |rows| && rows[i].token in owned && rows[i].RevokedFor(Rotation)
      ensures exists k :: Sent(s.client, k, rows[i].token) && k in served
    {
      var t := RotatedToken(s, now, op, owned, i);
      if !op.Refresh? || t != op.token {
        var k :| Sent(s.client, k, t) && k in s.served;
        assert k in served;
      }
    }
  }

  // A rotated row of this client was rotated by this operation or before.
  lemma RotatedToken(s: System, now: Instant, op: Op, owned: set<Token>, i: SessionId) returns (t: Token)
    requires Inv(s) && i < |Apply(s.rows, now, op).0|
    requires owned <= s.owned + (if Apply(s.rows, now, op).1.Tokens? then {Apply(s.rows, now, op).1.minted} else {})
    requires Apply(s.rows, now, op).0[i].token in owned && Apply(s.rows, now, op).0[i].RevokedFor(Rotation)
    ensures t == Apply(s.rows, now, op).0[i].token && t in s.owned
    ensures (op.Refresh? && t == op.token) || (exists k :: Sent(s.client, k, t) && k in s.served)
  {
    var (rows, reply) := Apply(s.rows, now, op);
    t := rows[i].token;
    StepEvolves(s.rows, now, op);
    assert i < |s.rows| && t == s.rows[i].token;
    if reply.Tokens? && t == reply.minted {
      MintedIsAbsent(s.rows, now, op);
      assert false;
    }
    if !s.rows[i].RevokedFor(Rotation) {
      NewlyRotated(s.rows, now, op, i);
    }
  }

  lemma MintedIsAbsent(t: Table, now: Instant, op: Op)
    requires Valid(t) && Apply(t, now, op).1.Tokens?
    ensures Lookup(t, Apply(t, now, op).1.minted).None?
    ensures Names(Apply(t, now, op).0, Apply(t, now, op).1.session, Apply(t, now, op).1.minted)
    ensures Lookup(Apply(t, now, op).0, Apply(t, now, op).1.minted).Some?
  {
    if op.Refresh? {
      var id := Lookup(t, op.token).value;
      SameTokens(t, RevokeOne(t, id, now, Rotation), op.minted);
    }
    StepKeepsValid(t, now, op);
    FindsRow(Apply(t, now, op).0, |t|);
  }

  // A larger table with newly minted tokens, whatever operation made it.
  ghost predicate Grows(s: System, s': System) {
    && s'.client == s.client
    && (forall t: Token :: Lookup(s.rows, t).Some? ==> Lookup(s'.rows, t).Some?)
    && (forall id: SessionId, t: Token :: Names(s.rows, id, t) ==> Names(s'.rows, id, t))
    && s.owned <= s'.owned
    && (forall t :: t in s'.owned && t !in s.owned ==> Lookup(s'.rows, t).Some?)
    && (forall t :: t in s'.logins ==>
          || (t in s.logins && s'.logins[t] == s.logins[t])
          || (t !in s.owned && t in s'.owned && Names(s'.rows, s'.logins[t], t)))
    && (forall k :: k in s'.served ==>
          || (k in s.served && s'.served[k] == s.served[k])
          || (&& k < |s.client.flights| && s.client.flights[k].token.Some?
              && (s'.served[k].Tokens? ==>
                    && s'.served[k].minted !in s.owned && s'.served[k].minted in s'.owned
                    && s'.served[k].minted !in s'.logins
                    && Names(s'.rows, s'.served[k].session, s'.served[k].minted))))
  }

  lemma GrowthKeepsNames(s: System, s': System)
    requires Owned(s) && RepliesNamed(s) && Grows(s, s')
    ensures Owned(s') && RepliesNamed(s') && (Paired(s) ==> Paired(s'))
  {
  }

  lemma GrowthKeepsUnused(s: System, s': System)
    requires Owned(s) && RepliesUnused(s) && LoginsUnused(s) && Grows(s, s')
    ensures RepliesUnused(s') && LoginsUnused(s')
  {
  }

  lemma GrowthKeepsInv(s: System, s': System)
    requires Inv(s) && Grows(s, s') && Valid(s'.rows) && RotatedWereServed(s')
    ensures Inv(s')
  {
    GrowthKeepsNames(s, s');
    GrowthKeepsUnused(s, s');
  }

  lemma ServeKeepsInv(s: System, k: nat, now: Instant, minted: Token, signs: bool)
    requires Inv(s)
    requires k < |s.client.flights| && s.client.flights[k].token.Some? && k !in s.served
    ensures Inv(Next(s, Serve(k, now, minted, signs)))
  {
    var op := Refresh(s.client.flights[k].token.value, minted, signs);
    var s' := Next(s, Serve(k, now, minted, signs));
    assert Sent(s.client, k, op.token) && k in s'.served;
    ServerStep(s, now, op, s');
  }

  lemma ServeLoginKeepsInv(s: System, user: UserId, now: Instant, minted: Token, signs: bool)
    requires Inv(s)
    ensures Inv(Next(s, ServeLogin(user, now, minted, signs)))
  {
    var op := Op.Login(user, minted, signs);
    ServerStep(s, now, op, Next(s, ServeLogin(user, now, minted, signs)));
  }

  // One server operation whose reply goes to this client, if to anyone.
  ghost predicate Serves(s: System, now: Instant, op: Op, s': System) {
    var reply := Apply(s.rows, now, op).1;
    && s'.client == s.client && s'.rows == Apply(s.rows, now, op).0
    && (op.Refresh? && op.token in s.owned ==> exists k :: Sent(s.client, k, op.token) && k in s'.served)
    && s'.owned == (if reply.Tokens? && s'.owned != s.owned then s.owned + {reply.minted} else s.owned)
    && (s'.logins == s.logins
        || (reply.Tokens? && s'.logins == s.logins[reply.minted := reply.session] && s'.served == s.served
            && reply.minted in s'.owned))
    && (s'.served == s.served
        || (exists k :: k !in s.served && 0 <= k < |s.client.flights| && s.client.flights[k].token.Some?
              && s'.served == s.served[k := reply] && s'.logins == s.logins
              && (reply.Tokens? ==> reply.minted in s'.owned)))
  }

  lemma ServerGrows(s: System, now: Instant, op: Op, s': System)
    requires Inv(s) && Serves(s, now, op, s')
    ensures Grows(s, s')
  {
    var reply := Apply(s.rows, now, op).1;
    TableStep(s.rows, now, op);
    if reply.Tokens? {
      MintedIsAbsent(s.rows, now, op);
      assert reply.minted !in s.owned;
    }
  }

  lemma ServerStep(s: System, now: Instant, op: Op, s': System)
    requires Inv(s) && Serves(s, now, op, s')
    ensures Inv(s')
  {
    StepKeepsValid(s.rows, now, op);
    RowsKeepInv(s, now, op, s'.served, s'.owned);
    ServerGrows(s, now, op, s');
    GrowthKeepsInv(s, s');
  }

  lemma OthersKeepInv(s: System, now: Instant, op: Op)
    requires Inv(s)
    ensures Inv(Next(s, Others(now, op)))
  {
    if !(op.Refresh? && op.token in s.owned) {
      ServerStep(s, now, op, Next(s, Others(now, op)));
    }
  }

  lemma NextKeepsInv(s: System, step: Step)
    requires Inv(s) && !Spends(s, step)
    ensures Inv(Next(s, step))
  {
    var c := s.client;
    match step
    case StartTask(id, mayRefresh) => TaskStepKeepsInv(s, Start(c, id, mayRefresh));
    case TaskResponse(id, response) => RespondKeepsInv(s, id, response);
    case ResumeTask(id) => TaskStepKeepsInv(s, Resume(c, id));
    case Serve(k, now, minted, signs) =>
      if k < |c.flights| && c.flights[k].token.Some? && k !in s.served {
        ServeKeepsInv(s, k, now, minted, signs);
      }
    case ServeLogin(user, now, minted, signs) => ServeLoginKeepsInv(s, user, now, minted, signs);
    case AdoptLogin(_, _) => CellsKeepInv(s, step);
    case Forget(_) => CellsKeepInv(s, step);
    case Others(now, op) => OthersKeepInv(s, now, op);
    case Deliver(stored) => DeliverKeepsInv(s, stored);
    case _ => FlightKeepsInv(s, step);
  }

  lemma DeliverKeepsInv(s: System, stored: bool)
    requires Inv(s) && !Spends(s, Deliver(stored))
    ensures Inv(Next(s, Deliver(stored)))
  {
    var c := s.client;
    if c.inflight.Some? && c.inflight.value in s.served && InflightIs(c, Waiting) {
      var reply := s.served[c.inflight.value];
      if !reply.Tokens? {
        ProgressKeepsInv(s, ReceiveReply(c, reply, stored));
      } else if stored {
        StoreKeepsInv(s, ReceiveReply(c, reply, stored), Some(reply.session), Some(reply.minted), s.logins);
      } else {
        RefusedKeepsInv(s, ReceiveReply(c, reply, stored), Some(reply.session), s.logins, true);
      }
    }
  }

  lemma FlightKeepsInv(s: System, step: Step)
    requires Inv(s) && !Spends(s, step)
    requires step.Lose? || step.RunCatch? || step.RunFinally?
    ensures Inv(Next(s, step))
  {
    var c := s.client;
    match step
    case Lose =>
      if InflightIs(c, Waiting) { ProgressKeepsInv(s, NetworkError(c)); }
    case RunCatch(stored) =>
      if InflightIs(c, Rejected) {
        if stored {
          ProgressKeepsInv(s, Catch(c, stored));
        } else {
          RefusedKeepsInv(s, Catch(c, stored), None, s.logins, false);
        }
      }
    case RunFinally =>
      if InflightIs(c, Settled(true)) || InflightIs(c, Settled(false)) { ProgressKeepsInv(s, Finally(c)); }
  }

  lemma CellsKeepInv(s: System, step: Step)
    requires Inv(s) && (step.AdoptLogin? || step.Forget?)
    ensures Inv(Next(s, step))
  {
    var c := s.client;
    match step
    case AdoptLogin(token, stored) =>
      if token in s.logins {
        if stored {
          StoreKeepsInv(s, StoreTokens(c, Some(s.logins[token]), Some(token), stored),
            Some(s.logins[token]), Some(token), s.logins - {token});
        } else {
          RefusedKeepsInv(s, c.(access := Some(s.logins[token])), Some(s.logins[token]), s.logins - {token}, true);
        }
      }
    case Forget(stored) =>
      if stored {
        StoreKeepsInv(s, StoreTokens(c, None, None, stored), None, None, s.logins);
      } else {
        RefusedKeepsInv(s, c.(access := None), None, s.logins, true);
      }
  }

  lemma RowsKeepPaired(s: System, now: Instant, op: Op, s': System)
    requires Inv(s) && Paired(s) && s'.client == s.client && s'.rows == Apply(s.rows, now, op).0
    ensures Paired(s')
  {
    TableStep(s.rows, now, op);
  }

  // A step of the client that leaves both cells alone, or writes both.
  lemma CellsKeepPaired(s: System, step: Step)
    requires Inv(s) && Paired(s) && Reliable(step)
    requires step.Deliver? || step.RunCatch? || step.AdoptLogin? || step.Forget?
    ensures Paired(Next(s, step))
  {
  }

  lemma TasksKeepPaired(s: System, step: Step)
    requires Paired(s)
    requires step.StartTask? || step.TaskResponse? || step.ResumeTask? || step.Lose? || step.RunFinally?
    ensures Paired(Next(s, step))
  {
    var c, c' := s.client, Next(s, step).client;
    assert c'.access == c.access && c'.refresh == c.refresh;
  }

  lemma NextKeepsPaired(s: System, step: Step)
    requires Inv(s) && Paired(s) && Reliable(step)
    ensures Paired(Next(s, step))
  {
    var s' := Next(s, step);
    match step
    case Serve(k, now, minted, signs) =>
      if s' != s { RowsKeepPaired(s, now, Refresh(s.client.flights[k].token.value, minted, signs), s'); }
    case ServeLogin(user, now, minted, signs) => RowsKeepPaired(s, now, Op.Login(user, minted, signs), s');
    case Others(now, op) =>
      if s' != s { RowsKeepPaired(s, now, op, s'); }
    case Deliver(_) => CellsKeepPaired(s, step);
    case RunCatch(_) => CellsKeepPaired(s, step);
    case AdoptLogin(_, _) => CellsKeepPaired(s, step);
    case Forget(_) => CellsKeepPaired(s, step);
    case _ => TasksKeepPaired(s, step);
  }

  lemma RespondKeepsInv(s: System, id: nat, response: Response)
    requires Inv(s)
    ensures Inv(Next(s, TaskResponse(id, response)))
  {
    var c := s.client;
    if id in c.tasks && c.tasks[id].Requesting? && response.Expired? && c.tasks[id].mayRefresh {
      NewFlightKeepsInv(s);
      TaskStepKeepsInv(s.(client := EnsureRefresh(c).0), Respond(c, id, response));
    } else {
      TaskStepKeepsInv(s, Respond(c, id, response));
    }
  }

  lemma {:induction false} RunKeepsInv(s: System, steps: seq<Step>)
    requires Inv(s) && NoneSpends(s, steps)
    ensures Inv(RunSystem(s, steps))
    decreases steps
  {
    if steps != [] {
      NextKeepsInv(s, steps[0]);
      RunKeepsInv(Next(s, steps[0]), steps[1..]);
    }
  }

  lemma {:induction false} RunKeepsPaired(s: System, steps: seq<Step>)
    requires Inv(s) && Paired(s) && AllReliable(steps)
    ensures Inv(RunSystem(s, steps)) && Paired(RunSystem(s, steps))
    decreases steps
  {
    if steps != [] {
      assert Reliable(steps[0]);
      assert forall i :: 0 <= i < |steps| - 1 ==> steps[1..][i] == steps[i + 1];
      NextKeepsInv(s, steps[0]);
      NextKeepsPaired(s, steps[0]);
      RunKeepsPaired(Next(s, steps[0]), steps[1..]);
    }
  }

  // ---- main results ----

  // Whatever the interleaving, and whatever other writes the cell refuses, at
  // most one refresh is unfinished, no refresh token is sent twice, and no
  // request is sent more than twice.
  lemma EachTokenSentOnce(steps: seq<Step>)
    requires NoneSpends(INITIAL, steps)
    ensures var c := RunSystem(INITIAL, steps).client;
            && (forall i, j :: 0 <= i < j < |c.flights| && c.flights[i].token.Some? ==>
                  c.flights[i].token != c.flights[j].token)
            && (forall i :: 0 <= i < |c.flights| - 1 ==> c.flights[i].progress.Finished?)
            && (forall id :: id in c.tasks ==> c.tasks[id].sends <= 2)
  {
    RunKeepsInv(INITIAL, steps);
    var c := RunSystem(INITIAL, steps).client;
    forall i, j | 0 <= i < j < |c.flights| && c.flights[i].token.Some?
      ensures c.flights[i].token != c.flights[j].token
    {
      assert Sent(c, i, c.flights[i].token.value);
      if c.flights[j].token == c.flights[i].token {
        assert Sent(c, j, c.flights[i].token.value);
      }
    }
  }

  // When this client's request meets the reuse branch, the session was not
  // revoked by rotation: the client never replays a token it has spent.
  lemma NeverReplaysItself(steps: seq<Step>, k: nat, now: Instant, minted: Token)
    requires NoneSpends(INITIAL, steps)
    requires var s := RunSystem(INITIAL, steps);
             && k < |s.client.flights| && s.client.flights[k].token.Some? && k !in s.served
    ensures var s := RunSystem(INITIAL, steps);
            var token := s.client.flights[k].token.value;
            && Lookup(s.rows, token).Some?
            && !s.rows[Lookup(s.rows, token).value].RevokedFor(Rotation)
  {
    RunKeepsInv(INITIAL, steps);
    var s := RunSystem(INITIAL, steps);
    var token := s.client.flights[k].token.value;
    UnservedIsNotRotated(s, k);
  }

  lemma UnservedIsNotRotated(s: System, k: nat)
    requires Inv(s) && k < |s.client.flights| && s.client.flights[k].token.Some? && k !in s.served
    ensures var token := s.client.flights[k].token.value;
            && Lookup(s.rows, token).Some?
            && !s.rows[Lookup(s.rows, token).value].RevokedFor(Rotation)
  {
    var token := s.client.flights[k].token.value;
    assert Sent(s.client, k, token);
    forall j | Sent(s.client, j, token) ensures j !in s.served {
      assert j == k;
    }
  }

  // The access token beside a stored refresh token names the same session, so
  // that logging out with the one revokes the other.
  lemma LogoutHitsStoredSession(steps: seq<Step>, now: Instant)
    requires AllReliable(steps)
    requires var c := RunSystem(INITIAL, steps).client; c.access.Some? && c.refresh.Some?
    ensures var s := RunSystem(INITIAL, steps);
            var rows := Apply(s.rows, now, Op.Logout(s.client.access.value)).0;
            && Lookup(rows, s.client.refresh.value).Some?
            && rows[Lookup(rows, s.client.refresh.value).value].revoked.Some?
  {
    RunKeepsPaired(INITIAL, steps);
    var s := RunSystem(INITIAL, steps);
    TableStep(s.rows, now, Op.Logout(s.client.access.value));
    FindsRow(s.rows, s.client.access.value);
  }

  // ---- what becomes of a call ----

  predicate IsReturned(s: System, id: nat) {
    id in s.client.tasks && s.client.tasks[id].Returned?
  }

  predicate IsRequesting(s: System, id: nat) {
    id in s.client.tasks && s.client.tasks[id].Requesting?
  }

  predicate JoinedFinished(s: System, id: nat, ok: bool) {
    && id in s.client.tasks && s.client.tasks[id].Joined?
    && s.client.tasks[id].flight < |s.client.flights|
    && s.client.flights[s.client.tasks[id].flight].progress == Finished(ok)
  }

  // A call goes out once to begin with.
  lemma CallGoesOut(s: System, id: nat, mayRefresh: bool)
    requires id !in s.client.tasks
    ensures Next(s, StartTask(id, mayRefresh)).client.tasks == s.client.tasks[id := Requesting(mayRefresh, 1)]
  {
  }

  // Its answer ends it, but for an expired access token on a call that may
  // refresh: that joins the refresh under way, or the one it starts.
  lemma AnswerDecides(s: System, id: nat)
    requires IsRequesting(s, id)
    ensures var sends := s.client.tasks[id].sends;
            var k := if s.client.inflight.Some? then s.client.inflight.value else |s.client.flights|;
            && Next(s, TaskResponse(id, Success)).client.tasks == s.client.tasks[id := Returned(true, sends)]
            && Next(s, TaskResponse(id, Failed)).client.tasks == s.client.tasks[id := Returned(false, sends)]
            && Next(s, TaskResponse(id, Response.Expired)).client.tasks
               == s.client.tasks[id := if s.client.tasks[id].mayRefresh then Joined(k, sends) else Returned(false, sends)]
    ensures s.client.tasks[id].mayRefresh && s.client.inflight.None? ==>
              var c := Next(s, TaskResponse(id, Response.Expired)).client;
              && c.inflight == Some(|s.client.flights|)
              && c.flights == s.client.flights
                              + [Flight(s.client.refresh, if s.client.refresh.Some? then Waiting else Rejected)]
  {
  }

  // A call whose refresh brought tokens goes out exactly once more, and may not
  // refresh again; one whose refresh failed is reported as failed.
  lemma ResumesOnceMore(s: System, id: nat, response: Response)
    ensures JoinedFinished(s, id, true) ==>
              var sends := s.client.tasks[id].sends;
              var resent := Next(s, ResumeTask(id));
              && resent.client.tasks == s.client.tasks[id := Requesting(false, sends + 1)]
              && Next(resent, TaskResponse(id, response)).client.tasks
                 == s.client.tasks[id := Returned(response == Success, sends + 1)]
    ensures JoinedFinished(s, id, false) ==>
              Next(s, ResumeTask(id)).client.tasks == s.client.tasks[id := Returned(false, s.client.tasks[id].sends)]
  {
  }

  // Why a step ends a call, and how.
  predicate Ends(s: System, step: Step, id: nat, ok: bool) {
    || (step == TaskResponse(id, Success) && IsRequesting(s, id) && ok)
    || (step == TaskResponse(id, Failed) && IsRequesting(s, id) && !ok)
    || (step == TaskResponse(id, Response.Expired) && IsRequesting(s, id) && !s.client.tasks[id].mayRefresh && !ok)
    || (step == ResumeTask(id) && JoinedFinished(s, id, false) && !ok)
  }

  lemma StepEnds(s: System, step: Step, id: nat)
    ensures IsReturned(s, id) ==> IsReturned(Next(s, step), id)
                                  && Next(s, step).client.tasks[id] == s.client.tasks[id]
    ensures !IsReturned(s, id) ==>
              (IsReturned(Next(s, step), id) <==> Ends(s, step, id, true) || Ends(s, step, id, false))
    ensures !IsReturned(s, id) && IsReturned(Next(s, step), id) ==>
              var end := Next(s, step).client.tasks[id];
              Ends(s, step, id, end.ok) && end.sends == s.client.tasks[id].sends
  {
  }

  // In every run, a call that has ended was ended by one of those steps, with
  // the outcome that the step gives, and with as many sends as it had.
  lemma {:induction false} EndedBecause(s: System, steps: seq<Step>, id: nat) returns (i: nat)
    requires !IsReturned(s, id) && IsReturned(RunSystem(s, steps), id)
    ensures i < |steps|
    ensures var before, end := RunSystem(s, steps[..i]), RunSystem(s, steps).client.tasks[id];
            Ends(before, steps[i], id, end.ok) && end.sends == before.client.tasks[id].sends
    decreases steps
  {
    if steps == [] {
      assert false;
    } else {
      var s' := Next(s, steps[0]);
      StepEnds(s, steps[0], id);
      if IsReturned(s', id) {
        i := 0;
        StaysReturned(s', steps[1..], id);
        assert steps[..0] == [];
      } else {
        var j := EndedBecause(s', steps[1..], id);
        i := j + 1;
        assert steps[..i][1..] == steps[1..][..j];
      }
    }
  }

  lemma {:induction false} StaysReturned(s: System, steps: seq<Step>, id: nat)
    requires IsReturned(s, id)
    ensures IsReturned(RunSystem(s, steps), id) && RunSystem(s, steps).client.tasks[id] == s.client.tasks[id]
    decreases steps
  {
    if steps != [] {
      StepEnds(s, steps[0], id);
      StaysReturned(Next(s, steps[0]), steps[1..], id);
    }
  }

  // The steps of one call that refreshes and is sent again.
  function RefreshedCall(s: System, id: nat, now: Instant, minted: Token): seq<Step> {
    [TaskResponse(id, Response.Expired), Serve(|s.client.flights|, now, minted, true), Deliver(true),
     RunFinally, ResumeTask(id), TaskResponse(id, Success)]
  }

  predicate CanRefresh(s: System, id: nat, now: Instant, minted: Token) {
    && id in s.client.tasks && s.client.tasks[id] == Requesting(true, 1)
    && s.client.inflight.None? && |s.client.flights| !in s.served
    && s.client.refresh.Some? && Lookup(s.rows, s.client.refresh.value).Some?
    && s.rows[Lookup(s.rows, s.client.refresh.value).value].revoked.None?
    && now <= s.rows[Lookup(s.rows, s.client.refresh.value).value].expiresAt
    && Lookup(s.rows, minted).None?
  }

  // With a stored token that the server accepts, the call succeeds with its
  // second send, and the cells hold the new pair.
  lemma RefreshedCallSucceeds(s: System, id: nat, now: Instant, minted: Token)
    requires Inv(s) && CanRefresh(s, id, now, minted)
    ensures var c := RunSystem(s, RefreshedCall(s, id, now, minted)).client;
            && c.tasks == s.client.tasks[id := Returned(true, 2)]
            && c.access == Some(|s.rows|) && c.refresh == Some(minted) && c.inflight.None?
  {
    var steps := RefreshedCall(s, id, now, minted);
    var k, token := |s.client.flights|, s.client.refresh.value;
    assert steps[0..] == steps;
    var s1 := Next(s, steps[0]);
    RefreshSucceedsIff(s.rows, now, token, minted, true);
    var s2 := Next(s1, steps[1]);
    assert s2.served[k] == Tokens(minted, |s.rows|) && s2.client == s1.client;
    RunOne(s, steps, 0, s1);
    RunOne(s1, steps, 1, s2);
    DeliveredCallSucceeds(s2, steps, id, k, minted);
  }

  lemma DeliveredCallSucceeds(s: System, steps: seq<Step>, id: nat, k: nat, minted: Token)
    requires |steps| == 6 && steps[2..] == [Deliver(true), RunFinally, ResumeTask(id), TaskResponse(id, Success)]
    requires s.client.inflight == Some(k) && k < |s.client.flights| && s.client.flights[k].progress == Waiting
    requires id in s.client.tasks && s.client.tasks[id] == Joined(k, 1)
    requires k in s.served && s.served[k].Tokens? && s.served[k].minted == minted
    ensures var c := RunSystem(s, steps[2..]).client;
            && c.tasks == s.client.tasks[id := Returned(true, 2)]
            && c.access == Some(s.served[k].session) && c.refresh == Some(minted) && c.inflight.None?
  {
    assert steps[2] == steps[2..][0] && steps[3] == steps[2..][1] && steps[4] == steps[2..][2] && steps[5] == steps[2..][3];
    var s3 := Next(s, steps[2]);
    var s4 := Next(s3, steps[3]);
    var s5 := Next(s4, steps[4]);
    RunOne(s, steps, 2, s3);
    RunOne(s3, steps, 3, s4);
    RunOne(s4, steps, 4, s5);
    RunOne(s5, steps, 5, Next(s5, steps[5]));
  }

  // A refresh that fails, by a refusal or a lost reply, clears both cells, and
  // the calls that joined it fail.
  lemma FailedRefreshFailsCalls(s: System, id: nat, k: nat)
    requires s.client.inflight == Some(k) && k < |s.client.flights| && s.client.flights[k].progress == Waiting
    requires id in s.client.tasks && s.client.tasks[id].Joined? && s.client.tasks[id].flight == k
    requires k in s.served ==> !s.served[k].Tokens?
    ensures InflightIs(Next(s, Lose).client, Rejected)
    ensures k in s.served ==> Next(s, Deliver(true)).client == Next(s, Lose).client
    ensures var settled := Next(Next(s, Lose), RunCatch(true));
            var done := Next(settled, RunFinally);
            && settled.client.access.None? && settled.client.refresh.None?
            && done.client.inflight.None? && JoinedFinished(done, id, false)
            && Next(done, ResumeTask(id)).client.tasks
               == s.client.tasks[id := Returned(false, s.client.tasks[id].sends)]
  {
  }

  // A login that is adopted fills both cells, and clearing empties both.
  lemma CellsWritten(s: System, token: Token)
    ensures token in s.logins ==>
              var c := Next(s, AdoptLogin(token, true)).client;
              c.access == Some(s.logins[token]) && c.refresh == Some(token)
    ensures var c := Next(s, Forget(true)).client;
            c.access.None? && c.refresh.None?
  {
  }

  // ---- when a sign-out is undone ----

  // The refresh under way can still bring tokens at time `t` or later: it has
  // been answered with some, or the server has yet to see it and its session is
  // neither revoked nor past its expiry.
  predicate CanYield(s: System, t: Instant) {
    && InflightIs(s.client, Waiting)
    && var k := s.client.inflight.value;
       var token := s.client.flights[k].token;
       if k in s.served then s.served[k].Tokens?
       else token.Some? && Lookup(s.rows, token.value).Some? && !Spent(s.rows, token.value, t)
  }

  predicate Spent(rows: Table, token: Token, t: Instant)
    requires Lookup(rows, token).Some?
  {
    var row := rows[Lookup(rows, token).value];
    row.revoked.Some? || row.expiresAt < t
  }

  predicate NoLogin(steps: seq<Step>) {
    forall i :: 0 <= i < |steps| ==> !steps[i].AdoptLogin?
  }

  // The server's clock, at `t` before the step.
  function TimeAfter(step: Step, t: Instant): Instant {
    match step
    case Serve(_, now, _, _) => now
    case ServeLogin(_, now, _, _) => now
    case Others(now, _) => now
    case _ => t
  }

  predicate Onward(t: Instant, steps: seq<Step>)
    decreases steps
  {
    steps == [] || (t <= TimeAfter(steps[0], t) && Onward(TimeAfter(steps[0], t), steps[1..]))
  }

  lemma SpentStays(t: Table, now: Instant, op: Op, token: Token, time: Instant)
    requires Valid(t) && Lookup(t, token).Some? && Spent(t, token, time) && time <= now
    ensures var rows := Apply(t, now, op).0;
            Lookup(rows, token).Some? && Spent(rows, token, now)
    ensures op.Refresh? && op.token == token ==> !Apply(t, now, op).1.Tokens?
  {
    TableStep(t, now, op);
  }

  // The server does something, and answers the refresh under way if at all
  // without tokens.
  lemma ServerStaysOut(s: System, t: Instant, now: Instant, op: Op, s': System)
    requires Inv(s) && !CanYield(s, t) && t <= now
    requires s'.client == s.client && s'.rows == Apply(s.rows, now, op).0
    requires forall k :: k in s.served ==> k in s'.served && s'.served[k] == s.served[k]
    requires forall k :: k in s'.served && k !in s.served ==>
               && s'.served[k] == Apply(s.rows, now, op).1 && op.Refresh?
               && k < |s.client.flights| && s.client.flights[k].token == Some(op.token)
    ensures !CanYield(s', now)
  {
    if InflightIs(s.client, Waiting) && s.client.inflight.value !in s.served {
      var k := s.client.inflight.value;
      if s.client.flights[k].token.Some? {
        assert Sent(s.client, k, s.client.flights[k].token.value);
        SpentStays(s.rows, now, op, s.client.flights[k].token.value, t);
      }
    }
  }

  lemma ServeStaysOut(s: System, t: Instant, k: nat, now: Instant, minted: Token, signs: bool)
    requires Inv(s) && !CanYield(s, t) && t <= now
    ensures !CanYield(Next(s, Serve(k, now, minted, signs)), now)
  {
    if k < |s.client.flights| && s.client.flights[k].token.Some? && k !in s.served {
      ServerStaysOut(s, t, now, Refresh(s.client.flights[k].token.value, minted, signs),
        Next(s, Serve(k, now, minted, signs)));
    }
  }

  lemma ClientStaysOut(s: System, t: Instant, step: Step)
    requires s.client.refresh.None? && !CanYield(s, t)
    requires !step.AdoptLogin? && !step.Serve? && !step.ServeLogin? && !step.Others?
    ensures Next(s, step).client.refresh.None? && !CanYield(Next(s, step), t)
  {
  }

  // With the cell empty and no refresh that can bring tokens, both stay so.
  lemma StepStaysOut(s: System, t: Instant, step: Step)
    requires Inv(s) && s.client.refresh.None? && !CanYield(s, t) && !step.AdoptLogin? && t <= TimeAfter(step, t)
    ensures Next(s, step).client.refresh.None? && !CanYield(Next(s, step), TimeAfter(step, t))
  {
    var s' := Next(s, step);
    match step
    case Serve(k, now, minted, signs) => ServeStaysOut(s, t, k, now, minted, signs);
    case ServeLogin(user, now, minted, signs) => ServerStaysOut(s, t, now, Op.Login(user, minted, signs), s');
    case Others(now, op) =>
      if !(op.Refresh? && op.token in s.owned) {
        ServerStaysOut(s, t, now, op, s');
      }
    case _ => ClientStaysOut(s, t, step);
  }

  lemma {:induction false} RunStaysOut(s: System, t: Instant, steps: seq<Step>)
    requires Inv(s) && s.client.refresh.None? && !CanYield(s, t) && NoLogin(steps) && Onward(t, steps)
    ensures RunSystem(s, steps).client.refresh.None?
    decreases steps
  {
    if steps != [] {
      assert !steps[0].AdoptLogin?;
      assert forall i :: 0 <= i < |steps| - 1 ==> steps[1..][i] == steps[i + 1];
      StepStaysOut(s, t, steps[0]);
      NextKeepsInv(s, steps[0]);
      RunStaysOut(Next(s, steps[0]), TimeAfter(steps[0], t), steps[1..]);
    }
  }

  lemma {:induction false} FreshToken(t: Table) returns (token: Token)
    ensures Lookup(t, token).None?
    ensures forall i :: 0 <= i < |t| ==> t[i].token < token
  {
    if t == [] {
      token := 0;
    } else {
      token := FreshToken(t[..|t| - 1]);
      token := if t[|t| - 1].token < token then token else t[|t| - 1].token + 1;
      forall i | 0 <= i < |t| ensures t[i].token < token {
        assert i < |t| - 1 ==> t[..|t| - 1][i] == t[i];
      }
    }
  }

  lemma YieldComesBack(s: System, t: Instant) returns (later: seq<Step>)
    requires Inv(s) && CanYield(s, t)
    ensures AllReliable(later) && NoLogin(later) && Onward(t, later)
    ensures RunSystem(s, later).client.refresh.Some?
  {
    var k := s.client.inflight.value;
    if k in s.served {
      later := [Deliver(true)];
      assert later[0..] == later;
      RunOne(s, later, 0, Next(s, later[0]));
    } else {
      var token := s.client.flights[k].token.value;
      var minted := FreshToken(s.rows);
      later := [Serve(k, t, minted, true), Deliver(true)];
      assert later[0..] == later;
      RefreshSucceedsIff(s.rows, t, token, minted, true);
      var s1 := Next(s, later[0]);
      RunOne(s, later, 0, s1);
      RunOne(s1, later, 1, Next(s1, later[1]));
      assert later[1..] == [Deliver(true)] && Onward(t, [Deliver(true)]);
    }
  }

  // The cell is filled again in some run from time `t` on without a new login.
  ghost predicate ComesBack(s: System, t: Instant) {
    exists later ::
      AllReliable(later) && NoLogin(later) && Onward(t, later) && RunSystem(s, later).client.refresh.Some?
  }

  // From any reachable state with an empty cell, that is so exactly when a
  // refresh is under way that can bring tokens.
  lemma ComesBackIff(s: System, t: Instant)
    requires Inv(s) && s.client.refresh.None?
    ensures ComesBack(s, t) <==> CanYield(s, t)
  {
    if CanYield(s, t) {
      var later := YieldComesBack(s, t);
    } else {
      forall later | NoLogin(later) && Onward(t, later) ensures RunSystem(s, later).client.refresh.None? {
        RunStaysOut(s, t, later);
      }
    }
  }

  // Signing out: the server revokes the session of the access token, and the
  // client clears its cells.
  function SignOut(s: System, now: Instant, session: SessionId): System {
    Next(Next(s, Others(now, Op.Logout(session))), Forget(true))
  }

  // A sign-out is undone by some later run without a new login exactly when the
  // refresh under way can bring tokens and the sign-out does not stop it: the
  // server has answered it already, or it carries another token than the one
  // stored, from before a login that came in between.
  lemma SignOutUndoneIff(s: System, now: Instant)
    requires Inv(s) && Paired(s) && s.client.access.Some? && s.client.refresh.Some?
    ensures ComesBack(SignOut(s, now, s.client.access.value), now)
            <==> CanYield(s, now) && (s.client.inflight.value in s.served || !HoldsInFlight(s.client))
  {
    var op := Op.Logout(s.client.access.value);
    var revoked := Next(s, Others(now, op));
    NextKeepsInv(s, Others(now, op));
    NextKeepsInv(revoked, Forget(true));
    SignOutStops(s, now);
    ComesBackIff(Next(revoked, Forget(true)), now);
  }

  lemma StoredSession(s: System, token: Token)
    requires Inv(s) && Paired(s) && s.client.access.Some? && s.client.refresh.Some? && Lookup(s.rows, token).Some?
    ensures s.client.access.value < |s.rows|
    ensures Lookup(s.rows, token) == Some(s.client.access.value) <==> s.client.refresh == Some(token)
  {
    FindsRow(s.rows, s.client.access.value);
  }

  lemma LogoutSpends(s: System, now: Instant, session: SessionId, token: Token)
    requires Valid(s.rows) && session < |s.rows| && Lookup(s.rows, token).Some?
    ensures var rows := Apply(s.rows, now, Op.Logout(session)).0;
            && Lookup(rows, token) == Lookup(s.rows, token)
            && (Spent(rows, token, now) <==> Spent(s.rows, token, now) || Lookup(s.rows, token) == Some(session))
  {
    TableStep(s.rows, now, Op.Logout(session));
  }

  lemma SignOutStops(s: System, now: Instant)
    requires Inv(s) && Paired(s) && s.client.access.Some? && s.client.refresh.Some?
    ensures CanYield(SignOut(s, now, s.client.access.value), now)
            <==> CanYield(s, now) && (s.client.inflight.value in s.served || !HoldsInFlight(s.client))
  {
    if InflightIs(s.client, Waiting) && s.client.flights[s.client.inflight.value].token.Some? {
      var token := s.client.flights[s.client.inflight.value].token.value;
      assert Sent(s.client, s.client.inflight.value, token);
      StoredSession(s, token);
      LogoutSpends(s, now, s.client.access.value, token);
    }
  }

  // Nobody logs out, changes a password, recovers, or replays a token.
  predicate QuietStep(s: System, step: Step) {
    step.Others? ==>
      || step.op.Login?
      || (step.op.Refresh? && Apply(s.rows, step.now, step.op).1 != InvalidCredentials(ReusedToken))
  }

  predicate QuietRun(s: System, steps: seq<Step>)
    decreases steps
  {
    steps == [] || (QuietStep(s, steps[0]) && QuietRun(Next(s, steps[0]), steps[1..]))
  }

  predicate AllRotated(t: Table) {
    forall i :: 0 <= i < |t| && t[i].revoked.Some? ==> t[i].RevokedFor(Rotation)
  }

  ghost predicate OnlyRotations(s: System) {
    && AllRotated(s.rows)
    && (forall k :: k in s.served ==> s.served[k] != InvalidCredentials(ReusedToken))
  }

  lemma QuietOperation(t: Table, now: Instant, op: Op)
    requires AllRotated(t) && (op.Login? || op.Refresh?)
    requires Apply(t, now, op).1 != InvalidCredentials(ReusedToken)
    ensures AllRotated(Apply(t, now, op).0)
  {
  }

  lemma QuietKeepsOnlyRotations(s: System, step: Step)
    requires Inv(s) && OnlyRotations(s) && QuietStep(s, step)
    ensures OnlyRotations(Next(s, step))
  {
    if step.Serve? {
      var k := step.flight;
      if k < |s.client.flights| && s.client.flights[k].token.Some? && k !in s.served {
        UnservedIsNotRotated(s, k);
        QuietOperation(s.rows, step.now, Refresh(s.client.flights[k].token.value, step.minted, step.signs));
      }
    } else if step.ServeLogin? {
      QuietOperation(s.rows, step.now, Op.Login(step.user, step.minted, step.signs));
    } else if step.Others? {
      QuietOperation(s.rows, step.now, step.op);
    }
  }

  lemma {:induction false} QuietRunKeepsOnlyRotations(s: System, steps: seq<Step>)
    requires Inv(s) && OnlyRotations(s) && NoneSpends(s, steps) && QuietRun(s, steps)
    ensures OnlyRotations(RunSystem(s, steps))
    decreases steps
  {
    if steps != [] {
      NextKeepsInv(s, steps[0]);
      QuietKeepsOnlyRotations(s, steps[0]);
      QuietRunKeepsOnlyRotations(Next(s, steps[0]), steps[1..]);
    }
  }

  // With no server-side revocation the reuse branch is never taken on behalf of
  // this client, however requests, losses and late deliveries interleave.
  lemma QuietRunsNeverTripReuse(steps: seq<Step>)
    requires NoneSpends(INITIAL, steps) && QuietRun(INITIAL, steps)
    ensures var s := RunSystem(INITIAL, steps);
            forall k :: k in s.served ==> s.served[k] != InvalidCredentials(ReusedToken)
  {
    QuietRunKeepsOnlyRotations(INITIAL, steps);
  }

  // ---- storage failures ----

  // Of all steps, exactly those leave in the cell a token that is already spent.
  lemma SpentTokenStaysIff(s: System, step: Step)
    requires Inv(s)
    ensures CellIsUnspent(Next(s, step).client) <==> !Spends(s, step)
  {
    if Spends(s, step) {
      var c := Next(s, step).client;
      assert Sent(c, s.client.inflight.value, s.client.refresh.value);
    } else {
      NextKeepsInv(s, step);
    }
  }

  // And exactly after those is there a run in which some token is sent twice,
  // all later writes being accepted.
  lemma ReplayFollowsIff(s: System, step: Step)
    requires Inv(s)
    ensures (exists later :: AllReliable(later) && !SentOnce(RunSystem(Next(s, step), later).client))
            <==> Spends(s, step)
  {
    var s' := Next(s, step);
    if Spends(s, step) {
      var later := SpentLetsReplay(s, step);
    } else {
      NextKeepsInv(s, step);
      forall later | AllReliable(later) ensures SentOnce(RunSystem(s', later).client) {
        ReliableNeverSpends(s', later);
        RunKeepsInv(s', later);
      }
    }
  }

  lemma AfterSpending(s: System, step: Step)
    requires Inv(s) && Spends(s, step)
    ensures var c, k := Next(s, step).client, s.client.inflight.value;
            && c.refresh == s.client.refresh && c.tasks == s.client.tasks && |c.flights| == |s.client.flights|
            && Sent(c, k, s.client.refresh.value)
            && (InflightIs(c, Settled(true)) || InflightIs(c, Settled(false)))
  {
  }

  lemma SpentLetsReplay(s: System, step: Step) returns (later: seq<Step>)
    requires Inv(s) && Spends(s, step)
    ensures AllReliable(later) && !SentOnce(RunSystem(Next(s, step), later).client)
  {
    AfterSpending(s, step);
    var id := FreeTask(s.client.tasks);
    later := ResendsCell(Next(s, step), s.client.inflight.value, id);
  }

  // A settled flight whose token is still in the cell, and a new request.
  lemma ResendsCell(s: System, k: nat, id: nat) returns (later: seq<Step>)
    requires s.client.refresh.Some? && Sent(s.client, k, s.client.refresh.value) && id !in s.client.tasks
    requires InflightIs(s.client, Settled(true)) || InflightIs(s.client, Settled(false))
    ensures AllReliable(later) && !SentOnce(RunSystem(s, later).client)
  {
    later := [RunFinally, StartTask(id, true), TaskResponse(id, Response.Expired)];
    var s1 := Next(s, later[0]);
    var s2 := Next(s1, later[1]);
    var s3 := Next(s2, later[2]);
    RunOne(s, later, 0, s1);
    RunOne(s1, later, 1, s2);
    RunOne(s2, later, 2, s3);
    assert later[0..] == later;
    assert Sent(s3.client, k, s.client.refresh.value);
    assert Sent(s3.client, |s.client.flights|, s.client.refresh.value);
  }

  lemma FreeTask(tasks: map<nat, Task>) returns (id: nat)
    ensures id !in tasks
  {
    var keys := tasks.Keys;
    id := 0;
    while keys != {}
      invariant keys <= tasks.Keys
      invariant forall k :: k in tasks && k !in keys ==> k < id
      decreases |keys|
    {
      var k :| k in keys;
      keys := keys - {k};
      id := if k < id then id else k + 1;
    }
  }

  // One refused write is enough for the next refresh to replay a spent token
  // and revoke every session of the user: log in, refresh while the cell
  // refuses the write, refresh again.
  const LOG_IN: seq<Step> :=
    [ServeLogin(1, 0, 100, true), AdoptLogin(100, true), StartTask(0, true), TaskResponse(0, Response.Expired)]

  const REFRESH_UNSTORED: seq<Step> := [Serve(0, 1, 101, true), Deliver(false), RunFinally]

  const REFRESH_AGAIN: seq<Step> :=
    [StartTask(1, true), TaskResponse(1, Response.Expired), Serve(1, 2, 102, true)]

  const FIRST_SESSION := Row(1, 100, REFRESH_TOKEN_LIFETIME, None, None)

  const LOGGED_IN := System(
    [FIRST_SESSION],
    Client(Some(0), Some(100), Some(0), [Flight(Some(100), Waiting)], map[0 := Joined(0, 1)]),
    map[], map[], {100})

  const UNSTORED := System(
    [FIRST_SESSION.(revoked := Some(Revocation(1, Rotation))),
     Row(1, 101, 1 + REFRESH_TOKEN_LIFETIME, None, Some(0))],
    Client(Some(1), Some(100), None, [Flight(Some(100), Finished(true))], map[0 := Joined(0, 1)]),
    map[0 := Tokens(101, 1)], map[], {100, 101})

  lemma {:induction false} RunAppend(s: System, first: seq<Step>, second: seq<Step>)
    ensures RunSystem(s, first + second) == RunSystem(RunSystem(s, first), second)
    decreases first
  {
    if first == [] {
      assert first + second == second;
    } else {
      assert (first + second)[1..] == first[1..] + second;
      RunAppend(Next(s, first[0]), first[1..], second);
    }
  }

  lemma RunOne(s: System, steps: seq<Step>, i: nat, s': System)
    requires i < |steps| && s' == Next(s, steps[i])
    ensures RunSystem(s, steps[i..]) == RunSystem(s', steps[i + 1..])
  {
  }

  lemma LogsIn()
    ensures RunSystem(INITIAL, LOG_IN) == LOGGED_IN
  {
    var s1 := System([FIRST_SESSION], EMPTY_CLIENT, map[], map[100 := 0], {100});
    var s2 := s1.(client := EMPTY_CLIENT.(access := Some(0), refresh := Some(100)), logins := map[]);
    var s3 := s2.(client := s2.client.(tasks := map[0 := Requesting(true, 1)]));
    RunOne(INITIAL, LOG_IN, 0, s1);
    RunOne(s1, LOG_IN, 1, s2);
    RunOne(s2, LOG_IN, 2, s3);
    RunOne(s3, LOG_IN, 3, LOGGED_IN);
  }

  lemma RefreshesUnstored()
    ensures RunSystem(LOGGED_IN, REFRESH_UNSTORED) == UNSTORED
  {
  }

  lemma ReplaysSpentToken()
    ensures var s := RunSystem(UNSTORED, REFRESH_AGAIN);
            && 1 in s.served && s.served[1] == InvalidCredentials(ReusedToken)
            && |s.rows| == 2 && s.rows[1].RevokedFor(ReuseDetected)
  {
    var c := UNSTORED.client;
    var s1 := UNSTORED.(client := c.(tasks := c.tasks[1 := Requesting(true, 1)]));
    var s2 := UNSTORED.(client := c.(tasks := c.tasks[1 := Joined(1, 1)], inflight := Some(1),
                                     flights := c.flights + [Flight(Some(100), Waiting)]));
    RunOne(UNSTORED, REFRESH_AGAIN, 0, s1);
    RunOne(s1, REFRESH_AGAIN, 1, s2);
    RunOne(s2, REFRESH_AGAIN, 2, Next(s2, REFRESH_AGAIN[2]));
    assert Lookup(UNSTORED.rows[..1], 100) == Some(0);
  }

  lemma RefusedWriteTripsReuse()
    ensures var s := RunSystem(INITIAL, LOG_IN + REFRESH_UNSTORED + REFRESH_AGAIN);
            && 1 in s.served && s.served[1] == InvalidCredentials(ReusedToken)
            && |s.rows| == 2 && s.rows[1].RevokedFor(ReuseDetected)
  {
    LogsIn();
    RefreshesUnstored();
    RunAppend(INITIAL, LOG_IN, REFRESH_UNSTORED);
    RunAppend(INITIAL, LOG_IN + REFRESH_UNSTORED, REFRESH_AGAIN);
    assert RunSystem(INITIAL, LOG_IN + REFRESH_UNSTORED) == UNSTORED;
    assert RunSystem(INITIAL, LOG_IN + REFRESH_UNSTORED + REFRESH_AGAIN) == RunSystem(UNSTORED, REFRESH_AGAIN);
    ReplaysSpentToken();
  }

  // For instance: the server rotates, the user signs out, the reply arrives.
  const SIGNED_OUT_MEANWHILE: seq<Step> :=
    [Serve(0, 1, 101, true), Others(2, Op.Logout(0)), Forget(true), Deliver(true)]

  lemma SignsInAgain()
    ensures var s := RunSystem(LOGGED_IN, SIGNED_OUT_MEANWHILE);
            && s.client.refresh == Some(101) && |s.rows| == 2
            && s.rows[1].token == 101 && s.rows[1].revoked.None?
  {
    var steps := SIGNED_OUT_MEANWHILE;
    var s1 := Next(LOGGED_IN, steps[0]);
    assert s1 == UNSTORED.(client := LOGGED_IN.client);
    var s2 := Next(s1, steps[1]);
    assert s2 == s1;
    var s3 := Next(s2, steps[2]);
    assert steps[0..] == steps;
    RunOne(LOGGED_IN, steps, 0, s1);
    RunOne(s1, steps, 1, s2);
    RunOne(s2, steps, 2, s3);
    RunOne(s3, steps, 3, Next(s3, steps[3]));
  }
}
