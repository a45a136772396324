// The session table behind refresh tokens (server/internal/auth/session.go) and
// the handlers that change it.
//
// A token is identified with its SHA-256 hash, because the hash is all the
// server ever stores or compares. A session id is the row's position in
// insertion order. `rotatedFrom` is the audit detail "rotated_from" that
// Refresh writes for the row it creates.
module Sessions {
  import opened Wrappers

  type UserId = nat
  type SessionId = nat
  type Token = nat
  type Instant = int  // nanoseconds

  const REFRESH_TOKEN_LIFETIME: int := 7 * 24 * 3600 * 1_000_000_000

  datatype Reason = Logout | LogoutAll | Rotation | Admin | Expired | Recovery | ReuseDetected

  datatype Revocation = Revocation(at: Instant, reason: Reason)

  datatype Row = Row(user: UserId, token: Token, expiresAt: Instant,
                     revoked: Option<Revocation>, rotatedFrom: Option<SessionId>) {
    predicate IsActive(now: Instant) {
      revoked.None? && expiresAt > now
    }

    predicate RevokedFor(reason: Reason) {
      revoked.Some? && revoked.value.reason == reason
    }
  }

  type Table = seq<Row>

  // ---- table accessors ----

  // SELECT ... WHERE refresh_token_hash = token LIMIT 1
  function Lookup(t: Table, token: Token): (r: Option<SessionId>)
    ensures r.Some? ==> r.value < |t| && t[r.value].token == token
    ensures r.None? ==> forall i :: 0 <= i < |t| ==> t[i].token != token
  {
    if t == [] then None
    else if t[|t| - 1].token == token then Some(|t| - 1)
    else Lookup(t[..|t| - 1], token)
  }

  // INSERT, refused by the UNIQUE constraint on the hash.
  function Insert(t: Table, row: Row): (r: Option<Table>)
  {
    if Lookup(t, row.token).Some? then None else Some(t + [row])
  }

  function RevokeRow(row: Row, now: Instant, reason: Reason): Row {
    if row.revoked.None? then row.(revoked := Some(Revocation(now, reason))) else row
  }

  // UPDATE ... WHERE id = id AND revoked_at IS NULL
  function RevokeOne(t: Table, id: SessionId, now: Instant, reason: Reason): (r: Table) {
    if id < |t| then t[id := RevokeRow(t[id], now, reason)] else t
  }

  // UPDATE ... WHERE user_id = user AND revoked_at IS NULL
  function RevokeUser(t: Table, user: UserId, now: Instant, reason: Reason): (r: Table)
    ensures |r| == |t|
    ensures forall i :: 0 <= i < |t| ==>
              r[i] == if t[i].user == user then RevokeRow(t[i], now, reason) else t[i]
  {
    seq(|t|, i requires 0 <= i < |t| =>
      if t[i].user == user then RevokeRow(t[i], now, reason) else t[i])
  }

  // ---- handlers as atomic transitions ----

  datatype Op =
    | Login(user: UserId, minted: Token, signs: bool)
    | Refresh(token: Token, minted: Token, signs: bool)
    | Logout(session: SessionId)
    | LogoutAll(user: UserId)
    | ChangePassword(user: UserId)
    | Recover(user: UserId)

  datatype Cause = UnknownToken | ReusedToken | ExpiredToken

  datatype Reply =
    | Tokens(minted: Token, session: SessionId)
    | InvalidCredentials(cause: Cause)
    | InternalError
    | NoContent

  function ApplyLogin(t: Table, now: Instant, user: UserId, minted: Token, signs: bool): (Table, Reply) {
    match Insert(t, Row(user, minted, now + REFRESH_TOKEN_LIFETIME, None, None))
    case Some(t') => (t', Issued(minted, |t|, signs))
    case None => (t, InternalError)
  }

  // The access token is signed after the commit; when that fails the new row
  // stays all the same.
  function Issued(minted: Token, session: SessionId, signs: bool): Reply {
    if signs then Tokens(minted, session) else InternalError
  }

  // `minted` is the token GenerateRefresh drew. A unique violation rolls the
  // whole transaction back, the revocation included.
  function ApplyRefresh(t: Table, now: Instant, token: Token, minted: Token, signs: bool): (Table, Reply) {
    match Lookup(t, token)
    case None => (t, InvalidCredentials(UnknownToken))
    case Some(id) =>
      var row := t[id];
      if row.revoked.Some? then
        (RevokeUser(t, row.user, now, ReuseDetected), InvalidCredentials(ReusedToken))
      else if row.expiresAt < now then
        (t, InvalidCredentials(ExpiredToken))
      else
        var revoked := RevokeOne(t, id, now, Rotation);
        match Insert(revoked, Row(row.user, minted, now + REFRESH_TOKEN_LIFETIME, None, Some(id)))
        case Some(t') => (t', Issued(minted, |t|, signs))
        case None => (t, InternalError)
  }

  function Apply(t: Table, now: Instant, op: Op): (Table, Reply) {
    match op
    case Login(user, minted, signs) => ApplyLogin(t, now, user, minted, signs)
    case Refresh(token, minted, signs) => ApplyRefresh(t, now, token, minted, signs)
    case Logout(session) => (RevokeOne(t, session, now, Reason.Logout), NoContent)
    case LogoutAll(user) => (RevokeUser(t, user, now, Reason.LogoutAll), NoContent)
    case ChangePassword(user) => (RevokeUser(t, user, now, Admin), NoContent)
    case Recover(user) => (RevokeUser(t, user, now, Recovery), NoContent)
  }

  datatype Event = Event(now: Instant, op: Op)

  function Run(t: Table, events: seq<Event>): Table
    decreases events
  {
    if events == [] then t
    else Run(Apply(t, events[0].now, events[0].op).0, events[1..])
  }

  // ---- the handlers in the source's imperative form ----

  class AuthServer {
    var rows: Table

    constructor ()
      ensures rows == []
    {
      rows := [];
    }

    method CreateSession(user: UserId, token: Token, expiresAt: Instant, rotatedFrom: Option<SessionId>)
        returns (id: Option<SessionId>)
      modifies this
      ensures id.Some? <==> Lookup(old(rows), token).None?
      ensures id.Some? ==> id.value == |old(rows)|
                           && rows == old(rows) + [Row(user, token, expiresAt, None, rotatedFrom)]
      ensures id.None? ==> rows == old(rows)
    {
      match Insert(rows, Row(user, token, expiresAt, None, rotatedFrom)) {
        case Some(t') =>
          id := Some(|rows|);
          rows := t';
        case None =>
          id := None;
      }
    }

    method RevokeSession(id: SessionId, now: Instant, reason: Reason)
      modifies this
      ensures rows == RevokeOne(old(rows), id, now, reason)
    {
      if id < |rows| && rows[id].revoked.None? {
        rows := rows[id := rows[id].(revoked := Some(Revocation(now, reason)))];
      }
    }

    method RevokeAllUserSessions(user: UserId, now: Instant, reason: Reason)
      modifies this
      ensures rows == RevokeUser(old(rows), user, now, reason)
      ensures |rows| == |old(rows)| && forall i :: 0 <= i < |rows| ==>
                && (rows[i].user == user ==> rows[i].revoked.Some?)
                && (old(rows)[i].user != user || old(rows)[i].revoked.Some? ==> rows[i] == old(rows)[i])
                && (old(rows)[i].user == user && old(rows)[i].revoked.None? ==>
                      rows[i] == old(rows)[i].(revoked := Some(Revocation(now, reason))))
    {
      rows := RevokeUser(rows, user, now, reason);
    }

    method Login(user: UserId, minted: Token, signs: bool, now: Instant) returns (reply: Reply)
      modifies this
      ensures (rows, reply) == Apply(old(rows), now, Op.Login(user, minted, signs))
    {
      var id := CreateSession(user, minted, now + REFRESH_TOKEN_LIFETIME, None);
      reply := if id.Some? && signs then Tokens(minted, id.value) else InternalError;
    }

    method Refresh(token: Token, minted: Token, signs: bool, now: Instant) returns (reply: Reply)
      modifies this
      ensures (rows, reply) == Apply(old(rows), now, Op.Refresh(token, minted, signs))
    {
      var found := Lookup(rows, token);
      if found.None? {
        return InvalidCredentials(UnknownToken);
      }
      var row := rows[found.value];
      if row.revoked.Some? {
        RevokeAllUserSessions(row.user, now, ReuseDetected);
        return InvalidCredentials(ReusedToken);
      }
      if row.expiresAt < now {
        return InvalidCredentials(ExpiredToken);
      }
      var begin := rows;
      RevokeSession(found.value, now, Rotation);
      var id := CreateSession(row.user, minted, now + REFRESH_TOKEN_LIFETIME, found);
      if id.None? {
        rows := begin;  // deferred Rollback
        return InternalError;
      }
      if !signs {
        return InternalError;  // after the commit
      }
      reply := Tokens(minted, id.value);
    }

    method Logout(session: SessionId, now: Instant)
      modifies this
      ensures rows == Apply(old(rows), now, Op.Logout(session)).0
    {
      RevokeSession(session, now, Reason.Logout);
    }

    method LogoutAll(user: UserId, now: Instant)
      modifies this
      ensures rows == Apply(old(rows), now, Op.LogoutAll(user)).0
    {
      RevokeAllUserSessions(user, now, Reason.LogoutAll);
    }

    method ChangePassword(user: UserId, passwordOk: bool, now: Instant) returns (reply: Reply)
      modifies this
      ensures passwordOk ==> (rows, reply) == Apply(old(rows), now, Op.ChangePassword(user))
      ensures !passwordOk ==> rows == old(rows) && reply.InvalidCredentials?
    {
      if !passwordOk {
        return InvalidCredentials(UnknownToken);
      }
      RevokeAllUserSessions(user, now, Admin);
      reply := NoContent;
    }

    // The session effect of RecoverInit and, a second time, of RecoverComplete.
    method Recover(user: UserId, codeOk: bool, now: Instant) returns (reply: Reply)
      modifies this
      ensures codeOk ==> (rows, reply) == Apply(old(rows), now, Op.Recover(user))
      ensures !codeOk ==> rows == old(rows) && reply.InvalidCredentials?
    {
      if !codeOk {
        return InvalidCredentials(UnknownToken);
      }
      RevokeAllUserSessions(user, now, Recovery);
      reply := NoContent;
    }
  }

  // ---- what every handler keeps ----

  predicate UniqueTokens(t: Table) {
    forall i, j :: 0 <= i < j < |t| ==> t[i].token != t[j].token
  }

  predicate IsSuccessor(t: Table, child: int, parent: int) {
    0 <= child < |t| && t[child].rotatedFrom == Some(parent)
  }

  // A row created by rotation names an older row of the same user, and that
  // row is revoked as rotated.
  predicate ParentsRotated(t: Table) {
    forall i :: 0 <= i < |t| && t[i].rotatedFrom.Some? ==>
      var p := t[i].rotatedFrom.value;
      p < i && t[p].user == t[i].user && t[p].RevokedFor(Rotation)
  }

  ghost predicate OneSuccessor(t: Table) {
    forall i, j, p :: IsSuccessor(t, i, p) && IsSuccessor(t, j, p) ==> i == j
  }

  ghost predicate RotatedHaveSuccessor(t: Table) {
    forall p :: 0 <= p < |t| && t[p].RevokedFor(Rotation) ==> exists i :: IsSuccessor(t, i, p)
  }

  ghost predicate Valid(t: Table) {
    UniqueTokens(t) && ParentsRotated(t) && OneSuccessor(t) && RotatedHaveSuccessor(t)
  }

  // `t'` is a later version of `t`: rows are only appended, only the
  // revocation columns change, and they change at most once.
  predicate Evolves(t: Table, t': Table) {
    && |t| <= |t'|
    && (forall i :: 0 <= i < |t| ==> t'[i].(revoked := t[i].revoked) == t[i])
    && (forall i :: 0 <= i < |t| && t[i].revoked.Some? ==> t'[i].revoked == t[i].revoked)
  }

  lemma StepEvolves(t: Table, now: Instant, op: Op)
    ensures Evolves(t, Apply(t, now, op).0)
  {
  }

  // Same rows but for revocations, none of them by rotation.
  predicate RevokedOnly(t: Table, r: Table) {
    |r| == |t| && forall i :: 0 <= i < |t| ==>
      r[i].(revoked := t[i].revoked) == t[i] && (r[i].RevokedFor(Rotation) <==> t[i].RevokedFor(Rotation))
  }

  lemma RevokedOnlySuccessors(t: Table, r: Table)
    requires RevokedOnly(t, r)
    ensures forall i, p :: IsSuccessor(r, i, p) <==> IsSuccessor(t, i, p)
  {
  }

  lemma RevokedOnlyKeepsValid(t: Table, r: Table)
    requires Valid(t) && RevokedOnly(t, r)
    ensures Valid(r)
  {
    RevokedOnlySuccessors(t, r);
    forall p | 0 <= p < |r| && r[p].RevokedFor(Rotation) ensures exists i :: IsSuccessor(r, i, p) {
      assert t[p].RevokedFor(Rotation);
      var i :| IsSuccessor(t, i, p);
      assert IsSuccessor(r, i, p);
    }
  }

  lemma RevokeUserKeepsValid(t: Table, user: UserId, now: Instant, reason: Reason)
    requires Valid(t) && reason != Rotation
    ensures Valid(RevokeUser(t, user, now, reason))
  {
    RevokedOnlyKeepsValid(t, RevokeUser(t, user, now, reason));
  }

  lemma RevokeOneKeepsValid(t: Table, id: SessionId, now: Instant, reason: Reason)
    requires Valid(t) && reason != Rotation
    ensures Valid(RevokeOne(t, id, now, reason))
  {
    RevokedOnlyKeepsValid(t, RevokeOne(t, id, now, reason));
  }

  lemma AppendKeepsValid(t: Table, row: Row)
    requires Valid(t) && Lookup(t, row.token).None?
    requires row.rotatedFrom.None? && row.revoked.None?
    ensures Valid(t + [row])
  {
    var r := t + [row];
    forall i, p ensures IsSuccessor(r, i, p) <==> IsSuccessor(t, i, p) {}
    forall p | 0 <= p < |r| && r[p].RevokedFor(Rotation) ensures exists i :: IsSuccessor(r, i, p) {
      assert t[p].RevokedFor(Rotation);
      var i :| IsSuccessor(t, i, p);
      assert IsSuccessor(r, i, p);
    }
  }

  lemma RotateKeepsValid(t: Table, id: SessionId, now: Instant, minted: Row)
    requires Valid(t) && id < |t| && t[id].revoked.None?
    requires Lookup(t, minted.token).None?
    requires minted.user == t[id].user && minted.revoked.None? && minted.rotatedFrom == Some(id)
    ensures Valid(RevokeOne(t, id, now, Rotation) + [minted])
  {
    var r := RevokeOne(t, id, now, Rotation) + [minted];
    forall i, p ensures IsSuccessor(r, i, p) <==> IsSuccessor(t, i, p) || (i == |t| && p == id) {}
    assert forall i :: !IsSuccessor(t, i, id);  // a successor would make row `id` revoked
    forall p | 0 <= p < |r| && r[p].RevokedFor(Rotation) ensures exists i :: IsSuccessor(r, i, p) {
      if p == id {
        assert IsSuccessor(r, |t|, p);
      } else {
        assert t[p].RevokedFor(Rotation);
        var i :| IsSuccessor(t, i, p);
        assert IsSuccessor(r, i, p);
      }
    }
  }

  lemma SameTokens(t: Table, t': Table, token: Token)
    requires |t| == |t'| && forall i :: 0 <= i < |t| ==> t[i].token == t'[i].token
    ensures Lookup(t, token) == Lookup(t', token)
  {
  }

  lemma StepKeepsValid(t: Table, now: Instant, op: Op)
    requires Valid(t)
    ensures Valid(Apply(t, now, op).0)
  {
    match op
    case Login(user, minted, _) =>
      if Lookup(t, minted).None? {
        AppendKeepsValid(t, Row(user, minted, now + REFRESH_TOKEN_LIFETIME, None, None));
      }
    case Refresh(token, minted, _) =>
      var found := Lookup(t, token);
      if found.Some? {
        var id := found.value;
        if t[id].revoked.Some? {
          RevokeUserKeepsValid(t, t[id].user, now, ReuseDetected);
        } else {
          SameTokens(t, RevokeOne(t, id, now, Rotation), minted);
          if t[id].expiresAt >= now && Lookup(t, minted).None? {
            RotateKeepsValid(t, id, now,
              Row(t[id].user, minted, now + REFRESH_TOKEN_LIFETIME, None, Some(id)));
          }
        }
      }
    case Logout(session) => RevokeOneKeepsValid(t, session, now, Reason.Logout);
    case LogoutAll(user) => RevokeUserKeepsValid(t, user, now, Reason.LogoutAll);
    case ChangePassword(user) => RevokeUserKeepsValid(t, user, now, Admin);
    case Recover(user) => RevokeUserKeepsValid(t, user, now, Recovery);
  }

  lemma {:induction false} RunKeepsValid(t: Table, events: seq<Event>)
    requires Valid(t)
    ensures Valid(Run(t, events))
    decreases events
  {
    if events != [] {
      StepKeepsValid(t, events[0].now, events[0].op);
      RunKeepsValid(Apply(t, events[0].now, events[0].op).0, events[1..]);
    }
  }

  // A revoked row keeps its revocation time and reason in every later state.
  lemma {:induction false} RunEvolves(t: Table, events: seq<Event>)
    ensures Evolves(t, Run(t, events))
    decreases events
  {
    if events != [] {
      StepEvolves(t, events[0].now, events[0].op);
      RunEvolves(Apply(t, events[0].now, events[0].op).0, events[1..]);
    }
  }

  // ---- rotation chains ----

  // The login row a session was rotated from, through any number of rotations.
  function Root(t: Table, i: SessionId): (r: SessionId)
    requires i < |t| && ParentsRotated(t)
    ensures r <= i && t[r].user == t[i].user && t[r].rotatedFrom.None?
  {
    if t[i].rotatedFrom.None? then i else Root(t, t[i].rotatedFrom.value)
  }

  // Of two rows in one chain the older one has been rotated.
  lemma {:induction false} OlderIsRotated(t: Table, i: SessionId, j: SessionId)
    returns (successor: SessionId)
    requires Valid(t) && i < j < |t| && Root(t, i) == Root(t, j)
    ensures t[i].RevokedFor(Rotation)
    ensures successor <= j && IsSuccessor(t, successor, i)
    decreases j
  {
    var p := t[j].rotatedFrom.value;
    if p == i {
      successor := j;
    } else if i < p {
      successor := OlderIsRotated(t, i, p);
    } else {
      var sibling := OlderIsRotated(t, p, i);
      assert IsSuccessor(t, sibling, p) && IsSuccessor(t, j, p);
      assert false;
    }
  }

  lemma ChainSafety(events: seq<Event>)
    ensures var t := Run([], events);
            && Valid(t)
            && forall i, j :: 0 <= i < j < |t| && Root(t, i) == Root(t, j) ==>
                 t[i].RevokedFor(Rotation)
  {
    RunKeepsValid([], events);
    var t := Run([], events);
    forall i, j | 0 <= i < j < |t| && Root(t, i) == Root(t, j) ensures t[i].RevokedFor(Rotation) {
      var _ := OlderIsRotated(t, i, j);
    }
  }

  // ---- reuse detection ----

  lemma FindsRow(t: Table, id: SessionId)
    requires UniqueTokens(t) && id < |t|
    ensures Lookup(t, t[id].token) == Some(id)
  {
  }

  lemma ReplayRevokesUser(t: Table, now: Instant, token: Token, minted: Token, signs: bool)
    requires Valid(t) && Lookup(t, token).Some? && t[Lookup(t, token).value].revoked.Some?
    ensures var user := t[Lookup(t, token).value].user;
            var (t', reply) := Apply(t, now, Refresh(token, minted, signs));
            && reply == InvalidCredentials(ReusedToken)
            && |t'| == |t|
            && (forall i :: 0 <= i < |t| ==> if t[i].user == user && t[i].revoked.None?
                  then t'[i] == t[i].(revoked := Some(Revocation(now, ReuseDetected)))
                  else t'[i] == t[i])
            && (forall i :: 0 <= i < |t'| && t'[i].user == user ==> t'[i].revoked.Some?)
  {
  }

  // After a replay, no token the user held can ever be refreshed again.
  lemma ReplayIsFinal(t: Table, now: Instant, token: Token, minted: Token, signs: bool, later: seq<Event>,
                      id: SessionId, now': Instant, minted': Token, signs': bool)
    requires Valid(t) && Lookup(t, token).Some? && t[Lookup(t, token).value].revoked.Some?
    requires id < |t| && t[id].user == t[Lookup(t, token).value].user
    ensures var t' := Run(Apply(t, now, Refresh(token, minted, signs)).0, later);
            Apply(t', now', Refresh(t[id].token, minted', signs')).1 == InvalidCredentials(ReusedToken)
  {
    var killed := Apply(t, now, Refresh(token, minted, signs)).0;
    StepKeepsValid(t, now, Refresh(token, minted, signs));
    StepEvolves(t, now, Refresh(token, minted, signs));
    RunKeepsValid(killed, later);
    RunEvolves(killed, later);
    var t' := Run(killed, later);
    assert t'[id].token == t[id].token && t'[id].revoked.Some?;
    FindsRow(t', id);
  }

  // A refresh succeeds exactly for a stored, unrevoked, unexpired token. The
  // expiry test includes the instant of expiry itself, which IsActive does not.
  lemma RefreshSucceedsIff(t: Table, now: Instant, token: Token, minted: Token, signs: bool)
    requires Valid(t)
    ensures Apply(t, now, Refresh(token, minted, signs)).1.Tokens? <==>
            signs && exists id :: 0 <= id < |t| && t[id].token == token && Lookup(t, minted).None?
                         && (t[id].IsActive(now) || (t[id].revoked.None? && t[id].expiresAt == now))
  {
    var found := Lookup(t, token);
    if found.Some? {
      SameTokens(t, RevokeOne(t, found.value, now, Rotation), minted);
      forall id | 0 <= id < |t| && t[id].token == token ensures id == found.value {
        FindsRow(t, id);
      }
      assert t[found.value].token == token;
    }
  }

  // A refresh that cannot sign its answer has spent the token all the same: the
  // client gets an error, the row is rotated, and the new one is nobody's.
  lemma UnsignedRefreshSpendsToken(t: Table, now: Instant, token: Token, minted: Token)
    requires Valid(t) && Apply(t, now, Refresh(token, minted, true)).1.Tokens?
    ensures var (t', reply) := Apply(t, now, Refresh(token, minted, false));
            && reply == InternalError && t' == Apply(t, now, Refresh(token, minted, true)).0
            && t'[Lookup(t, token).value].RevokedFor(Rotation)
            && t'[|t|].token == minted && t'[|t|].revoked.None?
  {
    var id := Lookup(t, token).value;
    var revoked := RevokeOne(t, id, now, Rotation);
    assert Lookup(revoked, minted).None?;
    assert Apply(t, now, Refresh(token, minted, false)).0 ==
           revoked + [Row(t[id].user, minted, now + REFRESH_TOKEN_LIFETIME, None, Some(id))];
  }

  function Successes(t: Table, events: seq<Event>, token: Token): nat
    decreases events
  {
    if events == [] then 0
    else
      var (t', reply) := Apply(t, events[0].now, events[0].op);
      (if events[0].op.Refresh? && events[0].op.token == token && reply.Tokens? then 1 else 0)
      + Successes(t', events[1..], token)
  }

  // A token buys at most one successor, in any run and from any valid table.
  lemma {:induction false} TokenSucceedsAtMostOnce(t: Table, events: seq<Event>, token: Token)
    requires Valid(t)
    ensures Successes(t, events, token) <= 1
    ensures Lookup(t, token).Some? && t[Lookup(t, token).value].revoked.Some? ==>
              Successes(t, events, token) == 0
    decreases events
  {
    if events != [] {
      var e := events[0];
      var (t', reply) := Apply(t, e.now, e.op);
      StepKeepsValid(t, e.now, e.op);
      StepEvolves(t, e.now, e.op);
      var found := Lookup(t, token);
      if found.Some? {
        FindsRow(t', found.value);
      }
      TokenSucceedsAtMostOnce(t', events[1..], token);
    }
  }

  // ---- what an operation leaves alone, and what its result is good for ----

  // The rows an operation may revoke: the presented or named session, or every
  // session of one user.
  predicate MayRevoke(t: Table, op: Op, i: SessionId)
    requires i < |t|
  {
    match op
    case Login(_, _, _) => false
    case Refresh(token, _, _) =>
      var found := Lookup(t, token);
      found.Some? && (if t[found.value].revoked.Some? then t[i].user == t[found.value].user
                      else i == found.value)
    case Logout(session) => i == session
    case LogoutAll(user) => t[i].user == user
    case ChangePassword(user) => t[i].user == user
    case Recover(user) => t[i].user == user
  }

  lemma StepFrame(t: Table, now: Instant, op: Op, i: SessionId)
    requires i < |t|
    ensures Apply(t, now, op).0[i] != t[i] ==> MayRevoke(t, op, i) && t[i].revoked.None?
    ensures op.LogoutAll? || op.ChangePassword? || op.Recover? || op.Logout? ==>
              (MayRevoke(t, op, i) ==> Apply(t, now, op).0[i].revoked.Some?)
  {
  }

  // The token minted by a refresh can itself be refreshed during exactly the
  // next seven days, and it belongs to the same user.
  lemma MintedTokenIsGood(t: Table, now: Instant, token: Token, minted: Token,
                          now': Instant, minted': Token)
    requires Valid(t) && Apply(t, now, Refresh(token, minted, true)).1.Tokens?
    requires Lookup(t, minted').None? && minted' != minted
    ensures var (t', reply) := Apply(t, now, Refresh(token, minted, true));
            && reply == Tokens(minted, |t|)
            && |t'| == |t| + 1 && t'[|t|].token == minted
            && t'[|t|].user == t[Lookup(t, token).value].user
            && (Apply(t', now', Refresh(minted, minted', true)).1.Tokens? <==>
                now' <= now + REFRESH_TOKEN_LIFETIME)
  {
  }

  // ---- what each operation does, written out ----

  // A login with a newly drawn token succeeds, and that token can be refreshed
  // for exactly the seven days after it.
  lemma LoginTokenIsGood(t: Table, now: Instant, user: UserId, minted: Token, now': Instant, minted': Token)
    requires Valid(t) && Lookup(t, minted).None? && Lookup(t, minted').None? && minted' != minted
    ensures var (t', reply) := Apply(t, now, Login(user, minted, true));
            && reply == Tokens(minted, |t|)
            && |t'| == |t| + 1 && t'[..|t|] == t
            && t'[|t|].user == user && t'[|t|].token == minted
            && t'[|t|].revoked.None? && t'[|t|].rotatedFrom.None?
            && (Apply(t', now', Refresh(minted, minted', true)).1.Tokens? <==>
                now' <= now + 7 * 24 * 3600 * 1_000_000_000)
  {
  }

  // A token drawn before refuses a login, and refuses and rolls back a refresh.
  lemma TakenTokenChangesNothing(t: Table, now: Instant, user: UserId, token: Token, minted: Token, signs: bool)
    requires Valid(t) && Lookup(t, minted).Some?
    ensures Apply(t, now, Login(user, minted, signs)) == (t, InternalError)
    ensures Lookup(t, token).Some? && t[Lookup(t, token).value].revoked.None?
            && now <= t[Lookup(t, token).value].expiresAt ==>
              Apply(t, now, Refresh(token, minted, signs)) == (t, InternalError)
  {
    if Lookup(t, token).Some? {
      SameTokens(t, RevokeOne(t, Lookup(t, token).value, now, Rotation), minted);
    }
  }

  // An unknown or expired token is refused and nothing changes.
  lemma RefusedRefreshChangesNothing(t: Table, now: Instant, token: Token, minted: Token, signs: bool)
    ensures Lookup(t, token).None? ==>
              Apply(t, now, Refresh(token, minted, signs)) == (t, InvalidCredentials(UnknownToken))
    ensures Lookup(t, token).Some? && t[Lookup(t, token).value].revoked.None?
            && t[Lookup(t, token).value].expiresAt < now ==>
              Apply(t, now, Refresh(token, minted, signs)) == (t, InvalidCredentials(ExpiredToken))
  {
  }

  // A successful refresh: the presented row is revoked as rotated, the new one
  // names it and lasts seven days, and no other row changes.
  lemma RefreshRotates(t: Table, now: Instant, token: Token, minted: Token)
    requires Valid(t) && Apply(t, now, Refresh(token, minted, true)).1.Tokens?
    ensures var id := Lookup(t, token).value;
            var t' := Apply(t, now, Refresh(token, minted, true)).0;
            && |t'| == |t| + 1
            && t'[id] == t[id].(revoked := Some(Revocation(now, Rotation)))
            && t'[|t|] == Row(t[id].user, minted, now + 7 * 24 * 3600 * 1_000_000_000, None, Some(id))
            && forall i :: 0 <= i < |t| && i != id ==> t'[i] == t[i]
  {
    var id := Lookup(t, token).value;
    var revoked := RevokeOne(t, id, now, Rotation);
    assert Apply(t, now, Refresh(token, minted, true)).0
           == revoked + [Row(t[id].user, minted, now + REFRESH_TOKEN_LIFETIME, None, Some(id))];
  }

  // Signing out, changing the password and recovering: which rows, with which
  // reason, and no others.
  lemma RevokedWithReason(t: Table, now: Instant, session: SessionId, user: UserId, i: SessionId)
    requires i < |t|
    ensures |Apply(t, now, Op.Logout(session)).0| == |Apply(t, now, Op.LogoutAll(user)).0| == |t|
    ensures |Apply(t, now, ChangePassword(user)).0| == |Apply(t, now, Recover(user)).0| == |t|
    ensures Apply(t, now, Op.Logout(session)).0[i]
            == if i == session && t[i].revoked.None? then t[i].(revoked := Some(Revocation(now, Reason.Logout))) else t[i]
    ensures Apply(t, now, Op.LogoutAll(user)).0[i]
            == if t[i].user == user && t[i].revoked.None?
               then t[i].(revoked := Some(Revocation(now, Reason.LogoutAll))) else t[i]
    ensures Apply(t, now, ChangePassword(user)).0[i]
            == if t[i].user == user && t[i].revoked.None?
               then t[i].(revoked := Some(Revocation(now, Admin))) else t[i]
    ensures Apply(t, now, Recover(user)).0[i]
            == if t[i].user == user && t[i].revoked.None?
               then t[i].(revoked := Some(Revocation(now, Recovery))) else t[i]
  {
  }
}
