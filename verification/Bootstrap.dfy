// The one-shot bootstrap setup (server/internal/httpapi/auth_bootstrap.go): any
// number of transactions, interleaved statement by statement with one another
// and with the other code that creates users and gives or takes admin rights.
// A statement sees what is committed when it starts (READ COMMITTED).
module Bootstrap {
  import opened Wrappers

  type TxId = nat
  type UserId = nat  // position in the users table
  type GroupId = nat
  type Name = string

  // Waiting for the advisory lock, then past each statement in turn.
  datatype Phase = Waiting | Locked | Checked | Inserted | Finished

  datatype Tx = Tx(name: Name, phase: Phase)

  // `admins` have the role in user_roles; `members` and `adminGroups` give it
  // through a group. `bearers` hold an access token that says admin, which they
  // keep until it expires. `seeds` are server starts that found no admin.
  datatype System = System(users: seq<Name>, admins: set<UserId>,
                           members: set<(GroupId, UserId)>, adminGroups: set<GroupId>,
                           bearers: set<UserId>, seeds: set<nat>,
                           lock: Option<TxId>, txs: map<TxId, Tx>)

  datatype Step =
    | Begin(tx: TxId, name: Name)
    | Acquire(tx: TxId)
    | Check(tx: TxId)
    | Insert(tx: TxId)
    | Commit(tx: TxId, signs: bool)  // the access token is signed after the commit
    | Abort(tx: TxId)          // any error, at any point
    | Register(name: Name)
    | Provision(name: Name)    // a new user with the admin role, by SSO or by an admin
    | SeedCheck(seed: nat)     // a server start, looking for an admin
    | SeedCommit(seed: nat)    // and, having found none, making one
    | Grant(caller: UserId, user: UserId)
    | Revoke(caller: UserId, user: UserId)
    | SetGroupRole(caller: UserId, group: GroupId, admin: bool)
    | AddMember(group: GroupId, user: UserId)
    | RemoveMember(group: GroupId, user: UserId)
    | DeleteGroup(group: GroupId)
    | IssueToken(user: UserId) // login or refresh
    | ExpireToken(user: UserId)

  // Unsigned is the 500 after a commit whose access token could not be signed.
  datatype Reply = Created(user: UserId) | Unsigned(user: UserId) | Conflict | Failed | Quiet {
    predicate Committed() { Created? || Unsigned? }
  }

  // The role as fetchUserRoles sees it.
  predicate IsAdmin(s: System, user: UserId) {
    user in s.admins || user in GroupAdmins(s)
  }

  function GroupAdmins(s: System): set<UserId> {
    set m | m in s.members && m.0 in s.adminGroups :: m.1
  }

  function WithoutGroup(members: set<(GroupId, UserId)>, group: GroupId): set<(GroupId, UserId)> {
    set m: (GroupId, UserId) | m in members && m.0 != group
  }

  function AllAdmins(s: System): set<UserId> {
    s.admins + GroupAdmins(s)
  }

  function End(s: System, tx: TxId): System
    requires tx in s.txs
  {
    s.(txs := s.txs[tx := s.txs[tx].(phase := Finished)],
       lock := if s.lock == Some(tx) then None else s.lock)
  }

  function Advance(s: System, tx: TxId, phase: Phase): System
    requires tx in s.txs
  {
    s.(txs := s.txs[tx := s.txs[tx].(phase := phase)])
  }

  predicate At(s: System, tx: TxId, phase: Phase) {
    tx in s.txs && s.txs[tx].phase == phase
  }

  // A name inserted but not committed makes other inserts of it wait.
  predicate NameHeld(s: System, name: Name) {
    s.lock.Some? && At(s, s.lock.value, Inserted) && s.txs[s.lock.value].name == name
  }

  predicate NameFree(s: System, name: Name) {
    name !in s.users && !NameHeld(s, name)
  }

  function Position(users: seq<Name>, name: Name): (r: UserId)
    requires name in users
    ensures r < |users| && users[r] == name
  {
    if users[0] == name then 0 else 1 + Position(users[1..], name)
  }

  // ensureDefaultAdmin: the user "admin" gets the role, and is made if absent.
  function Seeded(s: System): System {
    if "admin" in s.users then s.(admins := s.admins + {Position(s.users, "admin")})
    else if NameHeld(s, "admin") then s
    else s.(users := s.users + ["admin"], admins := s.admins + {|s.users|})
  }

  // A step of a setup transaction; one that is not possible in `s` does nothing.
  function Setup(s: System, step: Step): (System, Reply) {
    match step
    case Begin(tx, name) =>
      if tx in s.txs then (s, Quiet) else (s.(txs := s.txs[tx := Tx(name, Waiting)]), Quiet)
    case Acquire(tx) =>
      if !At(s, tx, Waiting) || s.lock.Some? then (s, Quiet)
      else (Advance(s, tx, Locked).(lock := Some(tx)), Quiet)
    case Check(tx) =>
      if !At(s, tx, Locked) then (s, Quiet)
      else if s.admins != {} then (End(s, tx), Conflict)
      else (Advance(s, tx, Checked), Quiet)
    case Insert(tx) =>
      if !At(s, tx, Checked) then (s, Quiet)
      else if s.txs[tx].name in s.users then (End(s, tx), Conflict)
      else (Advance(s, tx, Inserted), Quiet)
    case Commit(tx, signs) =>
      if !At(s, tx, Inserted) then (s, Quiet)
      else
        var user := |s.users|;
        (End(s, tx).(users := s.users + [s.txs[tx].name], admins := s.admins + {user},
                     bearers := if signs then s.bearers + {user} else s.bearers),
         if signs then Created(user) else Unsigned(user))
    case Abort(tx) =>
      if tx !in s.txs || s.txs[tx].phase == Finished then (s, Quiet) else (End(s, tx), Failed)
    case _ => (s, Quiet)
  }

  // Everything else. Of the callers only an admin's token is asked for, and
  // nobody takes the role away from himself.
  function Elsewhere(s: System, step: Step): System {
    match step
    case Register(name) => if NameFree(s, name) then s.(users := s.users + [name]) else s
    case Provision(name) =>
      if NameFree(s, name) then s.(users := s.users + [name], admins := s.admins + {|s.users|}) else s
    case SeedCheck(seed) => if s.admins == {} then s.(seeds := s.seeds + {seed}) else s
    case SeedCommit(seed) => if seed in s.seeds then Seeded(s.(seeds := s.seeds - {seed})) else s
    case Grant(caller, user) =>
      if caller in s.bearers && user < |s.users| then s.(admins := s.admins + {user}) else s
    case Revoke(caller, user) =>
      if caller in s.bearers && caller != user then s.(admins := s.admins - {user}) else s
    case SetGroupRole(caller, group, admin) =>
      if caller !in s.bearers then s
      else s.(adminGroups := if admin then s.adminGroups + {group} else s.adminGroups - {group})
    case AddMember(group, user) =>
      if user < |s.users| then s.(members := s.members + {(group, user)}) else s
    case RemoveMember(group, user) => s.(members := s.members - {(group, user)})
    case DeleteGroup(group) =>
      s.(members := WithoutGroup(s.members, group), adminGroups := s.adminGroups - {group})
    case IssueToken(user) =>
      s.(bearers := if user < |s.users| && IsAdmin(s, user) then s.bearers + {user} else s.bearers - {user})
    case ExpireToken(user) => s.(bearers := s.bearers - {user})
    case _ => s
  }

  predicate OfSetup(step: Step) {
    step.Begin? || step.Acquire? || step.Check? || step.Insert? || step.Commit? || step.Abort?
  }

  function Respond(s: System, step: Step): (System, Reply) {
    if OfSetup(step) then Setup(s, step) else (Elsewhere(s, step), Quiet)
  }

  function Next(s: System, step: Step): System { Respond(s, step).0 }

  function ReplyTo(s: System, step: Step): Reply { Respond(s, step).1 }

  function Run(s: System, steps: seq<Step>): System
    decreases steps
  {
    if steps == [] then s else Run(Next(s, steps[0]), steps[1..])
  }

  // Setups that committed.
  function Setups(s: System, steps: seq<Step>): nat
    decreases steps
  {
    if steps == [] then 0
    else (if ReplyTo(s, steps[0]).Committed() then 1 else 0) + Setups(Next(s, steps[0]), steps[1..])
  }

  // Steps that took the last admin away.
  function Vacancies(s: System, steps: seq<Step>): nat
    decreases steps
  {
    if steps == [] then 0
    else (if s.admins != {} && Next(s, steps[0]).admins == {} then 1 else 0) + Vacancies(Next(s, steps[0]), steps[1..])
  }

  // ---- the handler in the source's imperative form ----

  class Database {
    var users: seq<Name>
    var admins: set<UserId>
    var members: set<(GroupId, UserId)>
    var adminGroups: set<GroupId>
    var bearers: set<UserId>

    ghost function State(): System
      reads this
    {
      System(users, admins, members, adminGroups, bearers, {}, None, map[])
    }

    constructor (users: seq<Name>, admins: set<UserId>)
      ensures State() == Start(users, admins)
    {
      this.users, this.admins := users, admins;
      members, adminGroups, bearers := {}, {}, {};
    }

    // BootstrapSetup with nothing else going on; `commits` is false when a
    // later statement or the commit fails, `signs` when only the token does.
    method BootstrapSetup(name: Name, commits: bool, signs: bool) returns (reply: Reply)
      modifies this
      ensures reply.Committed() <==> old(admins) == {} && name !in old(users) && commits
      ensures reply.Conflict? <==> old(admins) != {} || name in old(users)
      ensures reply.Committed() ==>
                reply.user == |old(users)| && users == old(users) + [name] && admins == {reply.user}
      ensures reply.Committed() ==> (reply.Created? <==> signs)
      ensures !reply.Committed() ==> State() == old(State())
      ensures var last := if commits then Commit(0, signs) else Abort(0);
              State() == Run(old(State()), [Begin(0, name), Acquire(0), Check(0), Insert(0), last]).(txs := map[])
    {
      ghost var s := State();
      ghost var last := if commits then Commit(0, signs) else Abort(0);
      RunOfFive(s, Begin(0, name), Acquire(0), Check(0), Insert(0), last);
      var exists_ := admins != {};
      if exists_ { return Conflict; }
      if name in users { return Conflict; }
      if !commits { return Failed; }
      var user := |users|;
      users := users + [name];
      admins := admins + {user};
      if !signs { return Unsigned(user); }
      bearers := bearers + {user};
      return Created(user);
    }
  }

  lemma RunCons(s: System, step: Step, rest: seq<Step>)
    ensures Run(s, [step] + rest) == Run(Next(s, step), rest)
  {
  }

  lemma RunOfFour(s: System, a: Step, b: Step, c: Step, d: Step)
    ensures Run(s, [a, b, c, d]) == Next(Next(Next(Next(s, a), b), c), d)
  {
    assert [a, b, c, d] == [a] + ([b] + ([c] + ([d] + [])));
    RunCons(s, a, [b] + ([c] + ([d] + [])));
    RunCons(Next(s, a), b, [c] + ([d] + []));
    RunCons(Next(Next(s, a), b), c, [d] + []);
    RunCons(Next(Next(Next(s, a), b), c), d, []);
  }

  lemma RunOfFive(s: System, a: Step, b: Step, c: Step, d: Step, e: Step)
    ensures Run(s, [a, b, c, d, e]) == Next(Next(Next(Next(Next(s, a), b), c), d), e)
  {
    assert [a, b, c, d, e] == [a] + [b, c, d, e];
    RunCons(s, a, [b, c, d, e]);
    RunOfFour(Next(s, a), b, c, d, e);
  }

  // ---- the invariant ----

  predicate PastLock(p: Phase) {
    p == Locked || p == Checked || p == Inserted
  }

  predicate Distinct(names: seq<Name>) {
    forall i, j :: 0 <= i < j < |names| ==> names[i] != names[j]
  }

  // Only the lock holder is past the lock, and every step up to the commit is
  // made while holding it.
  predicate Inv(s: System) {
    && (forall tx :: tx in s.txs && PastLock(s.txs[tx].phase) ==> s.lock == Some(tx))
    && (s.lock.Some? ==> s.lock.value in s.txs && PastLock(s.txs[s.lock.value].phase))
    && (s.lock.Some? && At(s, s.lock.value, Inserted) ==> s.txs[s.lock.value].name !in s.users)
    && Distinct(s.users)
    && (forall u :: u in s.admins ==> u < |s.users|)
    && (forall m :: m in s.members ==> m.1 < |s.users|)
  }

  lemma SetupKeepsInv(s: System, step: Step)
    requires Inv(s)
    ensures Inv(Setup(s, step).0)
  {
  }

  lemma ElsewhereKeepsInv(s: System, step: Step)
    requires Inv(s)
    ensures Inv(Elsewhere(s, step))
  {
  }

  lemma NextKeepsInv(s: System, step: Step)
    requires Inv(s)
    ensures Inv(Next(s, step))
  {
    SetupKeepsInv(s, step);
    ElsewhereKeepsInv(s, step);
  }

  // In every interleaving the lock has one holder, which alone is between the
  // check and the commit; user names stay unique.
  lemma {:induction false} RunKeepsInv(s: System, steps: seq<Step>)
    requires Inv(s)
    ensures Inv(Run(s, steps))
    decreases steps
  {
    if steps != [] {
      NextKeepsInv(s, steps[0]);
      RunKeepsInv(Next(s, steps[0]), steps[1..]);
    }
  }

  // ---- at most one setup ----

  // A setup can still commit: there is no admin, or the lock holder saw none.
  predicate Vacant(s: System) {
    s.admins == {} || (s.lock.Some? && (At(s, s.lock.value, Checked) || At(s, s.lock.value, Inserted)))
  }

  lemma StepUsesVacancy(s: System, step: Step)
    requires Inv(s)
    ensures ReplyTo(s, step).Committed() ==> Vacant(s) && !Vacant(Next(s, step))
    ensures Vacant(Next(s, step)) && !Vacant(s) ==> s.admins != {} && Next(s, step).admins == {}
  {
  }

  // In every interleaving at most one setup commits for each time the system
  // is left without an admin, the start included if it has none.
  lemma {:induction false} SetupsAtMostVacancies(s: System, steps: seq<Step>)
    requires Inv(s)
    ensures Setups(s, steps) <= (if Vacant(s) then 1 else 0) + Vacancies(s, steps)
    decreases steps
  {
    if steps != [] {
      StepUsesVacancy(s, steps[0]);
      NextKeepsInv(s, steps[0]);
      SetupsAtMostVacancies(Next(s, steps[0]), steps[1..]);
    }
  }

  // A database before any setup, with no request under way.
  function Start(users: seq<Name>, admins: set<UserId>): System {
    System(users, admins, {}, {}, {}, {}, None, map[])
  }

  predicate NoRevoke(steps: seq<Step>) {
    forall i :: 0 <= i < |steps| ==> !steps[i].Revoke?
  }

  lemma {:induction false} NoRevokeNoVacancy(s: System, steps: seq<Step>)
    requires NoRevoke(steps)
    ensures Vacancies(s, steps) == 0 && s.admins <= Run(s, steps).admins
    decreases steps
  {
    if steps != [] {
      assert !steps[0].Revoke?;
      assert forall i :: 0 <= i < |steps| - 1 ==> steps[1..][i] == steps[i + 1];
      NoRevokeNoVacancy(Next(s, steps[0]), steps[1..]);
    }
  }

  // With no direct admin at first and none ever demoted, at most one setup
  // commits; with one at first, none does.
  lemma AtMostOneSetup(users: seq<Name>, admins: set<UserId>, steps: seq<Step>)
    requires Distinct(users) && (forall u :: u in admins ==> u < |users|) && NoRevoke(steps)
    ensures Setups(Start(users, admins), steps) <= if admins == {} then 1 else 0
  {
    SetupsAtMostVacancies(Start(users, admins), steps);
    NoRevokeNoVacancy(Start(users, admins), steps);
  }

  function SetupSteps(tx: TxId, name: Name): seq<Step> {
    [Begin(tx, name), Acquire(tx), Check(tx), Insert(tx), Commit(tx, true)]
  }

  lemma {:induction false} SetupsAppend(s: System, a: seq<Step>, b: seq<Step>)
    ensures Setups(s, a + b) == Setups(s, a) + Setups(Run(s, a), b)
    ensures Run(s, a + b) == Run(Run(s, a), b)
    decreases a
  {
    if a == [] {
      assert a + b == b;
    } else {
      assert (a + b)[1..] == a[1..] + b;
      SetupsAppend(Next(s, a[0]), a[1..], b);
    }
  }

  // The state a setup leaves that nothing stands in the way of.
  function AfterSetup(s: System, tx: TxId, name: Name): System {
    s.(users := s.users + [name], admins := {|s.users|}, bearers := s.bearers + {|s.users|},
       txs := s.txs[tx := Tx(name, Finished)])
  }

  lemma SetupCommits(s: System, tx: TxId, name: Name)
    requires s.lock.None? && tx !in s.txs && s.admins == {} && name !in s.users
    ensures Run(s, SetupSteps(tx, name)) == AfterSetup(s, tx, name) && Setups(s, SetupSteps(tx, name)) >= 1
  {
    var first, last := [Begin(tx, name), Acquire(tx), Check(tx), Insert(tx)], [Commit(tx, true)];
    RunOfFour(s, Begin(tx, name), Acquire(tx), Check(tx), Insert(tx));
    SetupsAppend(s, first, last);
    assert first + last == SetupSteps(tx, name);
    var before := Run(s, first);
    assert before == s.(lock := Some(tx), txs := s.txs[tx := Tx(name, Inserted)]);
    assert last == [Commit(tx, true)] + [];
    RunCons(before, Commit(tx, true), []);
  }

  // Whenever the lock is free, a setup can still commit with nobody demoted
  // exactly when there is no direct admin.
  lemma SetupOpenIff(s: System, tx: TxId, name: Name)
    requires Inv(s) && s.lock.None? && tx !in s.txs && name !in s.users
    ensures (exists steps :: NoRevoke(steps) && Setups(s, steps) >= 1) <==> s.admins == {}
  {
    if s.admins == {} {
      SetupCommits(s, tx, name);
      assert NoRevoke(SetupSteps(tx, name));
    } else {
      forall steps | NoRevoke(steps) ensures Setups(s, steps) == 0 {
        SetupsAtMostVacancies(s, steps);
        NoRevokeNoVacancy(s, steps);
      }
    }
  }

  // ---- demotion ----

  // A demotion leaves no direct admin exactly when somebody else with an admin
  // token takes the role from the only one who has it directly.
  lemma LastDemotedIff(s: System, caller: UserId, user: UserId)
    requires s.admins != {}
    ensures Next(s, Revoke(caller, user)).admins == {} <==>
            s.admins == {user} && caller in s.bearers && caller != user
  {
    if s.admins - {user} == {} {
      assert user in s.admins && s.admins == {user};
    }
  }

  // User 0 gives a group the admin role, and user 1, who joins it, demotes him.
  const TAKEOVER: seq<Step> :=
    [SetGroupRole(0, 0, true), AddMember(0, 1), IssueToken(1), Revoke(1, 0)]

  function AfterTakeover(a: Name, b: Name): System {
    System([a, b], {}, {(0, 1)}, {0}, {0, 1}, {}, None, map[0 := Tx(a, Finished)])
  }

  function BeforeTakeover(a: Name, b: Name): System {
    System([a, b], {0}, {}, {}, {0}, {}, None, map[0 := Tx(a, Finished)])
  }

  lemma TakeoverRun(a: Name, b: Name)
    ensures Run(BeforeTakeover(a, b), TAKEOVER) == AfterTakeover(a, b)
  {
    var s := BeforeTakeover(a, b);
    RunOfFour(s, TAKEOVER[0], TAKEOVER[1], TAKEOVER[2], TAKEOVER[3]);
    var s' := Next(Next(s, TAKEOVER[0]), TAKEOVER[1]);
    assert (0, 1) in s'.members && 1 in GroupAdmins(s');
  }

  lemma TakesOver(a: Name, b: Name)
    requires a != b
    ensures Run(Start([], {}), SetupSteps(0, a) + ([Register(b)] + TAKEOVER)) == AfterTakeover(a, b)
    ensures Setups(Start([], {}), SetupSteps(0, a) + ([Register(b)] + TAKEOVER)) >= 1
  {
    var s0 := Start([], {});
    SetupCommits(s0, 0, a);
    SetupsAppend(s0, SetupSteps(0, a), [Register(b)] + TAKEOVER);
    RunCons(AfterSetup(s0, 0, a), Register(b), TAKEOVER);
    assert Next(AfterSetup(s0, 0, a), Register(b)) == BeforeTakeover(a, b);
    TakeoverRun(a, b);
  }

  // So a second setup commits, and its account is not the only admin: nobody
  // got a direct right since its check, but user 1 has the role by his group.
  lemma DemotionReopensSetup(a: Name, b: Name, c: Name)
    requires a != b && c != a && c != b
    ensures var steps := SetupSteps(0, a) + ([Register(b)] + TAKEOVER) + SetupSteps(1, c);
            && Setups(Start([], {}), steps) >= 2
            && AllAdmins(Run(Start([], {}), steps)) == {1, 2}
  {
    var first := SetupSteps(0, a) + ([Register(b)] + TAKEOVER);
    TakesOver(a, b);
    SetupCommits(AfterTakeover(a, b), 1, c);
    SetupsAppend(Start([], {}), first, SetupSteps(1, c));
    var last := AfterSetup(AfterTakeover(a, b), 1, c);
    assert (0, 1) in last.members && 1 in GroupAdmins(last);
  }

  // ---- the first and only admin ----

  // Who got the role directly in a step that is no setup's commit, and kept it.
  function GainedElsewhere(s: System, gained: set<UserId>, steps: seq<Step>): set<UserId>
    decreases steps
  {
    if steps == [] then gained
    else
      var s' := Next(s, steps[0]);
      GainedElsewhere(s', if steps[0].Commit? then gained else (gained + (s'.admins - s.admins)) * s'.admins,
                      steps[1..])
  }

  lemma {:induction false} HolderShutsOthersOut(s: System, tx: TxId, middle: seq<Step>)
    requires Inv(s) && s.lock == Some(tx)
    requires At(s, tx, Checked) || At(s, tx, Inserted)
    requires At(Run(s, middle), tx, Inserted)
    ensures Run(s, middle).admins == GainedElsewhere(s, s.admins, middle)
    ensures Inv(Run(s, middle)) && Run(s, middle).txs[tx].name == s.txs[tx].name
    decreases middle
  {
    if middle != [] {
      NextKeepsInv(s, middle[0]);
      var s' := Next(s, middle[0]);
      if At(s', tx, Finished) {
        FinishedForGood(s', tx, middle[1..]);
      } else {
        HolderKeeps(s, tx, middle[0]);
        HolderShutsOthersOut(s', tx, middle[1..]);
      }
    }
  }

  lemma HolderKeeps(s: System, tx: TxId, step: Step)
    requires Inv(s) && s.lock == Some(tx) && !At(Next(s, step), tx, Finished)
    requires At(s, tx, Checked) || At(s, tx, Inserted)
    ensures var s' := Next(s, step);
            && s'.lock == Some(tx) && (At(s', tx, Checked) || At(s', tx, Inserted))
            && s'.txs[tx].name == s.txs[tx].name
            && s'.admins == if step.Commit? then s.admins else (s.admins + (s'.admins - s.admins)) * s'.admins
  {
  }

  lemma {:induction false} FinishedForGood(s: System, tx: TxId, steps: seq<Step>)
    requires At(s, tx, Finished)
    ensures At(Run(s, steps), tx, Finished)
    decreases steps
  {
    if steps != [] {
      FinishedForGood(Next(s, steps[0]), tx, steps[1..]);
    }
  }

  // A setup that found no direct admin and commits makes the first and only
  // admin exactly when nobody got the role directly since its check and kept
  // it, and nobody has it through a group, which the check does not look at.
  lemma FirstAndOnlyIff(s: System, tx: TxId, middle: seq<Step>, signs: bool)
    requires Inv(s) && At(s, tx, Locked) && s.admins == {}
    requires At(Run(Next(s, Check(tx)), middle), tx, Inserted)
    ensures var checked := Next(s, Check(tx));
            var before := Run(checked, middle);
            var after := Next(before, Commit(tx, signs));
            && ReplyTo(before, Commit(tx, signs))
               == (if signs then Created(|before.users|) else Unsigned(|before.users|))
            && after.users == before.users + [s.txs[tx].name]
            && (AllAdmins(after) == {|before.users|} <==>
                  GainedElsewhere(checked, {}, middle) == {} && GroupAdmins(before) == {})
  {
    NextKeepsInv(s, Check(tx));
    HolderShutsOthersOut(Next(s, Check(tx)), tx, middle);
    var before := Run(Next(s, Check(tx)), middle);
    var after := Next(before, Commit(tx, signs));
    assert AllAdmins(after) == AllAdmins(before) + {|before.users|};
    assert |before.users| !in AllAdmins(before);
    if AllAdmins(before) != {} {
      var u :| u in AllAdmins(before);
      assert u in AllAdmins(after);
    }
  }

  const EMPTY := Start([], {})

  // A setup past its check, and a server start that looked before it.
  function BothChecked(name: Name): System {
    EMPTY.(seeds := {0}, lock := Some(0), txs := map[0 := Tx(name, Checked)])
  }

  lemma BothCheck(name: Name)
    ensures Run(EMPTY, [SeedCheck(0), Begin(0, name), Acquire(0), Check(0)]) == BothChecked(name)
  {
    RunOfFour(EMPTY, SeedCheck(0), Begin(0, name), Acquire(0), Check(0));
    var s := Next(Next(EMPTY, SeedCheck(0)), Begin(0, name));
    assert s == EMPTY.(seeds := {0}, txs := map[0 := Tx(name, Waiting)]);
  }

  // The default admin made at a server start takes no lock and can slip in.
  lemma DefaultAdminSlipsIn(name: Name)
    requires name != "admin"
    ensures var s := Run(EMPTY, [SeedCheck(0), Begin(0, name), Acquire(0), Check(0)]);
            var before := Run(s, [SeedCommit(0), Insert(0)]);
            ReplyTo(before, Commit(0, true)) == Created(1) && AllAdmins(Next(before, Commit(0, true))) == {0, 1}
  {
    BothCheck(name);
    var s := BothChecked(name);
    assert [SeedCommit(0), Insert(0)] == [SeedCommit(0)] + ([Insert(0)] + []);
    RunCons(s, SeedCommit(0), [Insert(0)] + []);
    var seeded := Next(s, SeedCommit(0));
    assert seeded == s.(users := ["admin"], admins := {0}, seeds := {});
    RunCons(seeded, Insert(0), []);
  }

  // ---- the lock is always given back ----

  // A setup that commits, finds an admin or a taken name, or fails at any point,
  // gives the lock back and is over, and only a commit changes the tables.
  lemma EndsAndReleases(s: System, step: Step)
    requires Inv(s) && (step.Check? || step.Insert? || step.Commit? || step.Abort?)
    ensures var (s', reply) := Respond(s, step);
            && (reply != Quiet ==>
                  && step.tx in s'.txs && s'.txs[step.tx].phase == Finished && s'.lock != Some(step.tx)
                  && (s.lock == Some(step.tx) ==> s'.lock.None?))
            && (!reply.Committed() ==> s'.users == s.users && s'.admins == s.admins && s'.bearers == s.bearers)
            && (step.Abort? && step.tx in s.txs && s.txs[step.tx].phase != Finished ==> reply == Failed)
            && (step.Check? && At(s, step.tx, Locked) ==> (reply == Conflict <==> s.admins != {}))
            && (step.Insert? && At(s, step.tx, Checked) ==> (reply == Conflict <==> s.txs[step.tx].name in s.users))
            && (step.Commit? ==> (reply.Committed() <==> At(s, step.tx, Inserted)))
  {
  }

  // A waiting setup gets the lock exactly when it is free.
  lemma AcquiresIffFree(s: System, tx: TxId)
    requires Inv(s) && At(s, tx, Waiting)
    ensures Next(s, Acquire(tx)).lock == Some(tx) <==> s.lock.None?
    ensures s.lock.Some? ==> Next(s, Acquire(tx)) == s
    ensures s.lock.None? ==> At(Next(s, Acquire(tx)), tx, Locked)
  {
  }

  // A commit makes one user, an admin, with a token if it could be signed.
  lemma CommitDoes(s: System, tx: TxId, signs: bool)
    requires Inv(s) && At(s, tx, Inserted)
    ensures var (s', reply) := Respond(s, Commit(tx, signs));
            && s'.users == s.users + [s.txs[tx].name] && s'.admins == s.admins + {|s.users|}
            && s'.bearers == (if signs then s.bearers + {|s.users|} else s.bearers)
            && s'.members == s.members && s'.adminGroups == s.adminGroups
            && reply == if signs then Created(|s.users|) else Unsigned(|s.users|)
  {
  }

  // Who gets a token that says admin: those with the role, directly or by group.
  lemma TokenSaysAdminIff(s: System, user: UserId)
    requires user < |s.users|
    ensures user in Next(s, IssueToken(user)).bearers <==>
            user in s.admins || exists g :: g in s.adminGroups && (g, user) in s.members
  {
    if g :| g in s.adminGroups && (g, user) in s.members {
      assert (g, user) in s.members && (g, user).0 in s.adminGroups;
    }
  }
}
