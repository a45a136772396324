// What one replay pass over the outbox means: which ops it keeps and why, how
// it drains the queue, and what it does when the server is unreachable.
module OutboxPass {
  import opened Outbox

  // The first op the pass stops at, or the end of the queue.
  function StopAt(ops: seq<Op>, turns: seq<Turn>, offline: bool, i: nat): (r: nat)
    requires i <= |ops| <= |turns|
    ensures i <= r <= |ops|
    decreases |ops| - i
  {
    if i == |ops| || FateOf(ops[i], turns[i].net, offline).Stop? then i
    else StopAt(ops, turns, offline, i + 1)
  }

  // The positions of the ops that stay: those from the stop on, and those
  // before it that failed with budget left.
  function Staying(ops: seq<Op>, turns: seq<Turn>, offline: bool, i: nat): (r: seq<nat>)
    requires i <= |ops| <= |turns|
    ensures forall k :: 0 <= k < |r| ==> i <= r[k] < |ops|
    ensures forall j :: j in r <==> i <= j < |ops| && (j >= StopAt(ops, turns, offline, i)
                                                       || FateOf(ops[j], turns[j].net, offline).Retry?)
    ensures forall k, l :: 0 <= k < l < |r| ==> r[k] < r[l]
    decreases |ops| - i
  {
    if i == |ops| then []
    else
      var fate := FateOf(ops[i], turns[i].net, offline);
      if fate.Stop? then Tail(i, |ops|)
      else if fate.Retry? then [i] + Staying(ops, turns, offline, i + 1)
      else Staying(ops, turns, offline, i + 1)
  }

  function Tail(i: nat, n: nat): (r: seq<nat>)
    requires i <= n
    ensures |r| == n - i && forall k :: 0 <= k < |r| ==> r[k] == i + k
    ensures forall j :: j in r <==> i <= j < n
    decreases n - i
  {
    if i == n then [] else [i] + Tail(i + 1, n)
  }

  // kept[k] is the op that stood at from[k], one failure older if before `stop`.
  predicate Matches(kept: seq<Op>, from: seq<nat>, ops: seq<Op>, stop: nat) {
    && |kept| == |from|
    && forall k :: 0 <= k < |kept| ==>
         from[k] < |ops| && kept[k] == if from[k] < stop then Bump(ops[from[k]]) else ops[from[k]]
  }

  lemma MatchesCons(op: Op, i: nat, kept: seq<Op>, from: seq<nat>, ops: seq<Op>, stop: nat)
    requires Matches(kept, from, ops, stop) && i < stop && i < |ops| && op == Bump(ops[i])
    ensures Matches([op] + kept, [i] + from, ops, stop)
  {
  }

  lemma MatchesTail(ops: seq<Op>, i: nat)
    requires i <= |ops|
    ensures Matches(ops[i..], Tail(i, |ops|), ops, i)
  {
  }

  lemma KeptTurn(ops: seq<Op>, turns: seq<Turn>, offline: bool, i: nat)
    requires i < |ops| <= |turns| && !FateOf(ops[i], turns[i].net, offline).Stop?
    ensures var kept, from := Kept(ops, turns, offline, i + 1), Staying(ops, turns, offline, i + 1);
            if FateOf(ops[i], turns[i].net, offline).Retry?
            then Kept(ops, turns, offline, i) == [Bump(ops[i])] + kept && Staying(ops, turns, offline, i) == [i] + from
            else Kept(ops, turns, offline, i) == kept && Staying(ops, turns, offline, i) == from
    ensures StopAt(ops, turns, offline, i) == StopAt(ops, turns, offline, i + 1)
  {
  }

  // The kept ops are the staying ones, in their old order.
  lemma {:induction false} KeptExactly(ops: seq<Op>, turns: seq<Turn>, offline: bool, i: nat)
    requires i <= |ops| <= |turns|
    ensures Matches(Kept(ops, turns, offline, i), Staying(ops, turns, offline, i), ops,
                    StopAt(ops, turns, offline, i))
    decreases |ops| - i
  {
    if i < |ops| {
      if FateOf(ops[i], turns[i].net, offline).Stop? {
        MatchesTail(ops, i);
      } else {
        KeptExactly(ops, turns, offline, i + 1);
        KeptTurn(ops, turns, offline, i);
        var kept, from := Kept(ops, turns, offline, i + 1), Staying(ops, turns, offline, i + 1);
        if FateOf(ops[i], turns[i].net, offline).Retry? {
          MatchesCons(Bump(ops[i]), i, kept, from, ops, StopAt(ops, turns, offline, i));
        }
      }
    }
  }

  // Every op of the snapshot is replayed, discarded or kept, as counted.
  lemma {:induction false} CountsAddUp(ops: seq<Op>, turns: seq<Turn>, offline: bool, i: nat)
    requires i <= |ops| <= |turns|
    ensures var tally := Tally(ops, turns, offline, i);
            && tally.replayed + tally.discarded + |Kept(ops, turns, offline, i)| == |ops| - i
            && (tally.stillOffline <==> StopAt(ops, turns, offline, i) < |ops|)
    decreases |ops| - i
  {
    if i < |ops| {
      CountsAddUp(ops, turns, offline, i + 1);
    }
  }

  // ---- draining ----

  // Failures an op has left before it is discarded; at least the one to come.
  function Budget(op: Op): (r: nat)
    ensures 1 <= r
  {
    if op.retryCount < MAX_RETRIES then MAX_RETRIES - op.retryCount else 1
  }

  function TotalBudget(ops: seq<Op>): nat {
    if ops == [] then 0 else TotalBudget(ops[..|ops| - 1]) + Budget(ops[|ops| - 1])
  }

  function BudgetFrom(ops: seq<Op>, i: nat): nat
    requires i <= |ops|
    decreases |ops| - i
  {
    if i == |ops| then 0 else Budget(ops[i]) + BudgetFrom(ops, i + 1)
  }

  lemma {:induction false} BudgetAppend(a: seq<Op>, b: seq<Op>)
    ensures TotalBudget(a + b) == TotalBudget(a) + TotalBudget(b)
  {
    if b == [] {
      assert a + b == a;
    } else {
      assert (a + b)[..|a + b| - 1] == a + b[..|b| - 1];
      BudgetAppend(a, b[..|b| - 1]);
    }
  }

  lemma {:induction false} BudgetFromIsTotal(ops: seq<Op>, i: nat)
    requires i <= |ops|
    ensures TotalBudget(ops) == TotalBudget(ops[..i]) + BudgetFrom(ops, i)
    decreases |ops| - i
  {
    if i == |ops| {
      assert ops[..i] == ops;
    } else {
      BudgetFromIsTotal(ops, i + 1);
      assert ops[..i + 1][..i] == ops[..i];
    }
  }

  // No request makes the pass stop.
  predicate Unstopped(ops: seq<Op>, turns: seq<Turn>, offline: bool) {
    |ops| <= |turns| && forall i :: 0 <= i < |ops| ==> !FateOf(ops[i], turns[i].net, offline).Stop?
  }

  lemma {:induction false} PassDrains(ops: seq<Op>, turns: seq<Turn>, offline: bool, i: nat)
    requires Unstopped(ops, turns, offline) && i <= |ops|
    ensures TotalBudget(Kept(ops, turns, offline, i)) + (|ops| - i) <= BudgetFrom(ops, i)
    decreases |ops| - i
  {
    if i < |ops| {
      PassDrains(ops, turns, offline, i + 1);
      var left := Left(ops[i], FateOf(ops[i], turns[i].net, offline));
      BudgetAppend(left, Kept(ops, turns, offline, i + 1));
      assert left != [] ==> left[..0] == [];
    }
  }

  // A pass that does not stop strictly lowers the budget of the ops it started with.
  lemma UnstoppedPassDrains(ops: seq<Op>, turns: seq<Turn>, offline: bool)
    requires Unstopped(ops, turns, offline)
    ensures TotalBudget(Kept(ops, turns, offline, 0)) + |ops| <= TotalBudget(ops)
  {
    PassDrains(ops, turns, offline, 0);
    BudgetFromIsTotal(ops, 0);
    assert ops[..0] == [];
  }

  predicate FailedAtLeast(ops: seq<Op>, n: nat) {
    forall i :: 0 <= i < |ops| ==> ops[i].retryCount >= n
  }

  lemma {:induction false} KeptFailedOnceMore(ops: seq<Op>, turns: seq<Turn>, offline: bool, i: nat, n: nat)
    requires Unstopped(ops, turns, offline) && i <= |ops| && FailedAtLeast(ops, n)
    ensures FailedAtLeast(Kept(ops, turns, offline, i), n + 1)
    ensures n + 1 >= MAX_RETRIES ==> Kept(ops, turns, offline, i) == []
    decreases |ops| - i
  {
    if i < |ops| {
      KeptFailedOnceMore(ops, turns, offline, i + 1, n);
    }
  }

  // The server answers every request and nobody pushes meanwhile.
  predicate Answered(ops: seq<Op>, turns: seq<Turn>) {
    && |ops| <= |turns|
    && forall i :: 0 <= i < |ops| ==>
         && (turns[i].net.Accepted? || turns[i].net.Rejected?)
         && turns[i].during == [] && turns[i].after == []
  }

  lemma {:induction false} AnsweredPushesNothing(ops: seq<Op>, turns: seq<Turn>, offline: bool, i: nat)
    requires Answered(ops, turns) && i <= |ops|
    ensures Pushed(ops, turns, offline, i) == []
    decreases |ops| - i
  {
    if i < |ops| {
      AnsweredPushesNothing(ops, turns, offline, i + 1);
    }
  }

  lemma AnsweredPass(ops: seq<Op>, turns: seq<Turn>, offline: bool, n: nat)
    requires Answered(ops, turns)
    ensures Unstopped(ops, turns, offline)
    ensures AfterPass(ops, turns, offline, n) == Kept(ops, turns, offline, 0)
  {
    AnsweredPushesNothing(ops, turns, offline, 0);
  }

  // While the server answers, three passes empty any queue.
  lemma ThreePassesEmptyTheQueue(ops: seq<Op>, first: seq<Turn>, second: seq<Turn>, third: seq<Turn>,
                                 offline: bool, n: nat)
    requires Answered(ops, first)
    requires Answered(AfterPass(ops, first, offline, n), second)
    requires Answered(AfterPass(AfterPass(ops, first, offline, n), second, offline, n), third)
    ensures AfterPass(AfterPass(AfterPass(ops, first, offline, n), second, offline, n), third, offline, n) == []
  {
    var once := AfterPass(ops, first, offline, n);
    var twice := AfterPass(once, second, offline, n);
    AnsweredPass(ops, first, offline, n);
    AnsweredPass(once, second, offline, n);
    AnsweredPass(twice, third, offline, n);
    KeptFailedOnceMore(ops, first, offline, 0, 0);
    KeptFailedOnceMore(once, second, offline, 0, 1);
    KeptFailedOnceMore(twice, third, offline, 0, 2);
  }

  // ---- an unreachable server ----

  // The pass reports being offline exactly when it met a missing base URL or,
  // with offline mode off, an unreachable server.
  lemma {:induction false} StillOfflineIff(ops: seq<Op>, turns: seq<Turn>, offline: bool, i: nat)
    requires i <= |ops| <= |turns|
    ensures Tally(ops, turns, offline, i).stillOffline <==>
            exists j :: i <= j < |ops| && (turns[j].net.NoServer? || (turns[j].net.Unreachable? && !offline))
    decreases |ops| - i
  {
    if i < |ops| {
      StillOfflineIff(ops, turns, offline, i + 1);
    }
  }

  predicate Outage(ops: seq<Op>, turns: seq<Turn>) {
    |ops| <= |turns| && forall i :: 0 <= i < |ops| ==> turns[i] == Turn(Unreachable, [], [])
  }

  predicate Copies(copies: seq<Payload>, ops: seq<Op>, i: nat) {
    i + |copies| == |ops| && forall k: nat :: k < |copies| ==> copies[k] == ops[i + k].payload
  }

  lemma CopiesCons(copies: seq<Payload>, ops: seq<Op>, i: nat)
    requires i < |ops| && Copies(copies, ops, i + 1)
    ensures Copies([ops[i].payload] + copies, ops, i)
  {
  }

  lemma OutagePushes(ops: seq<Op>, turns: seq<Turn>, i: nat)
    requires Outage(ops, turns) && i < |ops|
    ensures Pushed(ops, turns, true, i) == [ops[i].payload] + Pushed(ops, turns, true, i + 1)
  {
  }

  // During an outage in offline mode the pass queues a copy of every op, in order, ...
  lemma {:induction false} OutageCopiesQueue(ops: seq<Op>, turns: seq<Turn>, i: nat)
    requires Outage(ops, turns) && i <= |ops|
    ensures Copies(Pushed(ops, turns, true, i), ops, i)
    decreases |ops| - i
  {
    if i < |ops| {
      OutageCopiesQueue(ops, turns, i + 1);
      OutagePushes(ops, turns, i);
      CopiesCons(Pushed(ops, turns, true, i + 1), ops, i);
    }
  }

  // ... and reports neither a replay nor being offline.
  lemma {:induction false} OutageGoesUnreported(ops: seq<Op>, turns: seq<Turn>, i: nat)
    requires Outage(ops, turns) && i <= |ops|
    ensures !Tally(ops, turns, true, i).stillOffline && Tally(ops, turns, true, i).replayed == 0
    decreases |ops| - i
  {
    if i < |ops| {
      assert turns[i] == Turn(Unreachable, [], []);
      OutageGoesUnreported(ops, turns, i + 1);
    }
  }

  lemma {:induction false} OutageKeepsOriginals(ops: seq<Op>, turns: seq<Turn>, i: nat)
    requires Outage(ops, turns) && i <= |ops|
    requires forall j :: 0 <= j < |ops| ==> ops[j].retryCount + 1 < MAX_RETRIES
    ensures |Kept(ops, turns, true, i)| == |ops| - i
    decreases |ops| - i
  {
    if i < |ops| {
      OutageKeepsOriginals(ops, turns, i + 1);
      assert turns[i] == Turn(Unreachable, [], []);
    }
  }

  lemma OutageDoublesQueue(ops: seq<Op>, turns: seq<Turn>, nextId: nat)
    requires Outage(ops, turns) && forall j :: 0 <= j < |ops| ==> ops[j].retryCount + 1 < MAX_RETRIES
    ensures |AfterPass(ops, turns, true, nextId)| == 2 * |ops|
    ensures Tally(ops, turns, true, 0) == SyncResult(0, 0, false)
  {
    OutageCopiesQueue(ops, turns, 0);
    OutageGoesUnreported(ops, turns, 0);
    OutageKeepsOriginals(ops, turns, 0);
    CountsAddUp(ops, turns, true, 0);
  }

  function OutageTurns(n: nat): (turns: seq<Turn>)
    ensures |turns| == n && forall i :: 0 <= i < n ==> turns[i] == Turn(Unreachable, [], [])
  {
    seq(n, _ => Turn(Unreachable, [], []))
  }

  // The disk after a pass through an outage in offline mode; the pass adds one
  // op per op of the queue, so that the next one will count from `NextId`.
  function OutagePass(ops: seq<Op>, nextId: nat): seq<Op> {
    AfterPass(ops, OutageTurns(|ops|), true, nextId)
  }

  function NextId(ops: seq<Op>, nextId: nat): (r: nat)
    ensures r == nextId + |Pushed(ops, OutageTurns(|ops|), true, 0)|
  {
    OutageCopiesQueue(ops, OutageTurns(|ops|), 0);
    nextId + |ops|
  }

  // What an outage keeps has budget left, and failed once more.
  lemma {:induction false} OutageKeeps(ops: seq<Op>, turns: seq<Turn>, i: nat)
    requires Outage(ops, turns) && i <= |ops|
    ensures forall o :: o in Kept(ops, turns, true, i) ==>
              exists p :: p in ops && o == Bump(p) && p.retryCount + 1 < MAX_RETRIES
    decreases |ops| - i
  {
    if i < |ops| {
      assert turns[i] == Turn(Unreachable, [], []) && ops[i] in ops;
      OutageKeeps(ops, turns, i + 1);
    }
  }

  // The ops that were there before `first` have failed at least k times.
  predicate OldFailed(ops: seq<Op>, first: nat, k: nat) {
    forall o :: o in ops && o.id < first ==> o.retryCount >= k
  }

  predicate NoneOlder(ops: seq<Op>, first: nat) {
    forall o :: o in ops ==> o.id >= first
  }

  lemma OutageAges(ops: seq<Op>, first: nat, nextId: nat, k: nat)
    requires first <= nextId && OldFailed(ops, first, k)
    ensures OldFailed(OutagePass(ops, nextId), first, k + 1)
    ensures k + 1 >= MAX_RETRIES ==> NoneOlder(OutagePass(ops, nextId), first)
  {
    var turns := OutageTurns(|ops|);
    OutageKeeps(ops, turns, 0);
    assert forall o :: o in OutagePass(ops, nextId) ==>
        o in Kept(ops, turns, true, 0) || o in Enqueue(Pushed(ops, turns, true, 0), nextId);
  }

  // Three passes through an outage in offline mode, each over the whole queue
  // that the one before it left, copies included, discard every op that was
  // there at first, with no answer from the API at all. What is left are copies.
  lemma ThreeOutagesDiscardOriginals(ops: seq<Op>, first: nat)
    requires Below(ops, first)
    ensures var once, n1 := OutagePass(ops, first), NextId(ops, first);
            var twice, n2 := OutagePass(once, n1), NextId(once, n1);
            NoneOlder(OutagePass(twice, n2), first)
  {
    var once, n1 := OutagePass(ops, first), NextId(ops, first);
    var twice, n2 := OutagePass(once, n1), NextId(once, n1);
    OutageAges(ops, first, first, 0);
    OutageAges(once, first, n1, 1);
    OutageAges(twice, first, n2, 2);
  }

  // With offline mode off the same outage changes nothing.
  lemma OutageWithoutOfflineMode(ops: seq<Op>, turns: seq<Turn>, nextId: nat)
    requires Outage(ops, turns)
    ensures AfterPass(ops, turns, false, nextId) == ops
    ensures Tally(ops, turns, false, 0) == SyncResult(0, 0, ops != [])
  {
  }

  // ---- what a pass does with each op, by what the network did ----

  // A missing base URL ends the pass, and so does an unreachable server unless
  // offline mode queues a copy.
  predicate EndsPass(net: Net, offline: bool) {
    net == NoServer || (net == Unreachable && !offline)
  }

  // The pass, begun at i, gets to the op at j.
  predicate Reached(ops: seq<Op>, turns: seq<Turn>, offline: bool, i: nat, j: nat)
    requires |ops| <= |turns|
  {
    forall k :: i <= k < j < |ops| ==> !EndsPass(turns[k].net, offline)
  }

  // An op that the pass does not reach, or that ends it, stays as it is; one
  // that fails stays one failure older if that makes less than three; one that
  // is accepted does not stay.
  predicate StaysAs(ops: seq<Op>, turns: seq<Turn>, offline: bool, i: nat, j: nat, o: Op)
    requires j < |ops| <= |turns|
  {
    if !Reached(ops, turns, offline, i, j) || EndsPass(turns[j].net, offline) then o == ops[j]
    else
      && turns[j].net != Accepted
      && ops[j].retryCount + 1 < 3
      && o == Op(ops[j].id, ops[j].payload, ops[j].retryCount + 1)
  }

  ghost predicate SomeStaysAs(ops: seq<Op>, turns: seq<Turn>, offline: bool, i: nat, o: Op)
    requires |ops| <= |turns|
  {
    exists j :: i <= j < |ops| && StaysAs(ops, turns, offline, i, j, o)
  }

  lemma ReachedFromNext(ops: seq<Op>, turns: seq<Turn>, offline: bool, i: nat, j: nat)
    requires i < j < |ops| <= |turns| && !EndsPass(turns[i].net, offline)
    ensures Reached(ops, turns, offline, i, j) <==> Reached(ops, turns, offline, i + 1, j)
  {
  }

  lemma StaysFromNext(ops: seq<Op>, turns: seq<Turn>, offline: bool, i: nat, o: Op)
    requires i < |ops| <= |turns| && !EndsPass(turns[i].net, offline)
    ensures SomeStaysAs(ops, turns, offline, i, o) <==>
            StaysAs(ops, turns, offline, i, i, o) || SomeStaysAs(ops, turns, offline, i + 1, o)
  {
    forall j | i < j < |ops|
      ensures StaysAs(ops, turns, offline, i, j, o) <==> StaysAs(ops, turns, offline, i + 1, j, o)
    {
      ReachedFromNext(ops, turns, offline, i, j);
    }
    if SomeStaysAs(ops, turns, offline, i + 1, o) {
      var j :| i + 1 <= j < |ops| && StaysAs(ops, turns, offline, i + 1, j, o);
      assert StaysAs(ops, turns, offline, i, j, o);
    }
  }

  lemma StoppedStays(ops: seq<Op>, turns: seq<Turn>, offline: bool, i: nat, o: Op)
    requires i < |ops| <= |turns| && EndsPass(turns[i].net, offline)
    ensures SomeStaysAs(ops, turns, offline, i, o) <==> o in ops[i..]
  {
    forall j | i <= j < |ops| ensures StaysAs(ops, turns, offline, i, j, o) <==> o == ops[j] {
      if i < j {
        assert !Reached(ops, turns, offline, i, j);
      }
    }
    if o in ops[i..] {
      var k :| 0 <= k < |ops[i..]| && ops[i..][k] == o;
      assert StaysAs(ops, turns, offline, i, i + k, o);
    }
  }

  // The pass keeps exactly these.
  lemma {:induction false} KeptIff(ops: seq<Op>, turns: seq<Turn>, offline: bool, i: nat, o: Op)
    requires i <= |ops| <= |turns|
    ensures o in Kept(ops, turns, offline, i) <==> SomeStaysAs(ops, turns, offline, i, o)
    decreases |ops| - i
  {
    if i < |ops| {
      if EndsPass(turns[i].net, offline) {
        StoppedStays(ops, turns, offline, i, o);
      } else {
        KeptIff(ops, turns, offline, i + 1, o);
        StaysFromNext(ops, turns, offline, i, o);
      }
    }
  }

  // An op that the pass reaches leaves exactly when it was accepted, or failed
  // for the third time; else it stays, one failure older unless it ended the
  // pass. One that it does not reach stays as it is.
  lemma OpLeavesIff(ops: seq<Op>, turns: seq<Turn>, offline: bool, j: nat)
    requires j < |ops| <= |turns| && Distinct(ops)
    ensures var kept, op, net := Kept(ops, turns, offline, 0), ops[j], turns[j].net;
            && ((exists o :: o in kept && o.id == op.id) <==>
                  !Reached(ops, turns, offline, 0, j) || EndsPass(net, offline)
                  || (net != Accepted && op.retryCount + 1 < 3))
            && (forall o :: o in kept && o.id == op.id ==>
                  o == if !Reached(ops, turns, offline, 0, j) || EndsPass(net, offline) then op
                       else Op(op.id, op.payload, op.retryCount + 1))
  {
    var kept := Kept(ops, turns, offline, 0);
    forall o | o in kept && o.id == ops[j].id ensures StaysAs(ops, turns, offline, 0, j, o) {
      KeptIff(ops, turns, offline, 0, o);
      var k :| 0 <= k < |ops| && StaysAs(ops, turns, offline, 0, k, o);
      assert ops[k].id == o.id;
      if k < j {} else if j < k {}
    }
    var stay := if !Reached(ops, turns, offline, 0, j) || EndsPass(turns[j].net, offline) then ops[j]
                else Op(ops[j].id, ops[j].payload, ops[j].retryCount + 1);
    if StaysAs(ops, turns, offline, 0, j, stay) {
      KeptIff(ops, turns, offline, 0, stay);
    }
  }

  // ---- and what it counts ----

  function AcceptedOps(ops: seq<Op>, turns: seq<Turn>, offline: bool, i: nat): set<nat>
    requires |ops| <= |turns|
  {
    set j: nat | i <= j < |ops| && Reached(ops, turns, offline, i, j) && turns[j].net == Accepted
  }

  function ExhaustedOps(ops: seq<Op>, turns: seq<Turn>, offline: bool, i: nat): set<nat>
    requires |ops| <= |turns|
  {
    set j: nat | i <= j < |ops| && Reached(ops, turns, offline, i, j) && turns[j].net != Accepted
                 && !EndsPass(turns[j].net, offline) && ops[j].retryCount + 1 >= 3
  }

  lemma AcceptedFromNext(ops: seq<Op>, turns: seq<Turn>, offline: bool, i: nat)
    requires i < |ops| <= |turns| && !EndsPass(turns[i].net, offline)
    ensures AcceptedOps(ops, turns, offline, i)
            == (if turns[i].net == Accepted then {i} else {}) + AcceptedOps(ops, turns, offline, i + 1)
  {
    forall j: nat
      ensures j in AcceptedOps(ops, turns, offline, i) <==>
              (j == i && turns[i].net == Accepted) || j in AcceptedOps(ops, turns, offline, i + 1)
    {
      if i < j < |ops| {
        ReachedFromNext(ops, turns, offline, i, j);
      }
    }
  }

  lemma ExhaustedFromNext(ops: seq<Op>, turns: seq<Turn>, offline: bool, i: nat)
    requires i < |ops| <= |turns| && !EndsPass(turns[i].net, offline)
    ensures ExhaustedOps(ops, turns, offline, i)
            == (if turns[i].net != Accepted && ops[i].retryCount + 1 >= 3 then {i} else {})
               + ExhaustedOps(ops, turns, offline, i + 1)
  {
    forall j: nat
      ensures j in ExhaustedOps(ops, turns, offline, i) <==>
              (j == i && turns[i].net != Accepted && ops[i].retryCount + 1 >= 3)
              || j in ExhaustedOps(ops, turns, offline, i + 1)
    {
      if i < j < |ops| {
        ReachedFromNext(ops, turns, offline, i, j);
      }
    }
  }

  lemma AddOne(s: set<nat>, i: nat, yes: bool)
    requires i !in s
    ensures |(if yes then {i} else {}) + s| == |s| + if yes then 1 else 0
  {
  }

  lemma NoneStopped(ops: seq<Op>, turns: seq<Turn>, offline: bool, i: nat)
    requires i < |ops| <= |turns| && EndsPass(turns[i].net, offline)
    ensures AcceptedOps(ops, turns, offline, i) == {} && ExhaustedOps(ops, turns, offline, i) == {}
  {
    forall j: nat | i < j < |ops| ensures !Reached(ops, turns, offline, i, j) {
    }
  }

  // `replayed` is the number of ops the server accepted before the pass ended, ...
  lemma {:induction false} ReplayedAre(ops: seq<Op>, turns: seq<Turn>, offline: bool, i: nat)
    requires i <= |ops| <= |turns|
    ensures Tally(ops, turns, offline, i).replayed == |AcceptedOps(ops, turns, offline, i)|
    decreases |ops| - i
  {
    if i == |ops| {
      assert AcceptedOps(ops, turns, offline, i) == {};
    } else if EndsPass(turns[i].net, offline) {
      NoneStopped(ops, turns, offline, i);
    } else {
      ReplayedAre(ops, turns, offline, i + 1);
      AcceptedFromNext(ops, turns, offline, i);
      AddOne(AcceptedOps(ops, turns, offline, i + 1), i, turns[i].net == Accepted);
    }
  }

  // ... and `discarded` that of the ops that failed for the third time.
  lemma {:induction false} DiscardedAre(ops: seq<Op>, turns: seq<Turn>, offline: bool, i: nat)
    requires i <= |ops| <= |turns|
    ensures Tally(ops, turns, offline, i).discarded == |ExhaustedOps(ops, turns, offline, i)|
    decreases |ops| - i
  {
    if i == |ops| {
      assert ExhaustedOps(ops, turns, offline, i) == {};
    } else if EndsPass(turns[i].net, offline) {
      NoneStopped(ops, turns, offline, i);
    } else {
      DiscardedAre(ops, turns, offline, i + 1);
      ExhaustedFromNext(ops, turns, offline, i);
      AddOne(ExhaustedOps(ops, turns, offline, i + 1), i, turns[i].net != Accepted && ops[i].retryCount + 1 >= 3);
    }
  }
}
