// The offline outbox: the durable queue (client/src/lib/pending-ops.ts), its UI
// mirror (client/src/store/pending-ops.ts), the replay engine
// (client/src/lib/offline-sync.ts) and the push that apiFetch does when the
// network fails (client/src/api/client.ts:206-219).
//
// Each load/modify/save of the disk slot is one step. Ids are drawn from a
// counter, which stands for "timestamp-random" being unique.
module Outbox {
  import opened Wrappers

  const MAX_RETRIES: nat := 3

  datatype Payload = Payload(httpMethod: string, path: string, body: Option<string>)

  datatype Op = Op(id: nat, payload: Payload, retryCount: nat)

  // ---- queue operations ----

  function RemoveById(ops: seq<Op>, id: nat): (r: seq<Op>) {
    if ops == [] then []
    else (if ops[0].id == id then [] else [ops[0]]) + RemoveById(ops[1..], id)
  }

  // findIndex
  function IndexOf(ops: seq<Op>, id: nat): (r: Option<nat>)
    ensures r.Some? ==> r.value < |ops| && ops[r.value].id == id
    ensures r.None? ==> forall o :: o in ops ==> o.id != id
  {
    if ops == [] then None
    else if ops[0].id == id then Some(0)
    else
      var rest := IndexOf(ops[1..], id);
      if rest.None? then None else Some(rest.value + 1)
  }

  function Bump(op: Op): Op {
    op.(retryCount := op.retryCount + 1)
  }

  function Increment(ops: seq<Op>, id: nat): (seq<Op>, Option<Op>) {
    match IndexOf(ops, id)
    case None => (ops, None)
    case Some(i) => (ops[i := Bump(ops[i])], Some(Bump(ops[i])))
  }

  // store.updateOp
  function Update(ops: seq<Op>, op: Op): (r: seq<Op>) {
    seq(|ops|, i requires 0 <= i < |ops| => if ops[i].id == op.id then op else ops[i])
  }

  function Enqueue(payloads: seq<Payload>, nextId: nat): (r: seq<Op>)
    ensures |r| == |payloads|
    ensures forall i :: 0 <= i < |r| ==> r[i] == Op(nextId + i, payloads[i], 0)
  {
    if payloads == [] then []
    else
      var last := |payloads| - 1;
      Enqueue(payloads[..last], nextId) + [Op(nextId + last, payloads[last], 0)]
  }

  predicate Distinct(ops: seq<Op>) {
    forall i, j :: 0 <= i < j < |ops| ==> ops[i].id != ops[j].id
  }

  predicate Below(ops: seq<Op>, n: nat) {
    forall i :: 0 <= i < |ops| ==> ops[i].id < n
  }

  lemma {:induction false} RemoveAbsent(ops: seq<Op>, id: nat)
    requires forall o :: o in ops ==> o.id != id
    ensures RemoveById(ops, id) == ops
  {
    if ops != [] {
      RemoveAbsent(ops[1..], id);
    }
  }

  lemma {:induction false} RemoveAppend(a: seq<Op>, b: seq<Op>, id: nat)
    ensures RemoveById(a + b, id) == RemoveById(a, id) + RemoveById(b, id)
  {
    if a == [] {
      assert a + b == b;
    } else {
      assert (a + b)[1..] == a[1..] + b;
      RemoveAppend(a[1..], b, id);
    }
  }

  lemma OthersDiffer(a: seq<Op>, op: Op, b: seq<Op>)
    requires Distinct(a + [op] + b)
    ensures forall i :: 0 <= i < |a| ==> a[i].id != op.id
    ensures forall i :: 0 <= i < |b| ==> b[i].id != op.id
  {
    var all := a + [op] + b;
    assert all[|a|] == op;
    forall i | 0 <= i < |a| ensures a[i].id != op.id {
      assert all[i] == a[i];
    }
    forall i | 0 <= i < |b| ensures b[i].id != op.id {
      assert all[|a| + 1 + i] == b[i];
    }
  }

  lemma RemoveMiddle(a: seq<Op>, op: Op, b: seq<Op>)
    requires Distinct(a + [op] + b)
    ensures RemoveById(a + [op] + b, op.id) == a + b
  {
    OthersDiffer(a, op, b);
    RemoveAbsent(a, op.id);
    RemoveAbsent(b, op.id);
    RemoveAppend(a, [op], op.id);
    assert RemoveById([op], op.id) == [] by { assert [op][1..] == []; }
    assert RemoveById(a + [op], op.id) == a;
    RemoveAppend(a + [op], b, op.id);
  }

  lemma IncrementMiddle(a: seq<Op>, op: Op, b: seq<Op>)
    requires Distinct(a + [op] + b)
    ensures Increment(a + [op] + b, op.id) == (a + [Bump(op)] + b, Some(Bump(op)))
    ensures Update(a + [op] + b, Bump(op)) == a + [Bump(op)] + b
  {
    var all := a + [op] + b;
    assert all[|a|] == op;
    assert IndexOf(all, op.id).Some?;
    assert IndexOf(all, op.id).value == |a|;
    assert all[|a| := Bump(op)] == a + [Bump(op)] + b;
    assert Update(all, Bump(op)) == a + [Bump(op)] + b;
  }

  // ---- one pass, as a function of what the network did ----

  // NoServer: the base URL is not set. Unreachable: fetch itself threw.
  datatype Net = Accepted | Rejected | Unreachable | NoServer

  // What happened while one op was being replayed: the network's answer, and
  // what the user pushed during the request and during the queue updates.
  datatype Turn = Turn(net: Net, during: seq<Payload>, after: seq<Payload>)

  datatype Fate = Sent | Stop | Retry | Drop

  // With offline mode on, an unreachable server makes apiFetch queue a copy and
  // throw OfflineQueuedError, which the engine counts like an API error.
  function FateOf(op: Op, net: Net, offline: bool): Fate {
    match net
    case Accepted => Sent
    case NoServer => Stop
    case Unreachable => if !offline then Stop else if op.retryCount + 1 >= MAX_RETRIES then Drop else Retry
    case Rejected => if op.retryCount + 1 >= MAX_RETRIES then Drop else Retry
  }

  function CopyOf(op: Op, net: Net, offline: bool): seq<Payload> {
    if net.Unreachable? && offline then [op.payload] else []
  }

  // What one turn leaves of its op, and what it adds to the queue.
  function Left(op: Op, fate: Fate): seq<Op> {
    match fate
    case Stop => [op]
    case Retry => [Bump(op)]
    case _ => []
  }

  function Early(op: Op, turn: Turn, offline: bool): seq<Payload> {
    turn.during + CopyOf(op, turn.net, offline)
  }

  function Late(op: Op, turn: Turn, offline: bool): seq<Payload> {
    if FateOf(op, turn.net, offline).Stop? then [] else turn.after
  }

  function Arrivals(op: Op, turn: Turn, offline: bool): seq<Payload> {
    Early(op, turn, offline) + Late(op, turn, offline)
  }

  // The queue after one turn, `before` and `behind` being the ops around `op`.
  function AfterTurn(op: Op, turn: Turn, offline: bool, before: seq<Op>, behind: seq<Op>, nextId: nat): seq<Op> {
    before + Left(op, FateOf(op, turn.net, offline)) + behind + Enqueue(Arrivals(op, turn, offline), nextId)
  }

  // The same before the pushes that come during the queue updates.
  function Halfway(op: Op, turn: Turn, offline: bool, before: seq<Op>, behind: seq<Op>, nextId: nat): seq<Op> {
    before + Left(op, FateOf(op, turn.net, offline)) + (behind + Enqueue(Early(op, turn, offline), nextId))
  }

  // The pass over ops[i..]: the ops it keeps, ...
  function Kept(ops: seq<Op>, turns: seq<Turn>, offline: bool, i: nat): seq<Op>
    requires i <= |ops| <= |turns|
    decreases |ops| - i
  {
    if i == |ops| then []
    else
      var fate := FateOf(ops[i], turns[i].net, offline);
      if fate.Stop? then ops[i..] else Left(ops[i], fate) + Kept(ops, turns, offline, i + 1)
  }

  // ... the payloads queued meanwhile, ...
  function Pushed(ops: seq<Op>, turns: seq<Turn>, offline: bool, i: nat): seq<Payload>
    requires i <= |ops| <= |turns|
    decreases |ops| - i
  {
    if i == |ops| then []
    else
      Arrivals(ops[i], turns[i], offline)
      + if FateOf(ops[i], turns[i].net, offline).Stop? then [] else Pushed(ops, turns, offline, i + 1)
  }

  // The disk after a pass over `ops`.
  function AfterPass(ops: seq<Op>, turns: seq<Turn>, offline: bool, nextId: nat): seq<Op>
    requires |ops| <= |turns|
  {
    Kept(ops, turns, offline, 0) + Enqueue(Pushed(ops, turns, offline, 0), nextId)
  }

  datatype SyncResult = SyncResult(replayed: nat, discarded: nat, stillOffline: bool)

  function Plus(a: SyncResult, b: SyncResult): SyncResult {
    SyncResult(a.replayed + b.replayed, a.discarded + b.discarded, a.stillOffline || b.stillOffline)
  }

  function Score(fate: Fate): SyncResult {
    SyncResult(if fate.Sent? then 1 else 0, if fate.Drop? then 1 else 0, fate.Stop?)
  }

  // ... and its result.
  function Tally(ops: seq<Op>, turns: seq<Turn>, offline: bool, i: nat): SyncResult
    requires i <= |ops| <= |turns|
    decreases |ops| - i
  {
    if i == |ops| then SyncResult(0, 0, false)
    else
      var fate := FateOf(ops[i], turns[i].net, offline);
      if fate.Stop? then Score(fate) else Plus(Score(fate), Tally(ops, turns, offline, i + 1))
  }

  // ---- the engine in the source's imperative form ----

  class Engine {
    var disk: seq<Op>
    var store: seq<Op>
    var syncing: bool
    var offline: bool
    var nextId: nat

    predicate Valid()
      reads this
    {
      Distinct(disk) && Below(disk, nextId)
    }

    constructor (disk: seq<Op>, offline: bool, nextId: nat)
      requires Distinct(disk) && Below(disk, nextId)
      ensures Valid() && this.disk == disk && this.offline == offline && this.nextId == nextId
      ensures !syncing && store == []
    {
      this.disk, this.offline, this.nextId := disk, offline, nextId;
      store, syncing := [], false;
    }

    // pushPendingOp followed by store.addOp
    method Push(payload: Payload)
      modifies this`disk, this`store, this`nextId
      ensures disk == old(disk) + [Op(old(nextId), payload, 0)]
      ensures store == old(store) + [Op(old(nextId), payload, 0)]
      ensures nextId == old(nextId) + 1
    {
      var op := Op(nextId, payload, 0);
      nextId := nextId + 1;
      disk := disk + [op];
      store := store + [op];
    }

    method PushAll(payloads: seq<Payload>)
      modifies this`disk, this`store, this`nextId
      ensures disk == old(disk) + Enqueue(payloads, old(nextId))
      ensures store == old(store) + Enqueue(payloads, old(nextId))
      ensures nextId == old(nextId) + |payloads|
    {
      for i := 0 to |payloads|
        invariant disk == old(disk) + Enqueue(payloads[..i], old(nextId))
        invariant store == old(store) + Enqueue(payloads[..i], old(nextId))
        invariant nextId == old(nextId) + i
      {
        Push(payloads[i]);
        assert payloads[..i + 1] == payloads[..i] + [payloads[i]];
      }
      assert payloads[..|payloads|] == payloads;
    }

    method RemovePendingOp(id: nat)
      modifies this`disk
      ensures disk == RemoveById(old(disk), id)
    {
      var filtered := [];
      for i := 0 to |disk|
        invariant disk == old(disk)
        invariant filtered + RemoveById(disk[i..], id) == RemoveById(disk, id)
      {
        if disk[i].id != id {
          filtered := filtered + [disk[i]];
        }
        assert disk[i..][1..] == disk[i + 1..];
      }
      disk := filtered;
    }

    method IncrementRetryCount(id: nat) returns (updated: Option<Op>)
      modifies this`disk
      ensures (disk, updated) == Increment(old(disk), id)
    {
      var idx := IndexOf(disk, id);
      if idx.None? {
        return None;
      }
      disk := disk[idx.value := Bump(disk[idx.value])];
      updated := Some(disk[idx.value]);
    }

    // apiFetch as the engine calls it: what the user pushes meanwhile, and the
    // copy it queues itself when the network fails in offline mode.
    method ApiFetch(op: Op, turn: Turn)
      modifies this`disk, this`store, this`nextId
      ensures var payloads := Early(op, turn, offline);
              && disk == old(disk) + Enqueue(payloads, old(nextId))
              && store == old(store) + Enqueue(payloads, old(nextId))
              && nextId == old(nextId) + |payloads|
    {
      EnqueueAppend(turn.during, CopyOf(op, turn.net, offline), nextId);
      PushAll(turn.during);
      if turn.net.Unreachable? && offline {
        Push(op.payload);
      }
    }

    // What the loop body does with the queue once apiFetch has settled.
    method Settle(op: Op, net: Net, ghost before: seq<Op>, ghost behind: seq<Op>) returns (fate: Fate)
      requires Distinct(disk) && disk == before + [op] + behind && store == disk
      modifies this`disk, this`store
      ensures fate == FateOf(op, net, offline)
      ensures store == disk && disk == before + Left(op, fate) + behind
    {
      if net.NoServer? || (net.Unreachable? && !offline) {
        return Stop;
      }
      if net.Accepted? {
        RemoveMiddle(before, op, behind);
        RemovePendingOp(op.id);
        store := RemoveById(store, op.id);
        return Sent;
      }
      IncrementMiddle(before, op, behind);
      BumpKeepsDistinct(before, op, behind);
      var updated := IncrementRetryCount(op.id);
      store := Update(store, updated.value);
      if updated.value.retryCount < MAX_RETRIES {
        return Retry;
      }
      RemoveMiddle(before, Bump(op), behind);
      RemovePendingOp(op.id);
      store := RemoveById(store, op.id);
      fate := Drop;
    }

    // apiFetch and what follows from its outcome.
    method FetchAndSettle(op: Op, turn: Turn, ghost before: seq<Op>, ghost behind: seq<Op>) returns (fate: Fate)
      requires Valid() && disk == before + [op] + behind && store == disk
      modifies this`disk, this`store, this`nextId
      ensures fate == FateOf(op, turn.net, offline) && store == disk
      ensures disk == Halfway(op, turn, offline, before, behind, old(nextId))
      ensures nextId == old(nextId) + |Early(op, turn, offline)|
    {
      ghost var first := nextId;
      EarlyQueue(op, turn, offline, before, behind, first);
      ApiFetch(op, turn);
      fate := Settle(op, turn.net, before, behind + Enqueue(Early(op, turn, offline), first));
    }

    // One iteration of the replay loop; `before` and `behind` are the ops
    // around `op` on the disk.
    method Replay(op: Op, turn: Turn, ghost before: seq<Op>, ghost behind: seq<Op>) returns (fate: Fate)
      requires Valid() && disk == before + [op] + behind && store == disk
      modifies this`disk, this`store, this`nextId
      ensures fate == FateOf(op, turn.net, offline)
      ensures Valid() && store == disk
      ensures disk == AfterTurn(op, turn, offline, before, behind, old(nextId))
      ensures nextId == old(nextId) + |Arrivals(op, turn, offline)|
    {
      AfterTurnIsValid(op, turn, offline, before, behind, nextId);
      LateQueue(op, turn, offline, before, behind, nextId);
      fate := FetchAndSettle(op, turn, before, behind);
      PushAll(Late(op, turn, offline));
    }

    // The same, seen from the loop over the snapshot.
    method ReplayNth(ops: seq<Op>, i: nat, turn: Turn, ghost kept: seq<Op>, ghost added: seq<Payload>, ghost first: nat)
      returns (fate: Fate)
      requires Valid() && i < |ops| && nextId == first + |added|
      requires disk == Layout(kept, ops[i..], added, first) && store == disk
      modifies this`disk, this`store, this`nextId
      ensures fate == FateOf(ops[i], turn.net, offline)
      ensures Valid() && store == disk
      ensures disk == Layout(kept + Left(ops[i], fate), ops[i + 1..], added + Arrivals(ops[i], turn, offline), first)
      ensures nextId == first + |added + Arrivals(ops[i], turn, offline)|
    {
      LayoutHead(kept, ops, i, added, first);
      LayoutStep(kept, ops, i, added, first, turn, offline);
      fate := Replay(ops[i], turn, kept, ops[i + 1..] + Enqueue(added, first));
    }

    // The loop of syncPendingOps. `turns[i]` is what the world does while the
    // i-th op of the snapshot is being replayed.
    method ReplayAll(ops: seq<Op>, turns: seq<Turn>) returns (result: SyncResult)
      requires Valid() && store == disk == ops && |ops| <= |turns|
      modifies this`disk, this`store, this`nextId
      ensures Valid() && store == disk
      ensures disk == AfterPass(ops, turns, offline, old(nextId))
      ensures nextId == old(nextId) + |Pushed(ops, turns, offline, 0)|
      ensures result == Tally(ops, turns, offline, 0)
    {
      result := SyncResult(0, 0, false);
      ghost var kept: seq<Op> := [];
      ghost var added: seq<Payload> := [];
      ghost var first := nextId;
      StartPass(ops, turns, offline, first);
      var i := 0;
      while i < |ops|
        invariant MidPass(ops, turns, offline, i, kept, added, result)
        invariant disk == Layout(kept, ops[i..], added, first) && store == disk
        invariant Valid() && nextId == first + |added|
      {
        var fate := ReplayNth(ops, i, turns[i], kept, added, first);
        if fate.Stop? {
          StoppedPass(ops, turns, offline, i, kept, added, result, first, fate);
          return Plus(result, Score(fate));
        }
        MidPassStep(ops, turns, offline, i, kept, added, result);
        kept, added := kept + Left(ops[i], fate), added + Arrivals(ops[i], turns[i], offline);
        result := Plus(result, Score(fate));
        i := i + 1;
      }
      EndPass(ops, turns, offline, kept, added, result, first);
    }

    method SyncPendingOps(turns: seq<Turn>) returns (result: SyncResult)
      requires Valid() && |disk| <= |turns|
      modifies this
      ensures Valid() && syncing == old(syncing) && offline == old(offline)
      ensures old(syncing) ==> disk == old(disk) && store == old(store) && result == SyncResult(0, 0, false)
      ensures !old(syncing) ==>
        && disk == AfterPass(old(disk), turns, offline, old(nextId))
        && nextId == old(nextId) + |Pushed(old(disk), turns, offline, 0)|
        && store == disk
        && result == Tally(old(disk), turns, offline, 0)
    {
      if syncing {
        return SyncResult(0, 0, false);
      }
      syncing := true;
      store := disk;
      result := ReplayAll(disk, turns);
      syncing := false;
    }
  }

  // The queue in the middle of a pass: what is kept, what is to come, what arrived.
  function Layout(kept: seq<Op>, todo: seq<Op>, added: seq<Payload>, first: nat): seq<Op> {
    kept + todo + Enqueue(added, first)
  }

  lemma LayoutHead(kept: seq<Op>, ops: seq<Op>, i: nat, added: seq<Payload>, first: nat)
    requires i < |ops|
    ensures Layout(kept, ops[i..], added, first) == kept + [ops[i]] + (ops[i + 1..] + Enqueue(added, first))
  {
  }

  lemma LayoutStep(kept: seq<Op>, ops: seq<Op>, i: nat, added: seq<Payload>, first: nat, turn: Turn, offline: bool)
    requires i < |ops|
    ensures AfterTurn(ops[i], turn, offline, kept, ops[i + 1..] + Enqueue(added, first), first + |added|)
         == Layout(kept + Left(ops[i], FateOf(ops[i], turn.net, offline)), ops[i + 1..],
                   added + Arrivals(ops[i], turn, offline), first)
  {
    EnqueueAppend(added, Arrivals(ops[i], turn, offline), first);
  }

  ghost predicate MidPass(ops: seq<Op>, turns: seq<Turn>, offline: bool, i: int,
                          kept: seq<Op>, added: seq<Payload>, result: SyncResult) {
    && 0 <= i <= |ops| <= |turns|
    && kept + Kept(ops, turns, offline, i) == Kept(ops, turns, offline, 0)
    && added + Pushed(ops, turns, offline, i) == Pushed(ops, turns, offline, 0)
    && Plus(result, Tally(ops, turns, offline, i)) == Tally(ops, turns, offline, 0)
  }

  lemma MidPassStep(ops: seq<Op>, turns: seq<Turn>, offline: bool, i: nat,
                    kept: seq<Op>, added: seq<Payload>, result: SyncResult)
    requires i < |ops| && MidPass(ops, turns, offline, i, kept, added, result)
    requires !FateOf(ops[i], turns[i].net, offline).Stop?
    ensures var fate := FateOf(ops[i], turns[i].net, offline);
            MidPass(ops, turns, offline, i + 1, kept + Left(ops[i], fate),
                    added + Arrivals(ops[i], turns[i], offline), Plus(result, Score(fate)))
  {
    var fate := FateOf(ops[i], turns[i].net, offline);
    Associate(kept, Left(ops[i], fate), Kept(ops, turns, offline, i + 1));
    Associate(added, Arrivals(ops[i], turns[i], offline), Pushed(ops, turns, offline, i + 1));
  }

  lemma StoppedPass(ops: seq<Op>, turns: seq<Turn>, offline: bool, i: nat,
                    kept: seq<Op>, added: seq<Payload>, result: SyncResult, first: nat, fate: Fate)
    requires i < |ops| && MidPass(ops, turns, offline, i, kept, added, result)
    requires fate == FateOf(ops[i], turns[i].net, offline) && fate.Stop?
    ensures Layout(kept + Left(ops[i], fate), ops[i + 1..], added + Arrivals(ops[i], turns[i], offline), first)
         == AfterPass(ops, turns, offline, first)
    ensures added + Arrivals(ops[i], turns[i], offline) == Pushed(ops, turns, offline, 0)
    ensures Plus(result, Score(fate)) == Tally(ops, turns, offline, 0)
  {
  }

  lemma StartPass(ops: seq<Op>, turns: seq<Turn>, offline: bool, first: nat)
    requires |ops| <= |turns|
    ensures MidPass(ops, turns, offline, 0, [], [], SyncResult(0, 0, false))
    ensures Layout([], ops[0..], [], first) == ops
  {
  }

  lemma EndPass(ops: seq<Op>, turns: seq<Turn>, offline: bool,
                kept: seq<Op>, added: seq<Payload>, result: SyncResult, first: nat)
    requires MidPass(ops, turns, offline, |ops|, kept, added, result)
    ensures Layout(kept, ops[|ops|..], added, first)
         == AfterPass(ops, turns, offline, first)
    ensures added == Pushed(ops, turns, offline, 0)
    ensures result == Tally(ops, turns, offline, 0)
  {
  }

  lemma Associate<T>(a: seq<T>, b: seq<T>, c: seq<T>)
    ensures a + b + c == a + (b + c)
  {
  }

  // Before the queue update of a turn ...
  lemma EarlyQueue(op: Op, turn: Turn, offline: bool, before: seq<Op>, behind: seq<Op>, n: nat)
    requires Distinct(before + [op] + behind) && Below(before + [op] + behind, n)
    ensures var early := Enqueue(Early(op, turn, offline), n);
            && Distinct(before + [op] + (behind + early))
            && before + [op] + behind + early == before + [op] + (behind + early)
  {
  }

  // ... and after it.
  lemma LateQueue(op: Op, turn: Turn, offline: bool, before: seq<Op>, behind: seq<Op>, n: nat)
    ensures var early, late := Early(op, turn, offline), Late(op, turn, offline);
            && Halfway(op, turn, offline, before, behind, n) + Enqueue(late, n + |early|)
               == AfterTurn(op, turn, offline, before, behind, n)
            && |early| + |late| == |Arrivals(op, turn, offline)|
  {
  }

  lemma AfterTurnIsValid(op: Op, turn: Turn, offline: bool, before: seq<Op>, behind: seq<Op>, n: nat)
    requires Distinct(before + [op] + behind) && Below(before + [op] + behind, n)
    ensures Distinct(AfterTurn(op, turn, offline, before, behind, n))
    ensures Below(AfterTurn(op, turn, offline, before, behind, n), n + |Arrivals(op, turn, offline)|)
  {
    var fate := FateOf(op, turn.net, offline);
    LeftKeepsDistinct(before, op, fate, behind, n);
    DistinctAppend(before + Left(op, fate) + behind, Arrivals(op, turn, offline), n);
  }

  lemma LeftKeepsDistinct(a: seq<Op>, op: Op, fate: Fate, b: seq<Op>, n: nat)
    requires Distinct(a + [op] + b) && Below(a + [op] + b, n)
    ensures Distinct(a + Left(op, fate) + b) && Below(a + Left(op, fate) + b, n)
  {
    var before, now := a + [op] + b, a + Left(op, fate) + b;
    if Left(op, fate) == [] {
      assert forall i :: 0 <= i < |now| ==> now[i] == before[if i < |a| then i else i + 1];
    } else {
      assert forall i :: 0 <= i < |now| ==> now[i].id == before[i].id;
    }
  }

  lemma EnqueueAppend(a: seq<Payload>, b: seq<Payload>, n: nat)
    ensures Enqueue(a + b, n) == Enqueue(a, n) + Enqueue(b, n + |a|)
  {
  }

  lemma DistinctAppend(ops: seq<Op>, payloads: seq<Payload>, n: nat)
    requires Distinct(ops) && Below(ops, n)
    ensures Distinct(ops + Enqueue(payloads, n)) && Below(ops + Enqueue(payloads, n), n + |payloads|)
  {
  }

  lemma BumpKeepsDistinct(a: seq<Op>, op: Op, b: seq<Op>)
    requires Distinct(a + [op] + b)
    ensures Distinct(a + [Bump(op)] + b)
  {
    var before, now := a + [op] + b, a + [Bump(op)] + b;
    assert forall i :: 0 <= i < |now| ==> now[i].id == before[i].id;
  }
}
