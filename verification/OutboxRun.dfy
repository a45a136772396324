// The replay pass as it is specified for the engine is a run of the interleaved
// machine, so that what holds of every run of the one holds of the other.
module OutboxRun {
  import opened Wrappers
  import opened Outbox
  import opened OutboxMachine

  // Nothing but the queue, the loop and the history may differ.
  predicate SameRest(m: Machine, m': Machine) {
    && m'.pending == m.pending && m'.loaded == m.loaded && m'.snapshots == m.snapshots
    && m'.offline == m.offline
  }

  // The store mirrors the disk and a loop is about to fetch `todo`.
  ghost predicate AtTurn(m: Machine, disk: seq<Op>, todo: seq<Op>) {
    && Inv(m) && m.disk == disk && m.store == disk && m.pending == []
    && m.syncing && m.loops == [Loop(Fetching, todo)]
  }

  lemma RunLast(m: Machine, steps: seq<Step>, step: Step)
    ensures Run(m, steps + [step]) == Next(Run(m, steps), step)
  {
    RunAppend(m, steps, [step]);
    assert [step][1..] == [];
  }

  // ---- pushes, each followed by its addOp ----

  lemma {:induction false} PushesRun(m: Machine, payloads: seq<Payload>) returns (steps: seq<Step>)
    requires m.pending == []
    ensures var m', ops := Run(m, steps), Enqueue(payloads, |m.log|);
            && m'.disk == m.disk + ops && m'.store == m.store + ops
            && SameRest(m, m') && m'.loops == m.loops && m'.syncing == m.syncing
            && |m'.log| == |m.log| + |payloads|
    decreases |payloads|
  {
    if payloads == [] {
      steps := [];
    } else {
      var last := |payloads| - 1;
      var front := PushesRun(m, payloads[..last]);
      var m1 := Run(m, front);
      var push := UserPush(payloads[last]);
      RunLast(m, front, push);
      RunLast(m, front + [push], MirrorPush);
      steps := front + [push] + [MirrorPush];
      var op := Op(|m.log| + last, payloads[last], 0);
      assert Enqueue(payloads, |m.log|) == Enqueue(payloads[..last], |m.log|) + [op];
    }
  }

  // ---- what follows a request ----

  // `on` is the op as it stands on the disk.
  lemma RemovesRun(m: Machine, phase: Phase, op: Op, rest: seq<Op>, before: seq<Op>, on: Op, behind: seq<Op>, net: Net)
    requires phase == Removing || phase == Discarding
    requires m.loops == [Loop(phase, [op] + rest)] && m.disk == m.store == before + [on] + behind
    requires on.id == op.id && Distinct(before + [on] + behind)
    ensures var m' := Next(m, Advance(0, net));
            && m'.disk == m'.store == before + behind && m'.loops == [Loop(Fetching, rest)]
            && SameRest(m, m') && m'.log == m.log && m'.syncing == m.syncing
  {
    RemoveMiddle(before, on, behind);
    assert ([op] + rest)[1..] == rest;
  }

  lemma CountsRun(m: Machine, op: Op, rest: seq<Op>, before: seq<Op>, behind: seq<Op>, net: Net)
    requires m.loops == [Loop(Counting, [op] + rest)] && m.disk == m.store == before + [op] + behind
    requires Distinct(before + [op] + behind)
    ensures var m' := Next(m, Advance(0, net));
            && m'.disk == m'.store == before + [Bump(op)] + behind
            && m'.loops == [if op.retryCount + 1 >= MAX_RETRIES then Loop(Discarding, [op] + rest) else Loop(Fetching, rest)]
            && SameRest(m, m') && m'.log == m.log && m'.syncing == m.syncing
  {
    IncrementMiddle(before, op, behind);
    assert ([op] + rest)[1..] == rest;
  }

  // A counted failure, and the discarding that it may lead to.
  lemma FailureRun(m: Machine, op: Op, rest: seq<Op>, before: seq<Op>, behind: seq<Op>) returns (steps: seq<Step>)
    requires m.loops == [Loop(Counting, [op] + rest)] && m.disk == m.store == before + [op] + behind
    requires Distinct(before + [op] + behind)
    ensures var m' := Run(m, steps);
            && m'.disk == m'.store == before + (if op.retryCount + 1 >= MAX_RETRIES then [] else [Bump(op)]) + behind
            && m'.loops == [Loop(Fetching, rest)]
            && SameRest(m, m') && m'.log == m.log && m'.syncing == m.syncing
  {
    var count := Advance(0, Rejected);
    CountsRun(m, op, rest, before, behind, Rejected);
    steps := [count];
    assert [count][1..] == [];
    if op.retryCount + 1 >= MAX_RETRIES {
      var m1 := Next(m, count);
      BumpKeepsDistinct(before, op, behind);
      RemovesRun(m1, Discarding, op, rest, before, Bump(op), behind, Rejected);
      RunLast(m, [count], count);
      steps := [count] + [count];
      assert before + [] + behind == before + behind;
    }
  }

  // ---- one request ----

  lemma SetTraceOnly(m: Machine, id: nat, trace: Trace)
    ensures SetTrace(m, id, trace).(log := m.log) == m && |SetTrace(m, id, trace).log| == |m.log|
  {
  }

  lemma StopRun(m: Machine, op: Op, rest: seq<Op>, net: Net)
    requires AtTurn(m, m.disk, [op] + rest) && FateOf(op, net, m.offline).Stop?
    ensures var m' := Next(m, Advance(0, net));
            m'.disk == m.disk == m'.store && m'.loops == [] && !m'.syncing && SameRest(m, m') && m'.log == m.log
  {
    assert LoopInv(m, m.loops[0]);
  }

  lemma AcceptRun(m: Machine, op: Op, rest: seq<Op>)
    requires AtTurn(m, m.disk, [op] + rest)
    ensures var m' := Next(m, Advance(0, Accepted));
            && m'.disk == m.disk == m'.store && m'.loops == [Loop(Removing, [op] + rest)] && m'.syncing
            && SameRest(m, m') && |m'.log| == |m.log|
  {
    assert LoopInv(m, m.loops[0]);
  }

  lemma RejectRun(m: Machine, op: Op, rest: seq<Op>)
    requires AtTurn(m, m.disk, [op] + rest)
    ensures var m' := Next(m, Advance(0, Rejected));
            && m'.disk == m.disk == m'.store && m'.loops == [Loop(Counting, [op] + rest)] && m'.syncing
            && SameRest(m, m') && |m'.log| == |m.log|
  {
    assert LoopInv(m, m.loops[0]);
  }

  lemma OutageRun(m: Machine, op: Op, rest: seq<Op>)
    requires AtTurn(m, m.disk, [op] + rest) && m.offline
    ensures var m' := Next(Next(m, Advance(0, Unreachable)), MirrorPush);
            && m'.disk == m'.store == m.disk + [Op(|m.log|, op.payload, 0)]
            && m'.loops == [Loop(Counting, [op] + rest)] && m'.syncing
            && SameRest(m, m') && |m'.log| == |m.log| + 1
  {
    assert LoopInv(m, m.loops[0]);
  }

  ghost predicate Settled(m: Machine, m': Machine, op: Op, net: Net, rest: seq<Op>, before: seq<Op>, behind: seq<Op>) {
    && m'.disk == m'.store
       == before + Left(op, FateOf(op, net, m.offline)) + (behind + Enqueue(CopyOf(op, net, m.offline), |m.log|))
    && m'.loops == [Loop(Fetching, rest)] && m'.syncing
    && SameRest(m, m') && |m'.log| == |m.log| + |CopyOf(op, net, m.offline)|
  }

  // The request and the queue updates that follow, from a queue with the op
  // between `before` and `behind`.
  lemma SettleRun(m: Machine, op: Op, net: Net, rest: seq<Op>, before: seq<Op>, behind: seq<Op>)
    returns (steps: seq<Step>)
    requires AtTurn(m, before + [op] + behind, [op] + rest) && !FateOf(op, net, m.offline).Stop?
    ensures Settled(m, Run(m, steps), op, net, rest, before, behind)
  {
    var fetch := Advance(0, net);
    var m1 := Next(m, fetch);
    assert [fetch][1..] == [];
    assert behind + [] == behind;
    match net
    case Accepted =>
      AcceptRun(m, op, rest);
      RemovesRun(m1, Removing, op, rest, before, op, behind, net);
      RunLast(m, [fetch], fetch);
      steps := [fetch] + [fetch];
      assert before + [] + behind == before + behind;
    case Rejected =>
      RejectRun(m, op, rest);
      var counted := FailureRun(m1, op, rest, before, behind);
      RunAppend(m, [fetch], counted);
      steps := [fetch] + counted;
    case Unreachable =>
      OutageRun(m, op, rest);
      var copy := Op(|m.log|, op.payload, 0);
      var m2 := Next(m1, MirrorPush);
      assert before + [op] + behind + [copy] == before + [op] + (behind + [copy]);
      assert CopyOf(op, net, m.offline)[..0] == [];
      assert Enqueue(CopyOf(op, net, m.offline), |m.log|) == [copy];
      RunLast(m, [fetch], MirrorPush);
      var front := [fetch] + [MirrorPush];
      RunKeepsInv(m, front);
      var counted := FailureRun(m2, op, rest, before, behind + [copy]);
      RunAppend(m, front, counted);
      steps := front + counted;
    case NoServer => steps := [];
  }

  // ---- one turn of the loop ----

  // After the turn: the loop is over or about to fetch `rest`.
  ghost predicate AfterTheTurn(m: Machine, m': Machine, op: Op, turn: Turn, rest: seq<Op>, before: seq<Op>,
                               behind: seq<Op>)
  {
    && SameRest(m, m')
    && m'.disk == m'.store == AfterTurn(op, turn, m.offline, before, behind, |m.log|)
    && |m'.log| == |m.log| + |Arrivals(op, turn, m.offline)|
    && (if FateOf(op, turn.net, m.offline).Stop? then m'.loops == [] && !m'.syncing
        else m'.syncing && m'.loops == [Loop(Fetching, rest)])
  }

  // The queue when the request is answered.
  lemma DuringRun(m: Machine, op: Op, turn: Turn, rest: seq<Op>, before: seq<Op>, behind: seq<Op>)
    returns (steps: seq<Step>)
    requires AtTurn(m, before + [op] + behind, [op] + rest)
    ensures var m' := Run(m, steps);
            && AtTurn(m', before + [op] + (behind + Enqueue(turn.during, |m.log|)), [op] + rest)
            && SameRest(m, m') && |m'.log| == |m.log| + |turn.during|
  {
    steps := PushesRun(m, turn.during);
    RunKeepsInv(m, steps);
    assert before + [op] + behind + Enqueue(turn.during, |m.log|)
        == before + [op] + (behind + Enqueue(turn.during, |m.log|));
  }

  lemma StoppedTurnRun(m: Machine, op: Op, turn: Turn, rest: seq<Op>, before: seq<Op>, behind: seq<Op>)
    returns (steps: seq<Step>)
    requires AtTurn(m, before + [op] + behind, [op] + rest) && FateOf(op, turn.net, m.offline).Stop?
    ensures AfterTheTurn(m, Run(m, steps), op, turn, rest, before, behind)
  {
    var during := DuringRun(m, op, turn, rest, before, behind);
    var m1 := Run(m, during);
    StopRun(m1, op, rest, turn.net);
    RunLast(m, during, Advance(0, turn.net));
    steps := during + [Advance(0, turn.net)];
    StopQueue(op, turn, m.offline, before, behind, |m.log|);
  }

  // The settled queue, and then the late pushes.
  ghost predicate SettledTo(m: Machine, m': Machine, op: Op, turn: Turn, rest: seq<Op>, before: seq<Op>, behind: seq<Op>) {
    var copies := CopyOf(op, turn.net, m.offline);
    && m'.disk == m'.store
       == before + Left(op, FateOf(op, turn.net, m.offline))
          + (behind + Enqueue(turn.during, |m.log|) + Enqueue(copies, |m.log| + |turn.during|))
    && |m'.log| == |m.log| + |turn.during| + |copies|
    && SameRest(m, m') && m'.syncing && m'.loops == [Loop(Fetching, rest)]
  }

  lemma SettledIsTurn(m: Machine, m1: Machine, m2: Machine, op: Op, turn: Turn, rest: seq<Op>, before: seq<Op>,
                      behind: seq<Op>)
    requires !FateOf(op, turn.net, m.offline).Stop? && SettledTo(m, m1, op, turn, rest, before, behind)
    requires m2.disk == m1.disk + Enqueue(turn.after, |m1.log|) && m2.store == m1.store + Enqueue(turn.after, |m1.log|)
    requires |m2.log| == |m1.log| + |turn.after|
    requires SameRest(m1, m2) && m2.syncing == m1.syncing && m2.loops == m1.loops
    ensures AfterTheTurn(m, m2, op, turn, rest, before, behind)
  {
    TurnQueue(op, turn, m.offline, before, behind, |m.log|);
  }

  lemma RequestIsSettled(m: Machine, m1: Machine, m2: Machine, op: Op, turn: Turn, rest: seq<Op>, before: seq<Op>,
                         behind: seq<Op>)
    requires SameRest(m, m1) && |m1.log| == |m.log| + |turn.during|
    requires Settled(m1, m2, op, turn.net, rest, before, behind + Enqueue(turn.during, |m.log|))
    ensures SettledTo(m, m2, op, turn, rest, before, behind)
  {
  }

  lemma RequestRun(m: Machine, op: Op, turn: Turn, rest: seq<Op>, before: seq<Op>, behind: seq<Op>)
    returns (steps: seq<Step>)
    requires AtTurn(m, before + [op] + behind, [op] + rest) && !FateOf(op, turn.net, m.offline).Stop?
    ensures SettledTo(m, Run(m, steps), op, turn, rest, before, behind)
  {
    var during := DuringRun(m, op, turn, rest, before, behind);
    var m1 := Run(m, during);
    var queue := behind + Enqueue(turn.during, |m.log|);
    assert AtTurn(m1, before + [op] + queue, [op] + rest) && m1.offline == m.offline;
    var settle := SettleRun(m1, op, turn.net, rest, before, queue);
    RunAppend(m, during, settle);
    steps := during + settle;
    RequestIsSettled(m, m1, Run(m1, settle), op, turn, rest, before, behind);
  }

  lemma SettledTurnRun(m: Machine, op: Op, turn: Turn, rest: seq<Op>, before: seq<Op>, behind: seq<Op>)
    returns (steps: seq<Step>)
    requires AtTurn(m, before + [op] + behind, [op] + rest) && !FateOf(op, turn.net, m.offline).Stop?
    ensures AfterTheTurn(m, Run(m, steps), op, turn, rest, before, behind)
  {
    var request := RequestRun(m, op, turn, rest, before, behind);
    var m1 := Run(m, request);
    assert m1.pending == [];
    var after := PushesRun(m1, turn.after);
    RunAppend(m, request, after);
    steps := request + after;
    SettledIsTurn(m, m1, Run(m1, after), op, turn, rest, before, behind);
  }

  lemma TurnRun(m: Machine, op: Op, turn: Turn, rest: seq<Op>, before: seq<Op>, behind: seq<Op>)
    returns (steps: seq<Step>)
    requires AtTurn(m, before + [op] + behind, [op] + rest)
    ensures AfterTheTurn(m, Run(m, steps), op, turn, rest, before, behind) && Inv(Run(m, steps))
  {
    if FateOf(op, turn.net, m.offline).Stop? {
      steps := StoppedTurnRun(m, op, turn, rest, before, behind);
    } else {
      steps := SettledTurnRun(m, op, turn, rest, before, behind);
    }
    RunKeepsInv(m, steps);
  }

  lemma StopQueue(op: Op, turn: Turn, offline: bool, before: seq<Op>, behind: seq<Op>, n: nat)
    requires FateOf(op, turn.net, offline).Stop?
    ensures before + [op] + (behind + Enqueue(turn.during, n)) == AfterTurn(op, turn, offline, before, behind, n)
    ensures Arrivals(op, turn, offline) == turn.during
  {
    assert CopyOf(op, turn.net, offline) == [];
    assert turn.during + [] == turn.during;
  }

  lemma Regroup(x: seq<Op>, y: seq<Op>, d: seq<Op>, c: seq<Op>, a: seq<Op>)
    ensures x + (y + d + c) + a == x + y + (d + c + a)
  {
  }

  lemma EnqueueThree(d: seq<Payload>, c: seq<Payload>, a: seq<Payload>, n: nat)
    ensures Enqueue(d + c + a, n) == Enqueue(d, n) + Enqueue(c, n + |d|) + Enqueue(a, n + |d| + |c|)
  {
    EnqueueAppend(d, c, n);
    EnqueueAppend(d + c, a, n);
  }

  lemma ThreeArrive(x: seq<Op>, y: seq<Op>, d: seq<Payload>, c: seq<Payload>, a: seq<Payload>, n: nat)
    ensures x + (y + Enqueue(d, n) + Enqueue(c, n + |d|)) + Enqueue(a, n + |d| + |c|)
            == x + y + Enqueue(d + c + a, n)
  {
    EnqueueThree(d, c, a, n);
    Regroup(x, y, Enqueue(d, n), Enqueue(c, n + |d|), Enqueue(a, n + |d| + |c|));
  }

  lemma ArrivalsAre(op: Op, turn: Turn, offline: bool)
    requires !FateOf(op, turn.net, offline).Stop?
    ensures Arrivals(op, turn, offline) == turn.during + CopyOf(op, turn.net, offline) + turn.after
  {
  }

  lemma TurnQueue(op: Op, turn: Turn, offline: bool, before: seq<Op>, behind: seq<Op>, n: nat)
    requires !FateOf(op, turn.net, offline).Stop?
    ensures var copies := CopyOf(op, turn.net, offline);
            && before + Left(op, FateOf(op, turn.net, offline))
               + (behind + Enqueue(turn.during, n) + Enqueue(copies, n + |turn.during|))
               + Enqueue(turn.after, n + |turn.during| + |copies|)
               == AfterTurn(op, turn, offline, before, behind, n)
            && |turn.during| + |copies| + |turn.after| == |Arrivals(op, turn, offline)|
  {
    ArrivalsAre(op, turn, offline);
    ThreeArrive(before + Left(op, FateOf(op, turn.net, offline)), behind, turn.during,
      CopyOf(op, turn.net, offline), turn.after, n);
  }

  // ---- the whole pass ----

  // The pass from its i-th op on, `kept` and `added` being what it has left so far.
  ghost predicate AfterTheLoop(m: Machine, m': Machine, ops: seq<Op>, turns: seq<Turn>, i: nat, kept: seq<Op>,
                               added: seq<Payload>, first: nat)
    requires i <= |ops| <= |turns|
  {
    var all := added + Pushed(ops, turns, m.offline, i);
    && m'.disk == m'.store == kept + Kept(ops, turns, m.offline, i) + Enqueue(all, first)
    && m'.loops == [] && !m'.syncing && SameRest(m, m') && |m'.log| == first + |all|
  }

  lemma EndRun(m: Machine, ops: seq<Op>, turns: seq<Turn>, kept: seq<Op>, added: seq<Payload>, first: nat)
    requires |ops| <= |turns| && AtTurn(m, Layout(kept, [], added, first), []) && |m.log| == first + |added|
    ensures AfterTheLoop(m, Run(m, [Advance(0, Accepted)]), ops, turns, |ops|, kept, added, first)
  {
    var end := Advance(0, Accepted);
    assert [end][1..] == [];
    assert Kept(ops, turns, m.offline, |ops|) == [] && Pushed(ops, turns, m.offline, |ops|) == [];
    assert added + [] == added && kept + [] == kept;
    assert Run(m, [end]) == EndLoop(m, 0);
  }

  ghost predicate AfterOne(m: Machine, m': Machine, ops: seq<Op>, turn: Turn, i: nat, kept: seq<Op>,
                           added: seq<Payload>, first: nat)
    requires i < |ops|
  {
    var fate := FateOf(ops[i], turn.net, m.offline);
    var arrived := added + Arrivals(ops[i], turn, m.offline);
    && m'.disk == m'.store == Layout(kept + Left(ops[i], fate), ops[i + 1..], arrived, first)
    && |m'.log| == first + |arrived| && SameRest(m, m')
    && (if fate.Stop? then m'.loops == [] && !m'.syncing
        else m'.syncing && m'.loops == [Loop(Fetching, ops[i + 1..])])
  }

  lemma TurnIsOne(m: Machine, m': Machine, ops: seq<Op>, turn: Turn, i: nat, kept: seq<Op>, added: seq<Payload>,
                  first: nat)
    requires i < |ops| && |m.log| == first + |added|
    requires AfterTheTurn(m, m', ops[i], turn, ops[i + 1..], kept, ops[i + 1..] + Enqueue(added, first))
    ensures AfterOne(m, m', ops, turn, i, kept, added, first)
  {
    LayoutStep(kept, ops, i, added, first, turn, m.offline);
  }

  lemma TurnOfLoop(m: Machine, ops: seq<Op>, turns: seq<Turn>, i: nat, kept: seq<Op>, added: seq<Payload>,
                   first: nat)
    returns (steps: seq<Step>)
    requires i < |ops| <= |turns| && AtTurn(m, Layout(kept, ops[i..], added, first), ops[i..])
    requires |m.log| == first + |added|
    ensures Inv(Run(m, steps)) && AfterOne(m, Run(m, steps), ops, turns[i], i, kept, added, first)
  {
    LayoutHead(kept, ops, i, added, first);
    var behind := ops[i + 1..] + Enqueue(added, first);
    assert ops[i..] == [ops[i]] + ops[i + 1..];
    assert AtTurn(m, kept + [ops[i]] + behind, [ops[i]] + ops[i + 1..]);
    steps := TurnRun(m, ops[i], turns[i], ops[i + 1..], kept, behind);
    TurnIsOne(m, Run(m, steps), ops, turns[i], i, kept, added, first);
  }

  lemma {:induction false} LoopRun(m: Machine, ops: seq<Op>, turns: seq<Turn>, i: nat, kept: seq<Op>,
                                   added: seq<Payload>, first: nat)
    returns (steps: seq<Step>)
    requires i <= |ops| <= |turns| && AtTurn(m, Layout(kept, ops[i..], added, first), ops[i..])
    requires |m.log| == first + |added|
    ensures AfterTheLoop(m, Run(m, steps), ops, turns, i, kept, added, first)
    decreases |ops| - i
  {
    if i == |ops| {
      steps := [Advance(0, Accepted)];
      assert ops[i..] == [];
      EndRun(m, ops, turns, kept, added, first);
    } else {
      var turn := TurnOfLoop(m, ops, turns, i, kept, added, first);
      var fate := FateOf(ops[i], turns[i].net, m.offline);
      if fate.Stop? {
        steps := turn;
        StoppedLayout(ops, turns, m.offline, i, kept, added, first);
      } else {
        var rest := LoopRun(Run(m, turn), ops, turns, i + 1, kept + Left(ops[i], fate),
          added + Arrivals(ops[i], turns[i], m.offline), first);
        RunAppend(m, turn, rest);
        steps := turn + rest;
        NextLayout(ops, turns, m.offline, i, kept, added, first);
      }
    }
  }

  lemma StoppedLayout(ops: seq<Op>, turns: seq<Turn>, offline: bool, i: nat, kept: seq<Op>, added: seq<Payload>,
                      first: nat)
    requires i < |ops| <= |turns| && FateOf(ops[i], turns[i].net, offline).Stop?
    ensures Layout(kept + Left(ops[i], FateOf(ops[i], turns[i].net, offline)), ops[i + 1..],
                   added + Arrivals(ops[i], turns[i], offline), first)
            == kept + Kept(ops, turns, offline, i) + Enqueue(added + Pushed(ops, turns, offline, i), first)
    ensures Pushed(ops, turns, offline, i) == Arrivals(ops[i], turns[i], offline)
  {
    assert ops[i..] == [ops[i]] + ops[i + 1..];
    assert Arrivals(ops[i], turns[i], offline) + [] == Arrivals(ops[i], turns[i], offline);
    assert kept + [ops[i]] + ops[i + 1..] == kept + ops[i..];
  }

  lemma NextLayout(ops: seq<Op>, turns: seq<Turn>, offline: bool, i: nat, kept: seq<Op>, added: seq<Payload>,
                   first: nat)
    requires i < |ops| <= |turns| && !FateOf(ops[i], turns[i].net, offline).Stop?
    ensures var left, arrived := Left(ops[i], FateOf(ops[i], turns[i].net, offline)), Arrivals(ops[i], turns[i], offline);
            && kept + left + Kept(ops, turns, offline, i + 1) == kept + Kept(ops, turns, offline, i)
            && added + arrived + Pushed(ops, turns, offline, i + 1) == added + Pushed(ops, turns, offline, i)
  {
    Associate(kept, Left(ops[i], FateOf(ops[i], turns[i].net, offline)), Kept(ops, turns, offline, i + 1));
    Associate(added, Arrivals(ops[i], turns[i], offline), Pushed(ops, turns, offline, i + 1));
  }

  // From any state of the machine with no pass under way and no addOp to come,
  // some run of it begins a pass and ends with it, leaving disk and store as
  // SyncPendingOps does for the same network and pushes.
  lemma PassIsRun(m: Machine, turns: seq<Turn>) returns (steps: seq<Step>)
    requires Inv(m) && !m.syncing && m.pending == [] && |m.disk| <= |turns|
    ensures var m' := Run(m, steps);
            && Inv(m') && m'.loops == [] && !m'.syncing && m'.pending == [] && m'.offline == m.offline
            && m'.disk == m'.store == AfterPass(m.disk, turns, m.offline, |m.log|)
            && |m'.log| == |m.log| + |Pushed(m.disk, turns, m.offline, 0)|
  {
    var install := Advance(0, Accepted);
    var m1 := Next(m, StartSync);
    var m2 := Next(m1, install);
    var front := [StartSync] + [install];
    assert [StartSync][1..] == [];
    RunLast(m, [StartSync], install);
    RunKeepsInv(m, front);
    assert m.disk[0..] == m.disk && Layout([], m.disk[0..], [], |m.log|) == m.disk;
    var loop := LoopRun(m2, m.disk, turns, 0, [], [], |m.log|);
    RunAppend(m, front, loop);
    steps := front + loop;
    RunKeepsInv(m, steps);
    assert [] + Kept(m.disk, turns, m.offline, 0) == Kept(m.disk, turns, m.offline, 0);
    assert [] + Pushed(m.disk, turns, m.offline, 0) == Pushed(m.disk, turns, m.offline, 0);
  }
}
