// The outbox over whole runs: pushes, replay loops, crashes, clears and mode
// changes interleaved at every await.
module OutboxMachine {
  import opened Wrappers
  import opened Outbox

  // Where a replay loop is suspended: after the disk was read but before the
  // store has it, in apiFetch, or in the disk update that removes the op, counts
  // its failure, or discards it.
  datatype Phase = Reading | Fetching | Removing | Counting | Discarding

  // todo[0] is the op being replayed.
  datatype Loop = Loop(phase: Phase, todo: seq<Op>)

  // The history of one op: how often the API rejected it, how often the server
  // was unreachable for it, whether it was accepted or cleared, and the copy
  // that offline mode queued for it last.
  datatype Trace = Trace(payload: Payload, rejected: nat, unreachable: nat,
                         accepted: bool, cleared: bool, copy: Option<nat>)

  // `pending` are ops on the disk whose store.addOp has not run yet; `loaded`
  // says that the store was filled from the disk since launch; `snapshots` are
  // what loads for the store have read and not yet installed. The trace of an
  // op stands at its id.
  datatype Machine = Machine(
    disk: seq<Op>,
    store: seq<Op>,
    pending: seq<Op>,
    loaded: bool,
    snapshots: seq<seq<Op>>,
    syncing: bool,
    loops: seq<Loop>,
    offline: bool,
    log: seq<Trace>)

  function Launch(offline: bool): Machine {
    Machine([], [], [], false, [], false, [], offline, [])
  }

  datatype Step =
    | UserPush(payload: Payload)
    | MirrorPush
    | ReadDisk
    | SetOps(snapshot: nat)
    | StartSync
    | Advance(loop: nat, net: Net)
    | Clear
    | SetOffline(on: bool)
    | Crash

  function PushOp(m: Machine, payload: Payload): Machine {
    var op := Op(|m.log|, payload, 0);
    m.(disk := m.disk + [op], pending := m.pending + [op],
       log := m.log + [Trace(payload, 0, 0, false, false, None)])
  }

  function SetLoop(m: Machine, i: nat, loop: Loop): Machine {
    if i < |m.loops| then m.(loops := m.loops[i := loop]) else m
  }

  function EndLoop(m: Machine, i: nat): Machine {
    if i < |m.loops| then m.(loops := m.loops[..i] + m.loops[i + 1..], syncing := false) else m
  }

  function SetTrace(m: Machine, id: nat, trace: Trace): Machine {
    if id < |m.log| then m.(log := m.log[id := trace]) else m
  }

  // apiFetch has settled for todo[0].
  function Fetched(m: Machine, i: nat, net: Net): Machine
    requires i < |m.loops| && m.loops[i].todo != []
  {
    var todo := m.loops[i].todo;
    var op := todo[0];
    if op.id >= |m.log| then m
    else
      var trace := m.log[op.id];
      match net
      case Accepted => SetLoop(SetTrace(m, op.id, trace.(accepted := true)), i, Loop(Removing, todo))
      case Rejected => SetLoop(SetTrace(m, op.id, trace.(rejected := trace.rejected + 1)), i, Loop(Counting, todo))
      case NoServer => EndLoop(m, i)
      case Unreachable =>
        if !m.offline then EndLoop(m, i)
        else
          var m' := SetTrace(m, op.id, trace.(unreachable := trace.unreachable + 1, copy := Some(|m.log|)));
          SetLoop(PushOp(m', op.payload), i, Loop(Counting, todo))
  }

  function AdvanceLoop(m: Machine, i: nat, net: Net): Machine
    requires i < |m.loops|
  {
    var todo := m.loops[i].todo;
    if m.loops[i].phase.Reading? then
      SetLoop(m.(store := todo, loaded := true), i, Loop(Fetching, todo))
    else if todo == [] then EndLoop(m, i)
    else
      var next := Loop(Fetching, todo[1..]);
      var id := todo[0].id;
      match m.loops[i].phase
      case Fetching => Fetched(m, i, net)
      case Removing =>
        SetLoop(m.(disk := RemoveById(m.disk, id), store := RemoveById(m.store, id)), i, next)
      case Counting =>
        var (disk, updated) := Increment(m.disk, id);
        if updated.None? then SetLoop(m, i, next)
        else
          SetLoop(m.(disk := disk, store := Update(m.store, updated.value)), i,
                  if updated.value.retryCount >= MAX_RETRIES then Loop(Discarding, todo) else next)
      case Discarding =>
        SetLoop(m.(disk := RemoveById(m.disk, id), store := RemoveById(m.store, id)), i, next)
  }

  function ClearTraces(log: seq<Trace>, ops: seq<Op>): (r: seq<Trace>)
    ensures |r| == |log|
    ensures forall id :: 0 <= id < |log| ==>
              r[id] == if IndexOf(ops, id).Some? then log[id].(cleared := true) else log[id]
  {
    seq(|log|, id requires 0 <= id < |log| =>
      if IndexOf(ops, id).Some? then log[id].(cleared := true) else log[id])
  }

  // A crash loses everything but the disk. clearPendingOps does not touch the store.
  function Next(m: Machine, step: Step): Machine {
    match step
    case UserPush(payload) => PushOp(m, payload)
    case MirrorPush =>
      if m.pending == [] then m
      else m.(store := m.store + [m.pending[0]], pending := m.pending[1..])
    case ReadDisk => m.(snapshots := m.snapshots + [m.disk])
    case SetOps(i) =>
      if i >= |m.snapshots| then m
      else m.(store := m.snapshots[i], loaded := true, snapshots := m.snapshots[..i] + m.snapshots[i + 1..])
    case StartSync =>
      if m.syncing then m
      else m.(syncing := true, loops := m.loops + [Loop(Reading, m.disk)])
    case Advance(i, net) => if i < |m.loops| then AdvanceLoop(m, i, net) else m
    case Clear => m.(disk := [], log := ClearTraces(m.log, m.disk))
    case SetOffline(on) => m.(offline := on)
    case Crash => m.(store := [], pending := [], loaded := false, snapshots := [], syncing := false, loops := [])
  }

  function Run(m: Machine, steps: seq<Step>): Machine
    decreases steps
  {
    if steps == [] then m else Run(Next(m, steps[0]), steps[1..])
  }

  // ---- invariants ----

  function Failures(t: Trace): nat {
    t.rejected + t.unreachable
  }

  // The two flags of the re-entrancy guard agree: one loop or none.
  predicate OneLoop(m: Machine) {
    |m.loops| == if m.syncing then 1 else 0
  }

  predicate Known(m: Machine, op: Op) {
    op.id < |m.log| && m.log[op.id].payload == op.payload
  }

  // Ids on the disk are distinct and no op is charged a failure it did not have.
  predicate DiskInv(m: Machine) {
    && Distinct(m.disk)
    && forall o :: o in m.disk ==> Known(m, o) && o.retryCount <= Failures(m.log[o.id])
  }

  // What holds of the op a suspended loop is working on.
  predicate LoopInv(m: Machine, loop: Loop) {
    && Distinct(loop.todo)
    && (forall o :: o in loop.todo ==> Known(m, o))
    && (loop.todo != [] ==>
          && Known(m, loop.todo[0]) &&
          var trace := m.log[loop.todo[0].id];
          match loop.phase
          case Reading => true
          case Fetching => true
          case Removing => trace.accepted
          case Counting => forall o :: o in m.disk && o.id == loop.todo[0].id ==> o.retryCount < Failures(trace)
          case Discarding => Failures(trace) >= MAX_RETRIES)
  }

  // An op the server was unreachable for has a later copy with its payload.
  predicate CopiesKept(m: Machine) {
    forall id :: 0 <= id < |m.log| && m.log[id].unreachable > 0 ==>
      var copy := m.log[id].copy;
      copy.Some? && id < copy.value < |m.log| && m.log[copy.value].payload == m.log[id].payload
  }

  ghost predicate OnDisk(m: Machine, id: nat) {
    exists o :: o in m.disk && o.id == id
  }

  ghost predicate Accounted(m: Machine, id: nat)
    requires id < |m.log|
  {
    OnDisk(m, id) || m.log[id].accepted || m.log[id].cleared || Failures(m.log[id]) >= MAX_RETRIES
  }

  ghost predicate AllAccounted(m: Machine) {
    forall id: nat :: id < |m.log| ==> Accounted(m, id)
  }

  ghost predicate Inv(m: Machine) {
    && OneLoop(m) && DiskInv(m) && CopiesKept(m) && AllAccounted(m)
    && forall i :: 0 <= i < |m.loops| ==> LoopInv(m, m.loops[i])
  }

  // ---- the queue operations on members ----

  lemma {:induction false} RemoveMembers(ops: seq<Op>, id: nat, o: Op)
    ensures o in RemoveById(ops, id) <==> o in ops && o.id != id
  {
    if ops != [] {
      RemoveMembers(ops[1..], id, o);
      assert ops == [ops[0]] + ops[1..];
    }
  }

  lemma {:induction false} RemoveKeepsDistinct(ops: seq<Op>, id: nat)
    requires Distinct(ops)
    ensures Distinct(RemoveById(ops, id))
  {
    if ops != [] {
      var rest := RemoveById(ops[1..], id);
      RemoveKeepsDistinct(ops[1..], id);
      forall i | 0 <= i < |rest| ensures rest[i].id != ops[0].id {
        RemoveMembers(ops[1..], id, rest[i]);
        var j :| 1 <= j < |ops| && ops[j] == rest[i];
      }
    }
  }

  lemma IncrementMembers(ops: seq<Op>, id: nat)
    requires Distinct(ops) && IndexOf(ops, id).Some?
    ensures var (ops', updated) := Increment(ops, id);
            && updated.Some? && Distinct(ops')
            && (exists o :: o in ops && o.id == id && updated.value == Bump(o))
            && (forall o :: o in ops' <==> (o in ops && o.id != id) || o == updated.value)
  {
    var i := IndexOf(ops, id).value;
    var (ops', updated) := Increment(ops, id);
    assert ops[i] in ops;
    forall o ensures o in ops' <==> (o in ops && o.id != id) || o == updated.value {
      if o in ops' {
        var j :| 0 <= j < |ops'| && ops'[j] == o;
        if j != i {
          assert ops[j] == o;
          if i < j {} else {}
        }
      }
      if o in ops && o.id != id {
        var j :| 0 <= j < |ops| && ops[j] == o;
        assert ops'[j] == o;
      }
      assert ops'[i] == updated.value;
    }
  }

  // ---- every step keeps the invariant ----

  lemma PushKeepsInv(m: Machine, payload: Payload)
    requires Inv(m)
    ensures Inv(PushOp(m, payload))
  {
    var m' := PushOp(m, payload);
    forall o | o in m.disk ensures OnDisk(m', o.id) {
      assert o in m'.disk;
    }
    assert m'.disk[|m.disk|] in m'.disk;
    AccountedOnward(m, m');
  }

  // The trace of one op gains an event; everything else is as before.
  lemma TraceKeepsInv(m: Machine, id: nat, trace: Trace)
    requires Inv(m) && id < |m.log|
    requires trace.payload == m.log[id].payload
    requires trace.rejected >= m.log[id].rejected && trace.unreachable == m.log[id].unreachable
    requires trace.copy == m.log[id].copy && trace.cleared == m.log[id].cleared
    requires m.log[id].accepted ==> trace.accepted
    ensures Inv(SetTrace(m, id, trace))
  {
    var m' := SetTrace(m, id, trace);
    forall j: nat | j < |m'.log| ensures Accounted(m', j) {
      assert Accounted(m, j);
      if OnDisk(m, j) {
        var o :| o in m.disk && o.id == j;
        assert o in m'.disk;
      }
    }
  }

  lemma LoopKeepsInv(m: Machine, i: nat, loop: Loop)
    requires Inv(m) && i < |m.loops| && LoopInv(m, loop)
    ensures Inv(SetLoop(m, i, loop))
  {
    AccountedSame(m, SetLoop(m, i, loop));
  }

  lemma AccountedSame(m: Machine, m': Machine)
    requires AllAccounted(m) && m'.disk == m.disk && m'.log == m.log
    ensures AllAccounted(m')
  {
    forall id: nat | id < |m'.log| ensures Accounted(m', id) {
      assert Accounted(m, id);
      if OnDisk(m, id) {
        var o :| o in m.disk && o.id == id;
        assert o in m'.disk;
      }
    }
  }

  lemma EndKeepsInv(m: Machine, i: nat)
    requires Inv(m) && i < |m.loops|
    ensures Inv(EndLoop(m, i))
  {
    AccountedSame(m, EndLoop(m, i));
  }

  lemma RemoveKeepsDisk(m: Machine, id: nat, m': Machine)
    requires DiskInv(m) && m'.disk == RemoveById(m.disk, id) && m'.log == m.log
    ensures DiskInv(m')
    ensures forall o :: o in m'.disk <==> o in m.disk && o.id != id
  {
    RemoveKeepsDistinct(m.disk, id);
    forall o ensures o in m'.disk <==> o in m.disk && o.id != id {
      RemoveMembers(m.disk, id, o);
    }
    forall o | o in m'.disk ensures Known(m', o) && o.retryCount <= Failures(m'.log[o.id]) {
      assert Known(m, o);
    }
  }

  lemma FewerKeepLoop(m: Machine, m': Machine, loop: Loop)
    requires LoopInv(m, loop) && m'.log == m.log && forall o :: o in m'.disk ==> o in m.disk
    ensures LoopInv(m', loop)
  {
    assert forall o :: o in loop.todo ==> Known(m, o);
  }

  // Removing from the disk an op that was accepted or has no budget left.
  lemma RemoveKeepsInv(m: Machine, id: nat)
    requires Inv(m) && id < |m.log|
    requires m.log[id].accepted || Failures(m.log[id]) >= MAX_RETRIES
    ensures Inv(m.(disk := RemoveById(m.disk, id), store := RemoveById(m.store, id)))
  {
    var m' := m.(disk := RemoveById(m.disk, id), store := RemoveById(m.store, id));
    RemoveKeepsDisk(m, id, m');
    AccountedWithout(m, m', id);
    forall i | 0 <= i < |m'.loops| ensures LoopInv(m', m'.loops[i]) {
      FewerKeepLoop(m, m', m.loops[i]);
    }
  }

  lemma AccountedWithout(m: Machine, m': Machine, id: nat)
    requires AllAccounted(m) && m'.log == m.log && id < |m.log|
    requires m.log[id].accepted || Failures(m.log[id]) >= MAX_RETRIES
    requires forall o :: o in m.disk && o.id != id ==> o in m'.disk
    ensures AllAccounted(m')
  {
    forall j: nat | j < |m'.log| ensures Accounted(m', j) {
      assert Accounted(m, j);
      if OnDisk(m, j) && j != id {
        var o :| o in m.disk && o.id == j;
        assert o in m'.disk;
      }
    }
  }

  // One op on the disk has one more of its failures counted.
  lemma IncrementKeepsDisk(m: Machine, id: nat, m': Machine)
    requires DiskInv(m) && AllAccounted(m) && IndexOf(m.disk, id).Some?
    requires forall o :: o in m.disk && o.id == id ==> id < |m.log| && o.retryCount < Failures(m.log[id])
    requires m'.disk == Increment(m.disk, id).0 && m'.log == m.log
    ensures DiskInv(m') && AllAccounted(m')
  {
    IncrementMembers(m.disk, id);
    var updated := Increment(m.disk, id).1;
    var before :| before in m.disk && before.id == id && updated.value == Bump(before);
    forall o | o in m'.disk ensures Known(m', o) && o.retryCount <= Failures(m'.log[o.id]) {
      assert Known(m, before) && (o in m.disk || o == Bump(before));
    }
    forall o | o in m.disk ensures OnDisk(m', o.id) {
      assert (if o.id == id then updated.value else o) in m'.disk;
    }
    AccountedOnward(m, m');
  }

  // The op that was counted goes on to be discarded, or the loop to the next.
  lemma CountedLoop(m: Machine, loop: Loop, m': Machine)
    requires Inv(m) && LoopInv(m, loop) && loop.phase.Counting? && loop.todo != [] && m'.log == m.log
    requires DiskInv(m') && IndexOf(m.disk, loop.todo[0].id).Some?
    requires m'.disk == Increment(m.disk, loop.todo[0].id).0
    ensures LoopInv(m', Loop(Fetching, loop.todo[1..]))
    ensures var updated := Increment(m.disk, loop.todo[0].id).1;
            updated.Some? && (updated.value.retryCount >= MAX_RETRIES ==> LoopInv(m', Loop(Discarding, loop.todo)))
  {
    IncrementMembers(m.disk, loop.todo[0].id);
    assert forall o :: o in loop.todo ==> Known(m, o);
    assert forall o :: o in loop.todo[1..] ==> o in loop.todo;
  }

  lemma CountKeepsInv(m: Machine, i: nat)
    requires Inv(m) && i < |m.loops| && m.loops[i].phase.Counting? && m.loops[i].todo != []
    ensures Inv(AdvanceLoop(m, i, Accepted))
  {
    var loop := m.loops[i];
    var id := loop.todo[0].id;
    assert LoopInv(m, loop) && |m.loops| == 1 && i == 0;
    if IndexOf(m.disk, id).None? {
      assert forall o :: o in loop.todo[1..] ==> o in loop.todo;
      LoopKeepsInv(m, i, Loop(Fetching, loop.todo[1..]));
    } else {
      var m' := AdvanceLoop(m, i, Accepted);
      IncrementKeepsDisk(m, id, m');
      CountedLoop(m, loop, m');
    }
  }

  // Nothing left the disk, no history was forgotten, and new ops are on the disk.
  lemma AccountedOnward(m: Machine, m': Machine)
    requires AllAccounted(m) && |m.log| <= |m'.log|
    requires forall j :: 0 <= j < |m.log| ==>
               && (m.log[j].accepted ==> m'.log[j].accepted) && (m.log[j].cleared ==> m'.log[j].cleared)
               && Failures(m.log[j]) <= Failures(m'.log[j])
    requires forall o :: o in m.disk ==> OnDisk(m', o.id)
    requires forall j: nat :: |m.log| <= j < |m'.log| ==> OnDisk(m', j)
    ensures AllAccounted(m')
  {
    forall j: nat | j < |m'.log| ensures Accounted(m', j) {
      assert j < |m.log| ==> Accounted(m, j);
    }
  }

  // Offline mode queues the copy in the same step that logs the failure.
  ghost predicate MeetsOutage(m: Machine, i: nat) {
    Inv(m) && i < |m.loops| && m.loops[i].phase.Fetching? && m.loops[i].todo != [] && m.offline
  }

  lemma OutageKeepsDisk(m: Machine, i: nat)
    requires MeetsOutage(m, i)
    ensures DiskInv(Fetched(m, i, Unreachable))
  {
    assert LoopInv(m, m.loops[i]);
    var m' := Fetched(m, i, Unreachable);
    assert m'.disk == m.disk + [Op(|m.log|, m.loops[i].todo[0].payload, 0)];
    forall o | o in m'.disk ensures Known(m', o) && o.retryCount <= Failures(m'.log[o.id]) {
      if o in m.disk {
        assert Known(m, o) && o.retryCount <= Failures(m.log[o.id]);
      }
    }
  }

  lemma OutageKeepsLog(m: Machine, i: nat)
    requires MeetsOutage(m, i)
    ensures CopiesKept(Fetched(m, i, Unreachable)) && AllAccounted(Fetched(m, i, Unreachable))
  {
    assert LoopInv(m, m.loops[i]);
    var m' := Fetched(m, i, Unreachable);
    assert m'.log[|m.log|].payload == m.loops[i].todo[0].payload;
    forall o | o in m.disk ensures OnDisk(m', o.id) {
      assert o in m'.disk;
    }
    assert m'.disk[|m.disk|] in m'.disk;
    AccountedOnward(m, m');
  }

  lemma OutageKeepsLoop(m: Machine, i: nat)
    requires MeetsOutage(m, i)
    ensures OneLoop(Fetched(m, i, Unreachable)) && i == 0
    ensures LoopInv(Fetched(m, i, Unreachable), Fetched(m, i, Unreachable).loops[0])
  {
    assert LoopInv(m, m.loops[i]);
    assert |m.loops| == 1 && i == 0;
    var m' := Fetched(m, i, Unreachable);
    assert forall o :: o in m.loops[i].todo ==> Known(m, o) && Known(m', o);
  }

  lemma UnreachableKeepsInv(m: Machine, i: nat)
    requires MeetsOutage(m, i)
    ensures Inv(Fetched(m, i, Unreachable))
  {
    OutageKeepsDisk(m, i);
    OutageKeepsLog(m, i);
    OutageKeepsLoop(m, i);
  }

  lemma FetchedKeepsInv(m: Machine, i: nat, net: Net)
    requires Inv(m) && i < |m.loops| && m.loops[i].phase.Fetching? && m.loops[i].todo != []
    ensures Inv(Fetched(m, i, net))
  {
    var todo := m.loops[i].todo;
    var id := todo[0].id;
    assert LoopInv(m, m.loops[i]);
    var trace := m.log[id];
    match net
    case Accepted =>
      TraceKeepsInv(m, id, trace.(accepted := true));
      LoopKeepsInv(SetTrace(m, id, trace.(accepted := true)), i, Loop(Removing, todo));
    case Rejected =>
      var trace' := trace.(rejected := trace.rejected + 1);
      TraceKeepsInv(m, id, trace');
      LoopKeepsInv(SetTrace(m, id, trace'), i, Loop(Counting, todo));
    case NoServer => EndKeepsInv(m, i);
    case Unreachable =>
      if m.offline { UnreachableKeepsInv(m, i); } else { EndKeepsInv(m, i); }
  }

  lemma AdvanceKeepsInv(m: Machine, i: nat, net: Net)
    requires Inv(m) && i < |m.loops|
    ensures Inv(AdvanceLoop(m, i, net))
  {
    var loop := m.loops[i];
    assert LoopInv(m, loop);
    if loop.phase.Reading? {
      AccountedSame(m, m.(store := loop.todo, loaded := true));
      LoopKeepsInv(m.(store := loop.todo, loaded := true), i, Loop(Fetching, loop.todo));
    } else if loop.todo == [] {
      EndKeepsInv(m, i);
    } else {
      var id := loop.todo[0].id;
      var next := Loop(Fetching, loop.todo[1..]);
      match loop.phase
      case Fetching => FetchedKeepsInv(m, i, net);
      case Counting => CountKeepsInv(m, i);
      case _ =>
        RemoveKeepsInv(m, id);
        LoopKeepsInv(m.(disk := RemoveById(m.disk, id), store := RemoveById(m.store, id)), i, next);
    }
  }

  lemma ClearKeepsInv(m: Machine)
    requires Inv(m)
    ensures Inv(Next(m, Clear))
  {
    var m' := Next(m, Clear);
    forall id: nat | id < |m'.log| ensures Accounted(m', id) {
      assert Accounted(m, id);
      if OnDisk(m, id) {
        var o :| o in m.disk && o.id == id;
        assert IndexOf(m.disk, id).Some?;
      }
    }
    forall i | 0 <= i < |m'.loops| ensures LoopInv(m', m'.loops[i]) {
      assert LoopInv(m, m.loops[i]);
    }
  }

  lemma NextKeepsInv(m: Machine, step: Step)
    requires Inv(m)
    ensures Inv(Next(m, step))
  {
    match step
    case UserPush(payload) => PushKeepsInv(m, payload);
    case Advance(i, net) => if i < |m.loops| { AdvanceKeepsInv(m, i, net); }
    case Clear => ClearKeepsInv(m);
    case StartSync =>
      AccountedSame(m, Next(m, step));
      assert LoopInv(m, Loop(Reading, m.disk));
    case _ => AccountedSame(m, Next(m, step));
  }

  lemma {:induction false} RunKeepsInv(m: Machine, steps: seq<Step>)
    requires Inv(m)
    ensures Inv(Run(m, steps))
    decreases steps
  {
    if steps != [] {
      NextKeepsInv(m, steps[0]);
      RunKeepsInv(Next(m, steps[0]), steps[1..]);
    }
  }

  // ---- nothing is lost silently ----

  // In any run, an op is on the disk, or was accepted, or was cleared, or has
  // failed three times; and at most one replay loop runs.
  lemma LeavesOnlyWithCause(offline: bool, steps: seq<Step>)
    ensures var m := Run(Launch(offline), steps);
            && |m.loops| <= 1
            && forall id: nat :: id < |m.log| ==>
                 OnDisk(m, id) || m.log[id].accepted || m.log[id].cleared || Failures(m.log[id]) >= MAX_RETRIES
  {
    RunKeepsInv(Launch(offline), steps);
    var m := Run(Launch(offline), steps);
    forall id: nat | id < |m.log|
      ensures OnDisk(m, id) || m.log[id].accepted || m.log[id].cleared || Failures(m.log[id]) >= MAX_RETRIES
    {
      assert Accounted(m, id);
    }
  }

  // The payload of `id` is still queued, or the server has accepted it, or it
  // was cleared, or the API itself rejected it three times, under the id of
  // some copy.
  ghost predicate Survives(m: Machine, copy: nat) {
    copy < |m.log| &&
    (OnDisk(m, copy) || m.log[copy].accepted || m.log[copy].cleared || m.log[copy].rejected >= MAX_RETRIES)
  }

  lemma {:induction false} CopySurvives(m: Machine, id: nat) returns (copy: nat)
    requires Inv(m) && id < |m.log|
    ensures Survives(m, copy) && m.log[copy].payload == m.log[id].payload
    decreases |m.log| - id
  {
    assert Accounted(m, id);
    if m.log[id].unreachable == 0 || Survives(m, id) {
      copy := id;
    } else {
      copy := CopySurvives(m, m.log[id].copy.value);
    }
  }

  // Network trouble alone never loses a mutation, crashes included.
  lemma NoPayloadLost(offline: bool, steps: seq<Step>, id: nat)
    requires id < |Run(Launch(offline), steps).log|
    ensures var m := Run(Launch(offline), steps);
            exists copy: nat :: Survives(m, copy) && m.log[copy].payload == m.log[id].payload
  {
    RunKeepsInv(Launch(offline), steps);
    var copy := CopySurvives(Run(Launch(offline), steps), id);
  }

  // ---- three API failures ----

  predicate NeverOffline(steps: seq<Step>) {
    forall i :: 0 <= i < |steps| ==> steps[i] != SetOffline(true)
  }

  predicate NoOutageLogged(m: Machine) {
    !m.offline && forall id :: 0 <= id < |m.log| ==> m.log[id].unreachable == 0
  }

  lemma {:induction false} RunLogsNoOutage(m: Machine, steps: seq<Step>)
    requires NoOutageLogged(m) && NeverOffline(steps)
    ensures NoOutageLogged(Run(m, steps))
    decreases steps
  {
    if steps != [] {
      assert steps[0] != SetOffline(true);
      StepLogsNoOutage(m, steps[0]);
      RunLogsNoOutage(Next(m, steps[0]), steps[1..]);
    }
  }

  lemma StepLogsNoOutage(m: Machine, step: Step)
    requires NoOutageLogged(m) && step != SetOffline(true)
    ensures NoOutageLogged(Next(m, step))
  {
  }

  // Every op is queued, or was accepted, cleared, or rejected three times by the API.
  ghost predicate OnlyRejectedLeave(m: Machine) {
    forall id: nat :: id < |m.log| ==>
      OnDisk(m, id) || m.log[id].accepted || m.log[id].cleared || m.log[id].rejected >= MAX_RETRIES
  }

  lemma LeavesAfterThreeRejections(steps: seq<Step>)
    requires NeverOffline(steps)
    ensures OnlyRejectedLeave(Run(Launch(false), steps))
  {
    RunLogsNoOutage(Launch(false), steps);
    LeavesOnlyWithCause(false, steps);
  }

  // ---- with offline mode on ----

  lemma {:induction false} RunAppend(m: Machine, a: seq<Step>, b: seq<Step>)
    ensures Run(m, a + b) == Run(Run(m, a), b)
    decreases a
  {
    if a == [] {
      assert a + b == b;
    } else {
      assert (a + b)[1..] == a[1..] + b;
      RunAppend(Next(m, a[0]), a[1..], b);
    }
  }

  lemma RunFrom(m: Machine, steps: seq<Step>, i: nat)
    requires i < |steps|
    ensures Run(m, steps[i..]) == Run(Next(m, steps[i]), steps[i + 1..])
  {
    assert steps[i..][1..] == steps[i + 1..];
  }

  // Nothing runs, offline mode is on, and op 0, of which the API never heard,
  // heads the queue after k failures.
  predicate Waiting(m: Machine, k: nat) {
    && m.offline && !m.syncing && m.loops == []
    && m.disk != [] && m.disk[0].id == 0 && m.disk[0].retryCount == k
    && Unheard(m)
  }

  predicate Unheard(m: Machine) {
    m.log != [] && m.log[0].rejected == 0 && !m.log[0].accepted && !m.log[0].cleared
  }

  // A replay of op 0 during an outage, up to its counted failure.
  const OUTAGE: seq<Step> := 
    [StartSync, Advance(0, Unreachable), Advance(0, Unreachable), Advance(0, Unreachable)]

  lemma OutageCounts(m: Machine, k: nat)
    requires Waiting(m, k)
    ensures var m' := Run(m, OUTAGE);
            && m'.offline && m'.disk != [] && m'.disk[0].id == 0 && m'.disk[0].retryCount == k + 1 && Unheard(m')
            && (k + 1 >= MAX_RETRIES ==> m'.loops == [Loop(Discarding, m.disk)])
  {
    var m1 := Next(m, OUTAGE[0]);
    var m2 := Next(m1, OUTAGE[1]);
    var m3 := Next(m2, OUTAGE[2]);
    assert OUTAGE[1..] == [OUTAGE[1], OUTAGE[2], OUTAGE[3]] && OUTAGE[1..][1..] == [OUTAGE[2], OUTAGE[3]];
    assert OUTAGE[1..][1..][1..] == [OUTAGE[3]] && OUTAGE[1..][1..][1..][1..] == [];
    assert m1.loops == [Loop(Reading, m.disk)] && m2.loops == [Loop(Fetching, m.disk)];
    assert m3.loops == [Loop(Counting, m.disk)] && m3.disk[0] == m.disk[0];
    assert IndexOf(m3.disk, 0) == Some(0);
  }

  lemma OutageThenCrash(m: Machine, k: nat)
    requires Waiting(m, k)
    ensures Waiting(Run(m, OUTAGE + [Crash]), k + 1)
  {
    OutageCounts(m, k);
    RunAppend(m, OUTAGE, [Crash]);
    assert [Crash][1..] == [];
  }

  const THREE_OUTAGES: seq<Step> :=
    (OUTAGE + [Crash]) + ((OUTAGE + [Crash]) + (OUTAGE + [Advance(0, Unreachable)]))

  // An op is pushed, three replays meet an outage, the first two cut short by a
  // crash; the op is gone although the API never saw it.
  lemma ThreeOutagesDiscard(payload: Payload)
    ensures var m := Run(Launch(true), [UserPush(payload)] + THREE_OUTAGES);
            m.log != [] && Unheard(m) && !OnDisk(m, 0)
  {
    var m0 := Run(Launch(true), [UserPush(payload)]);
    assert [UserPush(payload)][1..] == [];
    RunAppend(Launch(true), [UserPush(payload)], THREE_OUTAGES);
    OutageThenCrash(m0, 0);
    var m1 := Run(m0, OUTAGE + [Crash]);
    RunAppend(m0, OUTAGE + [Crash], (OUTAGE + [Crash]) + (OUTAGE + [Advance(0, Unreachable)]));
    OutageThenCrash(m1, 1);
    var m2 := Run(m1, OUTAGE + [Crash]);
    RunAppend(m1, OUTAGE + [Crash], OUTAGE + [Advance(0, Unreachable)]);
    LastOutageDiscards(m2);
  }

  lemma LastOutageDiscards(m: Machine)
    requires Waiting(m, MAX_RETRIES - 1)
    ensures var m' := Run(m, OUTAGE + [Advance(0, Unreachable)]);
            Unheard(m') && !OnDisk(m', 0)
  {
    OutageCounts(m, MAX_RETRIES - 1);
    RunAppend(m, OUTAGE, [Advance(0, Unreachable)]);
    assert [Advance(0, Unreachable)][1..] == [];
    var before := Run(m, OUTAGE);
    forall o ensures o in RemoveById(before.disk, 0) <==> o in before.disk && o.id != 0 {
      RemoveMembers(before.disk, 0, o);
    }
  }

  // Runs that do not turn offline mode on keep the promise of three API
  // failures exactly when it was off at launch.
  lemma ThreeRejectionsIff(offline: bool)
    ensures (forall steps: seq<Step> :: NeverOffline(steps) ==> OnlyRejectedLeave(Run(Launch(offline), steps)))
            <==> !offline
  {
    if offline {
      var payload: Payload :| true;
      var steps := [UserPush(payload)] + THREE_OUTAGES;
      ThreeOutagesDiscard(payload);
      assert NeverOffline(steps) && !OnlyRejectedLeave(Run(Launch(true), steps));
    } else {
      forall steps: seq<Step> | NeverOffline(steps) ensures OnlyRejectedLeave(Run(Launch(false), steps)) {
        LeavesAfterThreeRejections(steps);
      }
    }
  }
}
