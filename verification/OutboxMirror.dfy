// The UI store as a mirror of the durable queue, over runs of the outbox.
module OutboxMirror {
  import opened Outbox
  import opened OutboxMachine

  // The step puts into the store what was read from the disk some time before.
  predicate Installs(m: Machine, step: Step) {
    || (step.SetOps? && step.snapshot < |m.snapshots|)
    || (step.Advance? && step.loop < |m.loops| && m.loops[step.loop].phase.Reading?)
  }

  // The addOp of some pushed op runs.
  predicate AddsOp(m: Machine, step: Step) {
    step.MirrorPush? && m.pending != []
  }

  // A replay loop takes an op off the disk or counts its failure there.
  predicate UpdatesQueue(m: Machine, step: Step) {
    && step.Advance? && step.loop < |m.loops| && m.loops[step.loop].todo != []
    && !m.loops[step.loop].phase.Reading? && !m.loops[step.loop].phase.Fetching?
    && Next(m, step).disk != m.disk
  }

  // ---- what ran since each read, by counting steps ----

  // The ops whose addOp was outstanding at a read, and the counts at that time.
  datatype Mark = Mark(due: seq<Op>, addOps: nat, updates: nat)

  // `marks` go with the machine's snapshots, `pass` with its replay loop.
  datatype Watch = Watch(addOps: nat, updates: nat, marks: seq<Mark>, pass: Mark)

  const UNWATCHED := Watch(0, 0, [], Mark([], 0, 0))

  function Observe(m: Machine, w: Watch, step: Step): Watch {
    var now := Mark(m.pending, w.addOps, w.updates);
    match step
    case ReadDisk => w.(marks := w.marks + [now])
    case SetOps(i) => if i < |w.marks| then w.(marks := w.marks[..i] + w.marks[i + 1..]) else w
    case StartSync => if m.syncing then w else w.(pass := now)
    case MirrorPush => if AddsOp(m, step) then w.(addOps := w.addOps + 1) else w
    case Advance(_, _) => if UpdatesQueue(m, step) then w.(updates := w.updates + 1) else w
    case Crash => w.(marks := [])
    case _ => w
  }

  // Since the read no replay loop updated the queue, and exactly as many addOps
  // ran as were outstanding then.
  predicate Timely(w: Watch, mark: Mark) {
    w.updates == mark.updates && w.addOps == mark.addOps + |mark.due|
  }

  // No clear, and only timely installs.
  predicate Orderly(m: Machine, w: Watch, step: Step) {
    && !step.Clear?
    && (step.SetOps? && step.snapshot < |w.marks| ==> Timely(w, w.marks[step.snapshot]))
    && (step.Advance? && Installs(m, step) ==> Timely(w, w.pass))
  }

  predicate OrderlyRun(m: Machine, w: Watch, steps: seq<Step>)
    decreases steps
  {
    steps == [] || (Orderly(m, w, steps[0]) && OrderlyRun(Next(m, steps[0]), Observe(m, w, steps[0]), steps[1..]))
  }

  // ---- the queue since a read ----

  // What was read is the disk of now, but for the ops whose addOp is to come.
  predicate Fresh(m: Machine, snapshot: seq<Op>) {
    m.disk == snapshot + m.pending
  }

  // Since a read with `due` outstanding, `added` were pushed and k addOps ran.
  predicate Since(m: Machine, snapshot: seq<Op>, due: seq<Op>, added: seq<Op>, k: nat) {
    m.disk == snapshot + added && k <= |due| + |added| && m.pending == (due + added)[k..]
  }

  lemma SinceAtRead(m: Machine)
    ensures Since(m, m.disk, m.pending, [], 0)
  {
    assert m.disk + [] == m.disk && (m.pending + [])[0..] == m.pending;
  }

  // It is fresh exactly when as many addOps ran as were outstanding.
  lemma SinceFreshIff(m: Machine, snapshot: seq<Op>, due: seq<Op>, added: seq<Op>, k: nat)
    requires Since(m, snapshot, due, added, k)
    ensures Fresh(m, snapshot) <==> k == |due|
  {
    if k == |due| {
      assert (due + added)[k..] == added;
    }
    if Fresh(m, snapshot) {
      assert |m.disk| == |snapshot| + |added| == |snapshot| + |m.pending|;
    }
  }

  lemma PushSince(m: Machine, payload: Payload, snapshot: seq<Op>, due: seq<Op>, added: seq<Op>, k: nat)
    requires Since(m, snapshot, due, added, k)
    ensures Since(PushOp(m, payload), snapshot, due, added + [Op(|m.log|, payload, 0)], k)
  {
    var op := Op(|m.log|, payload, 0);
    assert snapshot + (added + [op]) == snapshot + added + [op];
    assert due + (added + [op]) == due + added + [op];
  }

  // A step of the machine other than an update of the queue, a clear or a crash.
  lemma StepSince(m: Machine, step: Step, snapshot: seq<Op>, due: seq<Op>, added: seq<Op>, k: nat)
    returns (added': seq<Op>)
    requires Since(m, snapshot, due, added, k)
    requires !UpdatesQueue(m, step) && !step.Clear? && !step.Crash?
    ensures Since(Next(m, step), snapshot, due, added', if AddsOp(m, step) then k + 1 else k)
  {
    added' := added;
    var m' := Next(m, step);
    if AddsOp(m, step) {
      assert (due + added)[k..][1..] == (due + added)[k + 1..];
    } else if step.UserPush? {
      PushSince(m, step.payload, snapshot, due, added, k);
      added' := added + [Op(|m.log|, step.payload, 0)];
    } else if step.Advance? && step.loop < |m.loops| && m.loops[step.loop].phase.Fetching?
              && m.loops[step.loop].todo != [] && m'.disk != m.disk {
      added' := added + m'.disk[|m.disk|..];
      var payload := m.loops[step.loop].todo[0].payload;
      PushSince(m, payload, snapshot, due, added, k);
      assert m'.disk == m.disk + [Op(|m.log|, payload, 0)];
      assert m'.disk[|m.disk|..] == [Op(|m.log|, payload, 0)];
    }
  }

  predicate Mirrored(m: Machine) {
    m.loaded ==> m.disk == m.store + m.pending
  }

  // A replay loop works on ops that the store already has.
  predicate LoopsMirrored(m: Machine) {
    forall i :: 0 <= i < |m.loops| && !m.loops[i].phase.Reading? ==>
      m.loaded && forall o, p :: o in m.loops[i].todo && p in m.pending ==> o.id != p.id
  }

  // The count of a read tells how the queue has changed since, unless a replay
  // loop has updated it.
  ghost predicate Tracks(m: Machine, w: Watch, snapshot: seq<Op>, mark: Mark) {
    && mark.addOps <= w.addOps && mark.updates <= w.updates
    && (mark.updates == w.updates ==> OnlyPushed(m, snapshot, mark.due, w.addOps - mark.addOps))
  }

  ghost predicate OnlyPushed(m: Machine, snapshot: seq<Op>, due: seq<Op>, k: nat) {
    exists added :: Since(m, snapshot, due, added, k)
  }

  ghost predicate Watched(m: Machine, w: Watch) {
    && |w.marks| == |m.snapshots|
    && (forall i :: 0 <= i < |m.snapshots| ==> Tracks(m, w, m.snapshots[i], w.marks[i]))
    && (forall i :: 0 <= i < |m.loops| && m.loops[i].phase.Reading? ==> Tracks(m, w, m.loops[i].todo, w.pass))
  }

  ghost predicate MirrorInv(m: Machine) {
    Inv(m) && Mirrored(m) && LoopsMirrored(m)
  }

  lemma TracksStep(m: Machine, w: Watch, step: Step, snapshot: seq<Op>, mark: Mark)
    requires Tracks(m, w, snapshot, mark) && !step.Clear? && !step.Crash?
    ensures Tracks(Next(m, step), Observe(m, w, step), snapshot, mark)
  {
    if mark.updates == w.updates && !UpdatesQueue(m, step) {
      var added :| Since(m, snapshot, mark.due, added, w.addOps - mark.addOps);
      var added' := StepSince(m, step, snapshot, mark.due, added, w.addOps - mark.addOps);
      var w' := Observe(m, w, step);
      assert Since(Next(m, step), snapshot, mark.due, added', w'.addOps - mark.addOps);
    }
  }

  lemma TracksAtRead(m: Machine, w: Watch, m': Machine)
    requires m'.disk == m.disk && m'.pending == m.pending
    ensures Tracks(m', w, m.disk, Mark(m.pending, w.addOps, w.updates))
  {
    SinceAtRead(m');
  }

  lemma TimelyIsFresh(m: Machine, w: Watch, snapshot: seq<Op>, mark: Mark)
    requires Tracks(m, w, snapshot, mark) && Timely(w, mark)
    ensures Fresh(m, snapshot)
  {
    var added :| Since(m, snapshot, mark.due, added, w.addOps - mark.addOps);
    SinceFreshIff(m, snapshot, mark.due, added, w.addOps - mark.addOps);
  }

  // The read and its mark are old ones, or were made in this step.
  predicate Kept(m: Machine, w: Watch, m': Machine, snapshot: seq<Op>, mark: Mark, known: bool) {
    known || (snapshot == m.disk && mark == Mark(m.pending, w.addOps, w.updates)
             && m'.disk == m.disk && m'.pending == m.pending)
  }

  ghost predicate Marked(m: Machine, w: Watch, snapshot: seq<Op>, mark: Mark) {
    exists j :: 0 <= j < |m.snapshots| <= |w.marks| && m.snapshots[j] == snapshot && w.marks[j] == mark
  }

  lemma SnapshotsStay(m: Machine, step: Step)
    requires !step.Crash? && !step.ReadDisk? && (step.SetOps? ==> step.snapshot >= |m.snapshots|)
    ensures Next(m, step).snapshots == m.snapshots
  {
  }

  lemma SetOpsAlign(m: Machine, w: Watch, k: nat)
    requires |w.marks| == |m.snapshots| && k < |m.snapshots|
    ensures var m', w' := Next(m, SetOps(k)), Observe(m, w, SetOps(k));
            && |w'.marks| == |m'.snapshots|
            && forall i :: 0 <= i < |m'.snapshots| ==> Marked(m, w, m'.snapshots[i], w'.marks[i])
  {
    var m', w' := Next(m, SetOps(k)), Observe(m, w, SetOps(k));
    forall i | 0 <= i < |m'.snapshots| ensures Marked(m, w, m'.snapshots[i], w'.marks[i]) {
      var j := if i < k then i else i + 1;
      assert m.snapshots[j] == m'.snapshots[i] && w.marks[j] == w'.marks[i];
    }
  }

  lemma ReadsAlign(m: Machine, w: Watch, step: Step)
    requires |w.marks| == |m.snapshots| && !step.Crash?
    ensures var m', w' := Next(m, step), Observe(m, w, step);
            && |w'.marks| == |m'.snapshots|
            && forall i :: 0 <= i < |m'.snapshots| ==>
                 Kept(m, w, m', m'.snapshots[i], w'.marks[i], Marked(m, w, m'.snapshots[i], w'.marks[i]))
  {
    var m', w' := Next(m, step), Observe(m, w, step);
    if step.SetOps? && step.snapshot < |m.snapshots| {
      SetOpsAlign(m, w, step.snapshot);
    } else {
      if !step.ReadDisk? {
        SnapshotsStay(m, step);
      }
      forall i | 0 <= i < |m.snapshots| ensures Marked(m, w, m'.snapshots[i], w'.marks[i]) {
        assert m.snapshots[i] == m'.snapshots[i] && w.marks[i] == w'.marks[i];
      }
    }
  }

  lemma AdvanceReadsNothing(m: Machine, i: nat, net: Net)
    requires OneLoop(m) && i < |m.loops|
    ensures forall j :: 0 <= j < |AdvanceLoop(m, i, net).loops| ==> !AdvanceLoop(m, i, net).loops[j].phase.Reading?
  {
  }

  // At most one loop runs, and only a new one reads.
  lemma LoopsAlign(m: Machine, w: Watch, step: Step)
    requires OneLoop(m) && !step.Crash?
    ensures var m', w' := Next(m, step), Observe(m, w, step);
            forall i :: 0 <= i < |m'.loops| && m'.loops[i].phase.Reading? ==>
              Kept(m, w, m', m'.loops[i].todo, w'.pass,
                   i < |m.loops| && m.loops[i] == m'.loops[i] && w'.pass == w.pass)
  {
    if step.Advance? && step.loop < |m.loops| {
      AdvanceReadsNothing(m, step.loop, step.net);
    }
  }

  lemma NextKeepsWatched(m: Machine, w: Watch, step: Step)
    requires Inv(m) && Watched(m, w) && !step.Clear?
    ensures Watched(Next(m, step), Observe(m, w, step))
  {
    var m', w' := Next(m, step), Observe(m, w, step);
    if !step.Crash? {
      ReadsAlign(m, w, step);
      LoopsAlign(m, w, step);
      forall i | 0 <= i < |m'.snapshots| ensures Tracks(m', w', m'.snapshots[i], w'.marks[i]) {
        KeptTracks(m, w, step, m'.snapshots[i], w'.marks[i]);
      }
      forall i | 0 <= i < |m'.loops| && m'.loops[i].phase.Reading? ensures Tracks(m', w', m'.loops[i].todo, w'.pass) {
        KeptTracks(m, w, step, m'.loops[i].todo, w'.pass);
      }
    }
  }

  lemma KeptTracks(m: Machine, w: Watch, step: Step, snapshot: seq<Op>, mark: Mark)
    requires !step.Clear? && !step.Crash?
    requires Kept(m, w, Next(m, step), snapshot, mark, Tracks(m, w, snapshot, mark))
    ensures Tracks(Next(m, step), Observe(m, w, step), snapshot, mark)
  {
    if !Tracks(m, w, snapshot, mark) {
      TracksAtRead(m, w, m);
    }
    TracksStep(m, w, step, snapshot, mark);
  }

  lemma RemoveKeepsMirror(m: Machine, id: nat)
    requires Mirrored(m) && forall p :: p in m.pending ==> p.id != id
    ensures Mirrored(m.(disk := RemoveById(m.disk, id), store := RemoveById(m.store, id)))
  {
    RemoveAppend(m.store, m.pending, id);
    RemoveAbsent(m.pending, id);
  }

  lemma CountKeepsMirror(store: seq<Op>, pending: seq<Op>, id: nat)
    requires Distinct(store + pending) && forall p :: p in pending ==> p.id != id
    ensures var (disk, updated) := Increment(store + pending, id);
            updated.Some? ==> disk == Update(store, updated.value) + pending
  {
  }

  lemma FetchedKeepsMirror(m: Machine, i: nat, net: Net)
    requires MirrorInv(m) && i < |m.loops| && m.loops[i].todo != [] && m.loops[i].phase.Fetching?
    ensures Mirrored(Fetched(m, i, net)) && LoopsMirrored(Fetched(m, i, net))
  {
    assert LoopInv(m, m.loops[i]);
    assert forall o :: o in m.loops[i].todo ==> Known(m, o);
  }

  // The queue changed under one op of a loop, which goes on.
  lemma QueueKeepsMirror(m: Machine, i: nat, disk: seq<Op>, store: seq<Op>, loop: Loop)
    requires LoopsMirrored(m) && i < |m.loops| && !m.loops[i].phase.Reading? && (disk == store + m.pending || !m.loaded)
    requires loop.todo == m.loops[i].todo || (m.loops[i].todo != [] && loop.todo == m.loops[i].todo[1..])
    ensures var m' := SetLoop(m.(disk := disk, store := store), i, loop);
            Mirrored(m') && LoopsMirrored(m')
  {
    assert forall o :: o in loop.todo ==> o in m.loops[i].todo;
  }

  lemma DistinctParts(a: seq<Op>, b: seq<Op>)
    requires Distinct(a + b)
    ensures forall o, p :: o in a && p in b ==> o.id != p.id
  {
    forall o, p | o in a && p in b ensures o.id != p.id {
      var i :| 0 <= i < |a| && a[i] == o;
      var j :| 0 <= j < |b| && b[j] == p;
      assert (a + b)[i] == o && (a + b)[|a| + j] == p;
    }
  }

  lemma AdvanceKeepsMirror(m: Machine, i: nat, net: Net)
    requires MirrorInv(m) && i < |m.loops|
    requires m.loops[i].phase.Reading? ==> Fresh(m, m.loops[i].todo)
    ensures Mirrored(AdvanceLoop(m, i, net)) && LoopsMirrored(AdvanceLoop(m, i, net))
  {
    var loop := m.loops[i];
    if loop.phase.Reading? {
      DistinctParts(loop.todo, m.pending);
    } else if loop.todo != [] {
      var id, next := loop.todo[0].id, Loop(Fetching, loop.todo[1..]);
      assert loop.todo[0] in loop.todo;
      match loop.phase
      case Fetching => FetchedKeepsMirror(m, i, net);
      case Counting =>
        var (disk, updated) := Increment(m.disk, id);
        if updated.Some? {
          CountKeepsMirror(m.store, m.pending, id);
          QueueKeepsMirror(m, i, disk, Update(m.store, updated.value),
            if updated.value.retryCount >= MAX_RETRIES then Loop(Discarding, loop.todo) else next);
        } else {
          QueueKeepsMirror(m, i, m.disk, m.store, next);
        }
      case _ =>
        RemoveKeepsMirror(m, id);
        QueueKeepsMirror(m, i, RemoveById(m.disk, id), RemoveById(m.store, id), next);
    }
  }

  lemma NextKeepsMirror(m: Machine, w: Watch, step: Step)
    requires MirrorInv(m) && Watched(m, w) && Orderly(m, w, step)
    ensures MirrorInv(Next(m, step))
  {
    NextKeepsInv(m, step);
    match step
    case Advance(i, net) =>
      if i < |m.loops| {
        if m.loops[i].phase.Reading? { TimelyIsFresh(m, w, m.loops[i].todo, w.pass); }
        AdvanceKeepsMirror(m, i, net);
      }
    case SetOps(i) =>
      if i < |m.snapshots| { TimelyIsFresh(m, w, m.snapshots[i], w.marks[i]); }
    case UserPush(payload) =>
      forall i | 0 <= i < |m.loops| ensures forall o :: o in m.loops[i].todo ==> Known(m, o) {
        assert LoopInv(m, m.loops[i]);
      }
    case _ =>
  }

  lemma {:induction false} RunKeepsMirror(m: Machine, w: Watch, steps: seq<Step>)
    requires MirrorInv(m) && Watched(m, w) && OrderlyRun(m, w, steps)
    ensures MirrorInv(Run(m, steps))
    decreases steps
  {
    if steps != [] {
      NextKeepsMirror(m, w, steps[0]);
      NextKeepsWatched(m, w, steps[0]);
      RunKeepsMirror(Next(m, steps[0]), Observe(m, w, steps[0]), steps[1..]);
    }
  }

  // Once loaded, the store is the disk queue, in order, whenever no addOp is
  // outstanding, replay loops and crashes included; provided that nothing is
  // cleared and between each read and its install the addOps that run are just
  // as many as were outstanding, and no replay loop updates the queue.
  lemma StoreMirrorsDisk(offline: bool, steps: seq<Step>)
    requires OrderlyRun(Launch(offline), UNWATCHED, steps)
    ensures var m := Run(Launch(offline), steps);
            m.loaded && m.pending == [] ==> m.store == m.disk
  {
    RunKeepsMirror(Launch(offline), UNWATCHED, steps);
  }

  // ---- exactly when a load breaks the mirror ----

  function AddOps(m: Machine, steps: seq<Step>): nat
    decreases steps
  {
    if steps == [] then 0 else (if AddsOp(m, steps[0]) then 1 else 0) + AddOps(Next(m, steps[0]), steps[1..])
  }

  predicate LeavesQueue(m: Machine, steps: seq<Step>)
    decreases steps
  {
    steps == [] ||
    (&& !UpdatesQueue(m, steps[0]) && !steps[0].Clear? && !steps[0].Crash?
     && LeavesQueue(Next(m, steps[0]), steps[1..]))
  }

  lemma {:induction false} RunSince(m: Machine, steps: seq<Step>, snapshot: seq<Op>, due: seq<Op>, added: seq<Op>, k: nat)
    returns (added': seq<Op>)
    requires Since(m, snapshot, due, added, k) && LeavesQueue(m, steps)
    ensures Since(Run(m, steps), snapshot, due, added', k + AddOps(m, steps))
    decreases steps
  {
    if steps == [] {
      added' := added;
    } else {
      var next := StepSince(m, steps[0], snapshot, due, added, k);
      added' := RunSince(Next(m, steps[0]), steps[1..], snapshot, due, next,
        if AddsOp(m, steps[0]) then k + 1 else k);
    }
  }

  // What was read stays the disk less the ops to be shown exactly when, up to
  // now, as many addOps ran as were outstanding at the read.
  lemma FreshIff(m: Machine, middle: seq<Step>)
    requires LeavesQueue(m, middle)
    ensures Fresh(Run(m, middle), m.disk) <==> AddOps(m, middle) == |m.pending|
  {
    SinceAtRead(m);
    var added := RunSince(m, middle, m.disk, m.pending, [], 0);
    SinceFreshIff(Run(m, middle), m.disk, m.pending, added, AddOps(m, middle));
  }

  // A load of the store, for whatever comes between its read and its setOps but
  // updates of the queue by a replay loop, a clear or a crash: it leaves the
  // store a mirror exactly when as many addOps ran in between as were
  // outstanding at the read.
  lemma LoadMirrorsIff(m: Machine, middle: seq<Step>, i: nat)
    requires LeavesQueue(Next(m, ReadDisk), middle)
    requires var m' := Run(Next(m, ReadDisk), middle);
             i < |m'.snapshots| && m'.snapshots[i] == m.disk
    ensures Mirrored(Next(Run(Next(m, ReadDisk), middle), SetOps(i)))
            <==> AddOps(Next(m, ReadDisk), middle) == |m.pending|
  {
    FreshIff(Next(m, ReadDisk), middle);
  }

  // The same of the load that a replay pass begins with.
  lemma PassMirrorsIff(m: Machine, middle: seq<Step>, net: Net)
    requires !m.syncing && m.loops == [] && LeavesQueue(Next(m, StartSync), middle)
    requires Run(Next(m, StartSync), middle).loops == [Loop(Reading, m.disk)]
    ensures Mirrored(Next(Run(Next(m, StartSync), middle), Advance(0, net)))
            <==> AddOps(Next(m, StartSync), middle) == |m.pending|
  {
    FreshIff(Next(m, StartSync), middle);
  }

  // The op `o` as it was is not on the disk, and never comes back.
  predicate Gone(m: Machine, o: Op) {
    o.id < |m.log| && forall p :: p in m.disk && p.id == o.id ==> p.retryCount > o.retryCount
  }

  ghost predicate OnlyOlder(m: Machine, m': Machine) {
    && |m.log| <= |m'.log|
    && forall p :: p in m'.disk ==> p.id >= |m.log| || HasYounger(m, p)
  }

  ghost predicate HasYounger(m: Machine, p: Op) {
    exists q :: q in m.disk && q.id == p.id && q.retryCount <= p.retryCount
  }

  lemma UpdateOnlyOlder(m: Machine, i: nat, net: Net)
    requires Inv(m) && i < |m.loops| && UpdatesQueue(m, Advance(i, net))
    ensures OnlyOlder(m, AdvanceLoop(m, i, net))
  {
    var id := m.loops[i].todo[0].id;
    var m' := AdvanceLoop(m, i, net);
    if m.loops[i].phase.Counting? {
      IncrementMembers(m.disk, id);
    }
    forall p | p in m'.disk ensures HasYounger(m, p) {
      if !m.loops[i].phase.Counting? {
        RemoveMembers(m.disk, id, p);
        assert p in m.disk;
      }
    }
  }

  lemma StepOnlyOlder(m: Machine, step: Step)
    requires Inv(m)
    ensures OnlyOlder(m, Next(m, step))
  {
    var m' := Next(m, step);
    if UpdatesQueue(m, step) {
      UpdateOnlyOlder(m, step.loop, step.net);
    } else {
      forall p | p in m'.disk ensures p.id >= |m.log| || HasYounger(m, p) {
        if p in m.disk { assert HasYounger(m, p); }
      }
    }
  }

  lemma {:induction false} StaysGone(m: Machine, steps: seq<Step>, o: Op)
    requires Inv(m) && Gone(m, o)
    ensures Gone(Run(m, steps), o)
    decreases steps
  {
    if steps != [] {
      StepOnlyOlder(m, steps[0]);
      NextKeepsInv(m, steps[0]);
      StaysGone(Next(m, steps[0]), steps[1..], o);
    }
  }

  lemma UpdatedIsGone(m: Machine, step: Step, o: Op)
    requires Inv(m) && UpdatesQueue(m, step) && o in m.disk && o !in Next(m, step).disk
    ensures Gone(Next(m, step), o)
  {
    var id := m.loops[step.loop].todo[0].id;
    assert Known(m, o);
    if m.loops[step.loop].phase.Counting? {
      IncrementMembers(m.disk, id);
    } else {
      forall p ensures p in Next(m, step).disk <==> p in m.disk && p.id != id {
        RemoveMembers(m.disk, id, p);
      }
    }
  }

  // A replay loop that removes or counts an op which a load had read makes that
  // load stale for good: installing it, whenever, leaves no mirror.
  lemma UpdateMakesStale(m: Machine, step: Step, later: seq<Step>, snapshot: seq<Op>, o: Op)
    requires Inv(m) && UpdatesQueue(m, step)
    requires o in snapshot && o in m.disk && o !in Next(m, step).disk
    ensures !Fresh(Run(Next(m, step), later), snapshot)
  {
    UpdatedIsGone(m, step, o);
    NextKeepsInv(m, step);
    StaysGone(Next(m, step), later, o);
    assert o !in Run(Next(m, step), later).disk;
  }

  // An op that a load read while its addOp was outstanding stands in the store
  // twice afterwards.
  lemma LoadShowsTwice(m: Machine)
    requires m.pending != []
    ensures var m' := Run(m, [ReadDisk, SetOps(|m.snapshots|), MirrorPush]);
            m'.store == m.disk + [m.pending[0]]
  {
    var steps := [ReadDisk, SetOps(|m.snapshots|), MirrorPush];
    assert steps[0..] == steps;
    var m1 := Next(m, steps[0]);
    var m2 := Next(m1, steps[1]);
    RunFrom(m, steps, 0);
    RunFrom(m1, steps, 1);
    RunFrom(m2, steps, 2);
  }

  // An op that was pushed and shown while a load was under way is missing from
  // the store afterwards.
  lemma LoadHidesPush(offline: bool, payload: Payload)
    ensures var m := Run(Launch(offline), [ReadDisk, UserPush(payload), MirrorPush, SetOps(0)]);
            m.loaded && m.pending == [] && m.disk == [Op(0, payload, 0)] && m.store == []
  {
    var steps := [ReadDisk, UserPush(payload), MirrorPush, SetOps(0)];
    assert steps[0..] == steps;
    var m0 := Launch(offline);
    var m1 := Next(m0, steps[0]);
    var m2 := Next(m1, steps[1]);
    var m3 := Next(m2, steps[2]);
    RunFrom(m0, steps, 0);
    RunFrom(m1, steps, 1);
    RunFrom(m2, steps, 2);
    RunFrom(m3, steps, 3);
  }

  // Clearing the queue leaves the store as it was.
  lemma ClearMirrorsIff(m: Machine)
    requires m.loaded && Mirrored(m) && m.pending == []
    ensures Mirrored(Next(m, Clear)) <==> m.disk == []
  {
  }
}
