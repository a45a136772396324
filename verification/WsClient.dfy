// The reconnecting WebSocket client (client/src/api/ws.ts). A step is what runs
// between two awaits or callbacks of the event loop.
module WsClient {
  import opened Wrappers

  type SocketId = nat
  type TimerId = nat

  const BACKOFF_BASE_MS: nat := 1_000
  const BACKOFF_MAX_MS: nat := 30_000

  datatype Status = Connecting | Connected | Reconnecting | Offline

  // A closed socket and a timer that has fired or was cleared are gone.
  datatype Phase = Dialing | Open | Closing

  // What the event loop holds: connects awaiting their ticket, sockets, timers.
  datatype World = World(awaiting: nat, sockets: map<SocketId, Phase>, timers: map<TimerId, nat>, nextId: nat)

  datatype Client = Client(socket: Option<SocketId>, attempt: nat, retryTimer: Option<TimerId>, destroyed: bool,
                           status: Status)

  datatype State = State(c: Client, w: World)

  datatype Event =
    | TicketFails
    | TicketArrives(dialThrows: bool)
    | Opens(socket: SocketId)
    | Closes(socket: SocketId)
    | Fires(timer: TimerId)
    | Destroy

  function Pow2(k: nat): nat {
    if k == 0 then 1 else 2 * Pow2(k - 1)
  }

  function BackoffDelay(attempt: nat): nat {
    var delay := BACKOFF_BASE_MS * Pow2(attempt);
    if delay < BACKOFF_MAX_MS then delay else BACKOFF_MAX_MS
  }

  // ---- the steps ----

  // connect up to its await.
  function Connect(s: State): State {
    if s.c.destroyed then s
    else s.(c := s.c.(status := if s.c.attempt == 0 then Connecting else Reconnecting),
            w := s.w.(awaiting := s.w.awaiting + 1))
  }

  function ScheduleReconnect(s: State): State {
    if s.c.destroyed then s
    else
      var timer := s.w.nextId;
      State(s.c.(status := Reconnecting, attempt := s.c.attempt + 1, retryTimer := Some(timer)),
            s.w.(timers := s.w.timers[timer := BackoffDelay(s.c.attempt)], nextId := timer + 1))
  }

  function Dial(s: State): State {
    var id := s.w.nextId;
    s.(c := s.c.(socket := Some(id)), w := s.w.(sockets := s.w.sockets[id := Dialing], nextId := id + 1))
  }

  // WebSocket.close: the close event comes later, an open event no more.
  function CloseSocket(s: State): State {
    if s.c.socket.Some? && s.c.socket.value in s.w.sockets
    then s.(w := s.w.(sockets := s.w.sockets[s.c.socket.value := Closing]))
    else s
  }

  // An event that cannot occur in `s` does nothing.
  function Next(s: State, e: Event): State {
    match e
    case TicketFails =>
      if s.w.awaiting == 0 then s else ScheduleReconnect(s.(w := s.w.(awaiting := s.w.awaiting - 1)))
    case TicketArrives(dialThrows) =>
      if s.w.awaiting == 0 then s
      else
        var s' := s.(w := s.w.(awaiting := s.w.awaiting - 1));
        if s.c.destroyed then s' else if dialThrows then ScheduleReconnect(s') else Dial(s')
    case Opens(id) =>
      if id !in s.w.sockets || s.w.sockets[id] != Dialing then s
      else s.(c := s.c.(attempt := 0, status := Connected), w := s.w.(sockets := s.w.sockets[id := Open]))
    case Closes(id) =>
      if id !in s.w.sockets then s else ScheduleReconnect(s.(w := s.w.(sockets := s.w.sockets - {id})))
    case Fires(timer) =>
      if timer !in s.w.timers then s else Connect(s.(w := s.w.(timers := s.w.timers - {timer})))
    case Destroy =>
      var cleared := if s.c.retryTimer.Some? then s.w.timers - {s.c.retryTimer.value} else s.w.timers;
      var s' := CloseSocket(s.(w := s.w.(timers := cleared)));
      s'.(c := s.c.(destroyed := true, status := Offline))
  }

  function Initial(nextId: nat): State {
    State(Client(None, 0, None, false, Connecting), World(0, map[], map[], nextId))
  }

  // The constructor connects at once.
  function Constructed(nextId: nat): State {
    Connect(Initial(nextId))
  }

  function Run(s: State, events: seq<Event>): State
    decreases events
  {
    if events == [] then s else Run(Next(s, events[0]), events[1..])
  }

  // ---- the client in the source's imperative form ----

  class Ws {
    var socket: Option<SocketId>
    var attempt: nat
    var retryTimer: Option<TimerId>
    var destroyed: bool
    var status: Status
    var world: World  // the browser's side

    ghost function View(): State
      reads this
    {
      State(Client(socket, attempt, retryTimer, destroyed, status), world)
    }

    constructor (nextId: nat)
      ensures View() == Constructed(nextId)
    {
      socket, attempt, retryTimer, destroyed, status := None, 0, None, false, Connecting;
      world := World(0, map[], map[], nextId);
      new;
      StartConnect();
    }

    method StartConnect()
      modifies this
      ensures View() == Connect(old(View()))
    {
      if destroyed { return; }
      status := if attempt == 0 then Connecting else Reconnecting;
      world := world.(awaiting := world.awaiting + 1);
    }

    // The rest of connect, once the ticket request is over.
    method FinishConnect(ticketOk: bool, dialThrows: bool)
      requires world.awaiting > 0
      modifies this
      ensures View() == Next(old(View()), if ticketOk then TicketArrives(dialThrows) else TicketFails)
    {
      world := world.(awaiting := world.awaiting - 1);
      if !ticketOk {
        Schedule();
        return;
      }
      if destroyed { return; }
      if dialThrows {
        Schedule();
        return;
      }
      socket := Some(world.nextId);
      world := world.(sockets := world.sockets[world.nextId := Dialing], nextId := world.nextId + 1);
    }

    method Schedule()
      modifies this
      ensures View() == ScheduleReconnect(old(View()))
    {
      if destroyed { return; }
      status := Reconnecting;
      var delay := BackoffDelay(attempt);
      attempt := attempt + 1;
      retryTimer := Some(world.nextId);
      world := world.(timers := world.timers[world.nextId := delay], nextId := world.nextId + 1);
    }

    method OnOpen(id: SocketId)
      requires id in world.sockets && world.sockets[id] == Dialing
      modifies this
      ensures View() == Next(old(View()), Opens(id))
    {
      world := world.(sockets := world.sockets[id := Open]);
      attempt := 0;
      status := Connected;
    }

    method OnClose(id: SocketId)
      requires id in world.sockets
      modifies this
      ensures View() == Next(old(View()), Closes(id))
    {
      world := world.(sockets := world.sockets - {id});
      if !destroyed { Schedule(); }
    }

    method OnTimer(timer: TimerId)
      requires timer in world.timers
      modifies this
      ensures View() == Next(old(View()), Fires(timer))
    {
      world := world.(timers := world.timers - {timer});
      StartConnect();
    }

    method DestroyIt()
      modifies this
      ensures View() == Next(old(View()), Destroy)
    {
      destroyed := true;
      if retryTimer.Some? { world := world.(timers := world.timers - {retryTimer.value}); }
      if socket.Some? && socket.value in world.sockets {
        world := world.(sockets := world.sockets[socket.value := Closing]);
      }
      status := Offline;
    }
  }

  // ---- exactly one way forward ----

  predicate OneActivity(s: State) {
    s.w.awaiting + |s.w.sockets| + |s.w.timers| == 1
  }

  predicate Known(s: State) {
    && (forall id :: id in s.w.sockets ==> s.c.socket == Some(id) && id < s.w.nextId)
    && (forall timer :: timer in s.w.timers ==> s.c.retryTimer == Some(timer) && timer < s.w.nextId)
  }

  predicate HasOpen(s: State) {
    exists id :: id in s.w.sockets && s.w.sockets[id] == Open
  }

  predicate Inv(s: State) {
    && Known(s)
    && (s.c.destroyed <==> s.c.status == Offline)
    && (if s.c.destroyed then
          s.w.timers == map[] && forall id :: id in s.w.sockets ==> s.w.sockets[id] == Closing
        else
          && OneActivity(s)
          && (forall id :: id in s.w.sockets ==> s.w.sockets[id] != Closing)
          && (s.c.status == Connected <==> HasOpen(s))
          && (s.c.status == Connecting <==> s.c.attempt == 0 && !HasOpen(s)))
  }

  lemma TicketKeepsInv(s: State, e: Event)
    requires Inv(s) && (e.TicketFails? || e.TicketArrives?)
    ensures Inv(Next(s, e))
  {
  }

  lemma SocketKeepsInv(s: State, e: Event)
    requires Inv(s) && (e.Opens? || e.Closes?)
    ensures Inv(Next(s, e))
  {
  }

  lemma TimerKeepsInv(s: State, e: Event)
    requires Inv(s) && e.Fires?
    ensures Inv(Next(s, e))
  {
  }

  lemma NextKeepsInv(s: State, e: Event)
    requires Inv(s)
    ensures Inv(Next(s, e))
  {
    match e
    case Opens(_) => SocketKeepsInv(s, e);
    case Closes(_) => SocketKeepsInv(s, e);
    case Fires(_) => TimerKeepsInv(s, e);
    case Destroy =>
    case _ => TicketKeepsInv(s, e);
  }

  lemma {:induction false} RunKeepsInv(s: State, events: seq<Event>)
    requires Inv(s)
    ensures Inv(Run(s, events))
    decreases events
  {
    if events != [] {
      NextKeepsInv(s, events[0]);
      RunKeepsInv(Next(s, events[0]), events[1..]);
    }
  }

  // In every run of a client: until destroyed it has exactly one of a connect
  // awaiting its ticket, a live socket and a pending timer, and its status says
  // which of them is open; once destroyed it has no timer and no live socket.
  lemma OneWayForward(nextId: nat, events: seq<Event>)
    ensures var s := Run(Constructed(nextId), events);
            && (!s.c.destroyed ==> OneActivity(s) && (s.c.status == Connected <==> HasOpen(s)))
            && (s.c.destroyed ==> s.w.timers == map[] && s.c.status == Offline
                                  && forall id :: id in s.w.sockets ==> s.w.sockets[id] == Closing)
  {
    RunKeepsInv(Constructed(nextId), events);
  }

  // After destroy nothing is ever created or sent for again, whatever the
  // ticket request, the socket and the timers still do.
  lemma {:induction false} DestroyIsFinal(s: State, events: seq<Event>)
    requires Inv(s) && s.c.destroyed
    ensures var s' := Run(s, events);
            && s'.c.destroyed && s'.w.nextId == s.w.nextId && s'.w.timers == map[]
            && s'.w.awaiting <= s.w.awaiting && s'.w.sockets.Keys <= s.w.sockets.Keys
            && s'.c.status == Offline
    decreases events
  {
    if events != [] {
      NextKeepsInv(s, events[0]);
      DestroyIsFinal(Next(s, events[0]), events[1..]);
    }
  }

  // ---- the backoff ----

  lemma {:induction false} Pow2Monotone(j: nat, k: nat)
    requires j <= k
    ensures 1 <= Pow2(j) <= Pow2(k)
    decreases k
  {
    if j < k {
      Pow2Monotone(j, k - 1);
    } else if 0 < k {
      Pow2Monotone(j - 1, k - 1);
    }
  }

  // The delay never shrinks and is at its cap exactly from the sixth failure on.
  lemma BackoffGrowsToCap(j: nat, k: nat)
    requires j <= k
    ensures BACKOFF_BASE_MS <= BackoffDelay(j) <= BackoffDelay(k) <= BACKOFF_MAX_MS
    ensures BackoffDelay(k) == BACKOFF_MAX_MS <==> k >= 5
    ensures k < 4 ==> BackoffDelay(k + 1) == 2 * BackoffDelay(k)
  {
    Pow2Monotone(j, k);
    assert Pow2(4) == 16 && Pow2(5) == 32;
    if k >= 5 { Pow2Monotone(5, k); } else { Pow2Monotone(k, 4); }
  }

  // What an event did that matters to the backoff.
  datatype Mark = Opened | Scheduled(delay: nat)

  function Marks(s: State, e: Event): seq<Mark> {
    var s' := Next(s, e);
    if s'.w.timers.Keys > s.w.timers.Keys && s'.c.retryTimer.Some? && s'.c.retryTimer.value in s'.w.timers
    then [Scheduled(s'.w.timers[s'.c.retryTimer.value])]
    else if e.Opens? && e.socket in s.w.sockets && s.w.sockets[e.socket] == Dialing then [Opened]
    else []
  }

  function Trace(s: State, events: seq<Event>): seq<Mark>
    decreases events
  {
    if events == [] then [] else Marks(s, events[0]) + Trace(Next(s, events[0]), events[1..])
  }

  // Failures in a row at the end of `marks`, on top of `before` when it never opened.
  function FailuresInRow(before: nat, marks: seq<Mark>): nat
    decreases marks
  {
    if marks == [] then before
    else FailuresInRow(if marks[0].Opened? then 0 else before + 1, marks[1..])
  }

  lemma MarkOf(s: State, e: Event)
    requires Inv(s)
    ensures s.c.attempt == Next(s, e).c.attempt || Marks(s, e) != []
    ensures Marks(s, e) != [] ==>
              |Marks(s, e)| == 1
              && Next(s, e).c.attempt == FailuresInRow(s.c.attempt, Marks(s, e))
              && (Marks(s, e)[0].Scheduled? ==> Marks(s, e)[0].delay == BackoffDelay(s.c.attempt))
  {
  }

  // In every run, the retry after k failures in a row, counted since the socket
  // last opened, waits min(1000 * 2^k, 30000) ms.
  lemma {:induction false} DelayFollowsFailures(s: State, events: seq<Event>, i: nat)
    requires Inv(s) && i < |Trace(s, events)| && Trace(s, events)[i].Scheduled?
    ensures Trace(s, events)[i].delay == BackoffDelay(FailuresInRow(s.c.attempt, Trace(s, events)[..i]))
    decreases events
  {
    var now, s' := Marks(s, events[0]), Next(s, events[0]);
    var rest := Trace(s', events[1..]);
    MarkOf(s, events[0]);
    NextKeepsInv(s, events[0]);
    if now == [] {
      assert Trace(s, events) == rest;
      DelayFollowsFailures(s', events[1..], i);
    } else if i > 0 {
      DelayFollowsFailures(s', events[1..], i - 1);
      assert Trace(s, events)[..i] == now + rest[..i - 1];
      assert (now + rest[..i - 1])[1..] == rest[..i - 1];
      assert now[1..] == [];
    }
  }

  // ---- what each event does, written out ----

  // Until destroyed, every failure, be it of the ticket, of the constructor or
  // of the socket, leads to one timer, with the delay of the failures so far, and
  // to nothing else; a ticket is asked for again only when it fires.
  lemma FailureWaits(s: State, e: Event)
    requires Inv(s) && !s.c.destroyed
    requires || (e == TicketFails && s.w.awaiting > 0)
             || (e == TicketArrives(true) && s.w.awaiting > 0)
             || (e.Closes? && e.socket in s.w.sockets)
    ensures var s' := Next(s, e);
            && s'.w.awaiting == 0 && s'.w.sockets == map[]
            && s'.w.timers == map[s.w.nextId := BackoffDelay(s.c.attempt)]
            && s'.c.retryTimer == Some(s.w.nextId)
            && s'.c.attempt == s.c.attempt + 1 && s'.c.status == Reconnecting
            && Marks(s, e) == [Scheduled(BackoffDelay(s.c.attempt))]
  {
    NextKeepsInv(s, e);
    if e.Closes? {
      assert e.socket in s.w.sockets.Keys && |s.w.sockets| >= 1;
      assert s.w.sockets - {e.socket} == map[] by {
        assert |s.w.sockets.Keys - {e.socket}| == 0;
      }
    }
    var s' := Next(s, e);
    assert s.w.timers == map[];
    assert s'.w.timers.Keys == {s.w.nextId};
  }

  // The other way round, nothing else makes a timer.
  lemma OnlyFailureWaits(s: State, e: Event)
    requires Inv(s) && !s.c.destroyed
    requires !(e == TicketFails && s.w.awaiting > 0) && !(e == TicketArrives(true) && s.w.awaiting > 0)
    requires !(e.Closes? && e.socket in s.w.sockets)
    ensures Next(s, e).w.timers.Keys <= s.w.timers.Keys && Next(s, e).c.attempt <= s.c.attempt
  {
  }

  // A timer that fires asks for a ticket, a ticket opens a socket, and an open
  // socket ends the count of failures.
  lemma ProgressDoes(s: State, e: Event)
    requires Inv(s) && !s.c.destroyed
    ensures e.Fires? && e.timer in s.w.timers ==>
              var s' := Next(s, e);
              s'.w.awaiting == 1 && s'.w.timers == map[] && s'.c.attempt == s.c.attempt
              && s'.c.status == if s.c.attempt == 0 then Connecting else Reconnecting
    ensures e == TicketArrives(false) && s.w.awaiting > 0 ==>
              var s' := Next(s, e);
              s'.w.awaiting == 0 && s'.w.sockets == map[s.w.nextId := Dialing] && s'.c.socket == Some(s.w.nextId)
              && s'.c.attempt == s.c.attempt && s'.c.status == s.c.status
    ensures e.Opens? && e.socket in s.w.sockets && s.w.sockets[e.socket] == Dialing ==>
              var s' := Next(s, e);
              s'.w.sockets == s.w.sockets[e.socket := Open] && s'.c.attempt == 0 && s'.c.status == Connected
  {
    if e.Fires? && e.timer in s.w.timers {
      assert e.timer in s.w.timers.Keys && |s.w.timers| >= 1;
      assert s.w.timers - {e.timer} == map[] by {
        assert |s.w.timers.Keys - {e.timer}| == 0;
      }
    }
    if e == TicketArrives(false) && s.w.awaiting > 0 {
      assert s.w.sockets == map[];
    }
  }

  // Destroying clears the timer and closes the socket.
  lemma DestroyDoes(s: State)
    requires Inv(s)
    ensures var s' := Next(s, Destroy);
            && s'.c.destroyed && s'.c.status == Offline && s'.w.timers == map[]
            && s'.w.sockets.Keys == s.w.sockets.Keys && s'.w.awaiting == s.w.awaiting
            && forall id :: id in s'.w.sockets ==> s'.w.sockets[id] == Closing
  {
    NextKeepsInv(s, Destroy);
  }

  // The first delays, and that they double up to half a minute.
  lemma DelaysAre(k: nat)
    ensures BackoffDelay(0) == 1_000 && BackoffDelay(1) == 2_000 && BackoffDelay(2) == 4_000
    ensures BackoffDelay(3) == 8_000 && BackoffDelay(4) == 16_000
    ensures k >= 5 ==> BackoffDelay(k) == 30_000
  {
    BackoffGrowsToCap(k, k);
    assert Pow2(4) == 16;
  }

  // From every state before destroy the client can be connected within three
  // events.
  lemma CanConnect(s: State) returns (events: seq<Event>)
    requires Inv(s) && !s.c.destroyed
    ensures |events| <= 3 && Run(s, events).c.status == Connected
  {
    if s.c.status == Connected {
      events := [];
    } else if s.w.timers != map[] {
      var timer :| timer in s.w.timers;
      ProgressDoes(s, Fires(timer));
      NextKeepsInv(s, Fires(timer));
      var rest := ConnectsFromTicket(Next(s, Fires(timer)));
      events := [Fires(timer)] + rest;
      assert events[1..] == rest;
    } else if s.w.awaiting > 0 {
      events := ConnectsFromTicket(s);
    } else {
      assert |s.w.sockets| == 1;
      var id :| id in s.w.sockets;
      ProgressDoes(s, Opens(id));
      events := [Opens(id)];
      assert [Opens(id)][1..] == [];
    }
  }

  lemma ConnectsFromTicket(s: State) returns (events: seq<Event>)
    requires Inv(s) && !s.c.destroyed && s.w.awaiting > 0
    ensures |events| == 2 && Run(s, events).c.status == Connected && Run(s, events).c.attempt == 0
  {
    var ticket, open := TicketArrives(false), Opens(s.w.nextId);
    ProgressDoes(s, ticket);
    NextKeepsInv(s, ticket);
    ProgressDoes(Next(s, ticket), open);
    events := [ticket, open];
    RunTwo(s, ticket, open);
  }

  lemma RunTwo(s: State, a: Event, b: Event)
    ensures Run(s, [a, b]) == Next(Next(s, a), b)
  {
    assert [a, b][1..] == [b];
    assert Run(Next(s, a), [b]) == Next(Next(s, a), b) by {
      assert [b][1..] == [];
    }
  }
}
