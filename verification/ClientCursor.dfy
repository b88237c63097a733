/**
 * The browser's end of the event stream: one queue of messages handled one at a time, sockets that are replaced,
 * and a cursor from which the next socket asks the server to go on.
 */
module ClientCursor {
  import opened Common
  import opened EventLog
  import opened Delivery

  const MAX_SAFE_INTEGER: nat := 9007199254740991

  /** What onclose reports for an expired session. */
  const SESSION_EXPIRED: int := 4401

  function NormalizeSequence(n: nat): nat {
    if n <= MAX_SAFE_INTEGER then n else 0
  }

  datatype Job = Job(socket: nat, frame: Frame)

  /** `failed` and `closed` belong to the newest socket; older sockets are told apart by their number. */
  datatype Client = Client(
    stopped: bool, socket: nat, failed: bool, closed: bool, reconnecting: bool,
    cursor: nat, queue: seq<Job>, running: Option<Job>)

  predicate Ignored(c: Client, socket: nat) {
    c.stopped || c.socket != socket || c.failed
  }

  function CursorAfter(cursor: nat, frame: Frame): nat {
    var sequence := NormalizeSequence(Position(frame));
    if frame.Resync? && frame.resetCursor then sequence
    else if sequence > cursor then sequence
    else cursor
  }

  function AfterMessage(c: Client, socket: nat, frame: Frame): Client {
    c.(queue := c.queue + [Job(socket, frame)])
  }

  function AfterStop(c: Client): Client {
    c.(stopped := true, reconnecting := false)
  }

  function AfterOpen(c: Client): Client {
    if c.stopped then c
    else c.(socket := c.socket + 1, failed := false, closed := false, reconnecting := false)
  }

  function AfterTake(c: Client): Client
    requires c.queue != []
  {
    var job := c.queue[0];
    c.(queue := c.queue[1..], running := if Ignored(c, job.socket) then None else Some(job))
  }

  /** The handler of the running message is through: it applied the event, or it returned something else or threw. */
  function AfterSettle(c: Client, applied: bool): Client
    requires c.running.Some?
  {
    var job := c.running.value;
    var idle := c.(running := None);
    if Ignored(c, job.socket) then idle
    else if applied then idle.(cursor := CursorAfter(c.cursor, job.frame))
    else idle.(failed := true)
  }

  function AfterClose(c: Client, socket: nat, code: int): Client {
    if c.stopped || c.socket != socket || c.closed then c
    else c.(closed := true, reconnecting := code != SESSION_EXPIRED)
  }

  class EventSubscription {
    var stopped: bool
    var socket: nat
    var failed: bool
    var closed: bool
    var reconnecting: bool
    var lastAppliedSequence: nat
    var queue: seq<Job>
    var running: Option<Job>

    constructor (after: nat)
      ensures View() == AfterOpen(Client(false, 0, false, false, false, NormalizeSequence(after), [], None))
    {
      stopped, socket, failed, closed, reconnecting := false, 0, false, false, false;
      lastAppliedSequence, queue, running := NormalizeSequence(after), [], None;
      new;
      Open();
    }

    function View(): Client
      reads this
    {
      Client(stopped, socket, failed, closed, reconnecting, lastAppliedSequence, queue, running)
    }

    /** The new socket is the only one whose messages count from here on; the cursor stays. */
    method Open()
      modifies this
      ensures View() == AfterOpen(old(View()))
      ensures lastAppliedSequence == old(lastAppliedSequence) && queue == old(queue)
      ensures !stopped ==> forall from: nat :: from <= old(socket) ==> Ignored(View(), from)
      ensures !stopped ==> !Ignored(View(), socket)
    {
      if stopped {
        return;
      }
      reconnecting := false;
      socket := socket + 1;
      failed, closed := false, false;
    }

    method OnMessage(from: nat, frame: Frame)
      modifies this`queue
      ensures View() == AfterMessage(old(View()), from, frame)
    {
      queue := queue + [Job(from, frame)];
    }

    method StartNext()
      requires running.None? && queue != []
      modifies this`queue, this`running
      ensures View() == AfterTake(old(View()))
      ensures running.Some? <==> !Ignored(old(View()), old(queue)[0].socket)
      ensures running.Some? ==> running == Some(old(queue)[0])
    {
      var job := queue[0];
      queue := queue[1..];
      if !(stopped || socket != job.socket || failed) {
        running := Some(job);
      }
    }

    method Settle(applied: bool)
      requires running.Some?
      modifies this`running, this`failed, this`lastAppliedSequence
      ensures View() == AfterSettle(old(View()), applied)
      ensures lastAppliedSequence != old(lastAppliedSequence) ==>
                && applied && !Ignored(old(View()), old(running).value.socket)
                && lastAppliedSequence == NormalizeSequence(Position(old(running).value.frame))
      ensures failed <==> old(failed) || (!applied && !Ignored(old(View()), old(running).value.socket))
      ensures lastAppliedSequence < old(lastAppliedSequence) ==>
                old(running).value.frame.Resync? && old(running).value.frame.resetCursor
    {
      var job := running.value;
      running := None;
      if stopped || socket != job.socket || failed {
        return;
      }
      if !applied {
        failed := true;
        return;
      }
      var sequence := NormalizeSequence(Position(job.frame));
      if job.frame.Resync? && job.frame.resetCursor {
        lastAppliedSequence := sequence;
      } else if sequence > lastAppliedSequence {
        lastAppliedSequence := sequence;
      }
    }

    method OnClose(from: nat, code: int)
      modifies this`closed, this`reconnecting
      ensures View() == AfterClose(old(View()), from, code)
      ensures reconnecting && !old(reconnecting) ==>
                !stopped && from == socket && !old(closed) && code != SESSION_EXPIRED
      ensures !stopped && from == socket && !old(closed) ==> closed && (reconnecting <==> code != SESSION_EXPIRED)
    {
      if stopped || socket != from || closed {
        return;
      }
      closed := true;
      reconnecting := code != SESSION_EXPIRED;
    }

    method Stop()
      modifies this`stopped, this`reconnecting
      ensures View() == AfterStop(old(View()))
      ensures forall job :: Ignored(View(), job)
    {
      stopped, reconnecting := true, false;
    }
  }

  // ---- Client and server together ----

  /**
   * `openedAt` is the cursor with which the newest socket was opened and `received` what it delivered since. `known`
   * is what the page had from its start; `applied` and `snapshots` record which events the page applied and to
   * which targets it reconciled a snapshot.
   */
  datatype System = System(
    history: seq<Event>, client: Client, openedAt: nat, received: seq<Frame>,
    known: nat, applied: set<nat>, snapshots: set<nat>)

  datatype SystemStep =
    | Commit(event: Event)
    | Reopen
    | Receive(frame: Frame)
    | ReceiveStale(socket: nat, frame: Frame)
    | Take
    | Settle(applied: bool)
    | Disconnect(socket: nat, code: int)
    | Stop

  /** The newest socket delivers frames as the server sends them; about older sockets nothing is assumed. */
  ghost predicate CanSystem(s: System, step: SystemStep) {
    match step
    case Commit(event) => event.sequence == |s.history| + 1
    case Reopen => s.client.reconnecting
    case Receive(frame) => GapFree(s.history, s.openedAt, s.received + [frame])
    case ReceiveStale(socket, frame) => socket < s.client.socket
    case Take => s.client.running.None? && s.client.queue != []
    case Settle(applied) => s.client.running.Some?
    case Disconnect(socket, code) => true
    case Stop => true
  }

  ghost function AfterSystem(s: System, step: SystemStep): System
    requires CanSystem(s, step)
  {
    match step
    case Commit(event) => s.(history := s.history + [event])
    case Reopen =>
      if s.client.stopped then s
      else s.(client := AfterOpen(s.client), openedAt := s.client.cursor, received := [])
    case Receive(frame) =>
      s.(client := AfterMessage(s.client, s.client.socket, frame), received := s.received + [frame])
    case ReceiveStale(socket, frame) => s.(client := AfterMessage(s.client, socket, frame))
    case Take => s.(client := AfterTake(s.client))
    case Settle(applied) =>
      var job := s.client.running.value;
      AfterHandled(s.(client := AfterSettle(s.client, applied)), job.frame, applied, Ignored(s.client, job.socket))
    case Disconnect(socket, code) => s.(client := AfterClose(s.client, socket, code))
    case Stop => s.(client := AfterStop(s.client))
  }

  /** What a handler that returned true has done; with a reset of the cursor, what the page knew before is worthless. */
  ghost function AfterHandled(s: System, frame: Frame, applied: bool, ignored: bool): System {
    if !applied then s
    else
      match frame
      case Deliver(event) => s.(applied := s.applied + {event.sequence})
      case Resync(target, reset) => s.(snapshots := s.snapshots + {target}, known := if reset && !ignored then 0 else s.known)
      case Ready(_) => s
  }

  /** The frames of one socket that still wait in the queue. */
  function Waiting(queue: seq<Job>, socket: nat): seq<Frame> {
    if queue == [] then []
    else
      var front := Waiting(queue[..|queue| - 1], socket);
      var job := queue[|queue| - 1];
      if job.socket == socket then front + [job.frame] else front
  }

  lemma {:induction false} WaitingFirst(queue: seq<Job>, socket: nat)
    requires queue != []
    ensures Waiting(queue, socket) == (if queue[0].socket == socket then [queue[0].frame] else []) + Waiting(queue[1..], socket)
    decreases |queue|
  {
    if |queue| > 1 {
      WaitingFirst(queue[..|queue| - 1], socket);
      assert queue[1..][..|queue| - 2] == queue[..|queue| - 1][1..];
    }
  }

  lemma {:induction false} NoneWaiting(queue: seq<Job>, socket: nat)
    requires forall k :: 0 <= k < |queue| ==> queue[k].socket < socket
    ensures Waiting(queue, socket) == []
    decreases |queue|
  {
    if queue != [] {
      NoneWaiting(queue[..|queue| - 1], socket);
    }
  }

  /** The frames of the newest socket that are not handled yet. */
  ghost function Unhandled(c: Client): seq<Frame> {
    (if c.running.Some? && c.running.value.socket == c.socket then [c.running.value.frame] else []) + Waiting(c.queue, c.socket)
  }

  ghost predicate Covered(s: System, sequence: nat) {
    sequence <= s.known || sequence in s.applied || exists t :: t in s.snapshots && t >= sequence
  }

  /** Up to the unhandled rest, the cursor follows the frames; a number too large for the client stops it. */
  ghost predicate CursorFits(s: System) {
    var rest := Unhandled(s.client);
    && |rest| <= |s.received| && rest == s.received[|s.received| - |rest|..]
    && var reached := Before(s.openedAt, s.received, |s.received| - |rest|);
       reached <= MAX_SAFE_INTEGER ==> s.client.cursor == reached
  }

  ghost predicate SystemInv(s: System) {
    && GapFree(s.history, s.openedAt, s.received)
    && (forall k :: 0 <= k < |s.client.queue| ==> s.client.queue[k].socket <= s.client.socket)
    && (s.client.running.Some? ==> s.client.running.value.socket <= s.client.socket)
    && (!s.client.failed && !s.client.stopped ==> CursorFits(s))
    && s.client.cursor <= MAX_SAFE_INTEGER
    && (forall sequence :: 1 <= sequence <= s.client.cursor ==> Covered(s, sequence))
  }

  ghost predicate InitialSystem(s: System) {
    && s.received == [] && s.applied == {} && s.snapshots == {}
    && s.openedAt == s.client.cursor == s.known <= MAX_SAFE_INTEGER
    && s.client == AfterOpen(Client(false, 0, false, false, false, s.client.cursor, [], None))
  }

  lemma InitialSystemInv(s: System)
    requires InitialSystem(s)
    ensures SystemInv(s)
  {
    assert Waiting([], 1) == [];
  }

  lemma SettleKeeps(s: System, applied: bool)
    requires SystemInv(s) && CanSystem(s, Settle(applied))
    ensures SystemInv(AfterSystem(s, Settle(applied)))
  {
    var c := s.client;
    var t := AfterSystem(s, Settle(applied));
    if Ignored(c, c.running.value.socket) || !applied {
      SettledAside(s, applied);
    } else {
      var frame := c.running.value.frame;
      var rest := Unhandled(c);
      var k := |s.received| - |rest|;
      assert rest[0] == frame == s.received[k];
      assert FrameFits(s.history, s.openedAt, s.received, k);
      assert rest[1..] == Waiting(c.queue, c.socket);
      CursorCovered(s, t, frame, Before(s.openedAt, s.received, k));
    }
  }

  /** A handler that failed, or whose socket is no longer the one in use, moves no cursor. */
  lemma SettledAside(s: System, applied: bool)
    requires SystemInv(s) && CanSystem(s, Settle(applied))
    requires Ignored(s.client, s.client.running.value.socket) || !applied
    ensures SystemInv(AfterSystem(s, Settle(applied)))
  {
    var t := AfterSystem(s, Settle(applied));
    forall sequence | 1 <= sequence <= t.client.cursor
      ensures Covered(t, sequence)
    {
      assert Covered(s, sequence);
    }
  }

  lemma CursorCovered(s: System, t: System, frame: Frame, reached: nat)
    requires forall sequence :: 1 <= sequence <= s.client.cursor ==> Covered(s, sequence)
    requires reached <= MAX_SAFE_INTEGER ==> s.client.cursor == reached
    requires Follows(s.history, reached, frame)
    requires t == AfterHandled(s.(client := t.client), frame, true, false)
    requires t.client.cursor == CursorAfter(s.client.cursor, frame)
    ensures forall sequence :: 1 <= sequence <= t.client.cursor ==> Covered(t, sequence)
  {
    forall sequence | 1 <= sequence <= t.client.cursor
      ensures Covered(t, sequence)
    {
      assert sequence <= s.client.cursor ==> Covered(s, sequence);
      if frame.Resync? && sequence <= NormalizeSequence(frame.target) {
        assert frame.target in t.snapshots;
      }
    }
  }

  /** Nothing the page has applied or knew is lost, and the cursor stays or stands on the same ground. */
  lemma CoverageKept(s: System, t: System)
    requires forall sequence :: 1 <= sequence <= s.client.cursor ==> Covered(s, sequence)
    requires t.client.cursor == s.client.cursor
    requires t.known == s.known && s.applied <= t.applied && s.snapshots <= t.snapshots
    ensures forall sequence :: 1 <= sequence <= t.client.cursor ==> Covered(t, sequence)
  {
    forall sequence | 1 <= sequence <= t.client.cursor
      ensures Covered(t, sequence)
    {
      assert Covered(s, sequence);
    }
  }

  lemma ReopenKeeps(s: System)
    requires SystemInv(s) && CanSystem(s, Reopen)
    ensures SystemInv(AfterSystem(s, Reopen))
  {
    CoverageKept(s, AfterSystem(s, Reopen));
    NoneWaiting(s.client.queue, s.client.socket + 1);
  }

  lemma ReceiveKeeps(s: System, frame: Frame)
    requires SystemInv(s) && CanSystem(s, Receive(frame))
    ensures SystemInv(AfterSystem(s, Receive(frame)))
  {
    var t := AfterSystem(s, Receive(frame));
    CoverageKept(s, t);
    assert t.client.queue[..|t.client.queue| - 1] == s.client.queue;
    assert Unhandled(t.client) == Unhandled(s.client) + [frame];
  }

  lemma ReceiveStaleKeeps(s: System, socket: nat, frame: Frame)
    requires SystemInv(s) && CanSystem(s, ReceiveStale(socket, frame))
    ensures SystemInv(AfterSystem(s, ReceiveStale(socket, frame)))
  {
    var t := AfterSystem(s, ReceiveStale(socket, frame));
    CoverageKept(s, t);
    assert t.client.queue[..|t.client.queue| - 1] == s.client.queue;
  }

  lemma TakeKeeps(s: System)
    requires SystemInv(s) && CanSystem(s, Take)
    ensures SystemInv(AfterSystem(s, Take))
  {
    CoverageKept(s, AfterSystem(s, Take));
    WaitingFirst(s.client.queue, s.client.socket);
  }

  lemma CommitKeeps(s: System, event: Event)
    requires SystemInv(s) && CanSystem(s, Commit(event))
    ensures SystemInv(AfterSystem(s, Commit(event)))
  {
    CoverageKept(s, AfterSystem(s, Commit(event)));
    forall k | 0 <= k < |s.received|
      ensures FrameFits(s.history + [event], s.openedAt, s.received, k)
    {
      assert FrameFits(s.history, s.openedAt, s.received, k);
    }
  }

  lemma SystemStepKeeps(s: System, step: SystemStep)
    requires SystemInv(s) && CanSystem(s, step)
    ensures SystemInv(AfterSystem(s, step))
  {
    match step
    case Commit(event) => CommitKeeps(s, event);
    case Reopen => ReopenKeeps(s);
    case Receive(frame) => ReceiveKeeps(s, frame);
    case ReceiveStale(socket, frame) => ReceiveStaleKeeps(s, socket, frame);
    case Take => TakeKeeps(s);
    case Settle(applied) => SettleKeeps(s, applied);
    case _ => CoverageKept(s, AfterSystem(s, step));
  }

  ghost predicate SystemNext(s: System, t: System) {
    exists step :: CanSystem(s, step) && t == AfterSystem(s, step)
  }

  ghost predicate SystemRun(states: seq<System>) {
    && |states| > 0 && InitialSystem(states[0])
    && forall j, k :: 0 <= j < k < |states| && k == j + 1 ==> SystemNext(states[j], states[k])
  }

  /**
   * At least once, end to end: across any number of reconnects, failed handlers and stale sockets, the cursor has
   * passed an event only if the page knew it at the start, applied it, or reconciled a snapshot at or beyond it.
   */
  lemma {:induction false} NoEventIsSkipped(states: seq<System>, k: nat)
    requires SystemRun(states) && k < |states|
    ensures SystemInv(states[k])
    ensures forall sequence :: 1 <= sequence <= states[k].client.cursor ==> Covered(states[k], sequence)
  {
    if k == 0 {
      InitialSystemInv(states[0]);
    } else {
      NoEventIsSkipped(states, k - 1);
      assert SystemNext(states[k - 1], states[k]);
      var step :| CanSystem(states[k - 1], step) && states[k] == AfterSystem(states[k - 1], step);
      SystemStepKeeps(states[k - 1], step);
    }
  }

  /** Once the queue of a healthy socket is empty the cursor is where the server's last frame left it. */
  lemma CaughtUp(s: System)
    requires SystemInv(s) && !s.client.failed && !s.client.stopped
    requires s.client.running.None? && s.client.queue == []
    requires Before(s.openedAt, s.received, |s.received|) <= MAX_SAFE_INTEGER
    ensures s.client.cursor == Before(s.openedAt, s.received, |s.received|)
  {
    assert Unhandled(s.client) == [];
  }
}
