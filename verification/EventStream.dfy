/**
 * One connection beside everything that happens meanwhile: events are committed and trimmed, their broadcasts
 * arrive in any order, late, repeatedly or never, while events_ws replays the log page by page.
 */
module EventStream {
  import opened Common
  import opened EventLog
  import opened Delivery

  /** Where events_ws stands: before a turn of its loop, in the middle of a page, after the loop, receiving, gone. */
  datatype Handler =
    | Turning(cursor: nat, target: nat)
    | Sending(page: seq<Event>, next: nat, target: nat)
    | Done(target: nat)
    | Live
    | Closed

  /** The log is the history without its first `floor` events. */
  datatype Stream = Stream(history: seq<Event>, floor: nat, fetches: bool, after: nat, conn: Connection, handler: Handler)

  datatype StreamStep =
    | Commit(event: Event)
    | TrimTo(floor: nat)
    | Broadcast(sequence: nat)
    | Turn
    | SendNext
    | Finish
    | Close

  /** event["sequence"] <= replay_target */
  function UpTo(events: seq<Event>, target: nat): seq<Event> {
    if events == [] then []
    else
      var kept := UpTo(events[..|events| - 1], target);
      if events[|events| - 1].sequence <= target then kept + [events[|events| - 1]] else kept
  }

  /** A socket is accepted: its cursor may lie beyond the log, when the server's data was replaced. */
  ghost function Opened(history: seq<Event>, floor: nat, fetches: bool, after: nat): Stream {
    var latest := |history|;
    var opening := Connection(after, true, map[], 0, []);
    if after > latest then Stream(history, floor, fetches, after, Resynced(opening, latest, true), Turning(latest, latest))
    else Stream(history, floor, fetches, after, opening, Turning(after, latest))
  }

  ghost predicate CanStream(s: Stream, step: StreamStep) {
    match step
    case Commit(event) => event.sequence == |s.history| + 1
    case TrimTo(floor) => s.floor <= floor && floor < |s.history|
    case Broadcast(sequence) => 1 <= sequence <= |s.history| && !s.handler.Closed?
    case Turn => s.handler.Turning? && s.floor <= |s.history|
    case SendNext => s.handler.Sending? && s.handler.next < |s.handler.page|
    case Finish => s.handler.Done?
    case Close => true
  }

  /** The answer of fetch_missing to a connection that has it, for what follows an event. */
  ghost function Asked(history: seq<Event>, floor: nat, fetches: bool, last: nat): Option<Window>
    requires floor <= |history|
  {
    if fetches then Some(WindowOf(history, floor, last, PENDING_LIMIT)) else None
  }

  /** The answer of fetch_missing when this connection asks for what follows its last event. */
  ghost function Missing(s: Stream, c: Connection): Option<Window>
    requires s.floor <= |s.history|
  {
    Asked(s.history, s.floor, s.fetches, c.last)
  }

  /** One turn of the replay loop up to its first frame. */
  ghost function AfterTurn(s: Stream): Stream
    requires s.handler.Turning? && s.floor <= |s.history|
  {
    var cursor, target := s.handler.cursor, s.handler.target;
    if cursor >= target then s.(handler := Done(target))
    else
      var window := WindowOf(s.history, s.floor, cursor, PAGE_LIMIT);
      if cursor < window.earliest - 1 then s.(conn := Resynced(s.conn, target, false), handler := Done(target))
      else
        var page := UpTo(window.events, target);
        if page == [] then s.(handler := Done(target)) else s.(handler := Sending(page, 0, target))
  }

  ghost function AfterSend(s: Stream): Stream
    requires s.handler.Sending? && s.handler.next < |s.handler.page|
  {
    var page, next, target := s.handler.page, s.handler.next, s.handler.target;
    s.(conn := Replayed(s.conn, page[next]),
       handler := if next + 1 == |page| then Turning(page[next].sequence, target) else Sending(page, next + 1, target))
  }

  ghost function AfterBroadcast(s: Stream, sequence: nat): Stream
    requires 1 <= sequence <= |s.history| && s.floor <= |s.history|
  {
    var event := s.history[sequence - 1];
    s.(conn := QueuedLive(s.conn, event, Missing(s, Buffered(s.conn, event))))
  }

  ghost function AfterStream(s: Stream, step: StreamStep): Stream
    requires CanStream(s, step) && s.floor <= |s.history|
  {
    match step
    case Commit(event) => s.(history := s.history + [event])
    case TrimTo(floor) => s.(floor := floor)
    case Broadcast(sequence) => AfterBroadcast(s, sequence)
    case Turn => AfterTurn(s)
    case SendNext => AfterSend(s)
    case Finish => s.(conn := FinishedReplay(s.conn, s.handler.target), handler := Live)
    case Close => s.(handler := Closed)
  }

  // ---- Invariant ----

  ghost predicate LogFits(s: Stream) {
    Numbered(s.history) && s.floor <= |s.history| && (|s.history| > 0 ==> s.floor < |s.history|)
  }

  /** The buffer holds committed events that were not sent yet. */
  ghost predicate PendingFits(history: seq<Event>, c: Connection) {
    forall k :: k in c.pending ==> c.last < k <= |history| && c.pending[k] == history[k - 1]
  }

  /** The frames so far are gap-free and end where the connection stands. */
  ghost predicate SentFits(history: seq<Event>, after: nat, c: Connection) {
    && GapFree(history, after, c.sent)
    && Before(after, c.sent, |c.sent|) == c.last <= |history|
  }

  ghost predicate HandlerFits(s: Stream) {
    match s.handler
    case Turning(cursor, target) => s.conn.replaying && cursor == s.conn.last <= target <= |s.history|
    case Sending(page, next, target) =>
      && s.conn.replaying && next < |page| && s.conn.last + (|page| - next) <= target <= |s.history|
      && forall k :: next <= k < |page| ==> s.conn.last + k - next < |s.history| && page[k] == s.history[s.conn.last + k - next]
    case Done(target) => s.conn.replaying && s.conn.last == target <= |s.history|
    case Live => !s.conn.replaying && s.conn.last + 1 !in s.conn.pending
    case Closed => true
  }

  ghost predicate ConnFits(history: seq<Event>, after: nat, c: Connection) {
    && PendingFits(history, c) && |c.pending| <= PENDING_LIMIT
    && (!c.replaying ==> c.overflow == 0) && c.overflow <= |history|
    && SentFits(history, after, c)
  }

  ghost predicate StreamInv(s: Stream) {
    LogFits(s) && ConnFits(s.history, s.after, s.conn) && HandlerFits(s)
  }

  lemma OpenedInv(history: seq<Event>, floor: nat, fetches: bool, after: nat)
    requires Numbered(history) && floor <= |history| && (|history| > 0 ==> floor < |history|)
    ensures StreamInv(Opened(history, floor, fetches, after))
  {
  }

  // ---- The operations keep it ----

  lemma ResyncKeeps(history: seq<Event>, after: nat, c: Connection, target: nat)
    requires PendingFits(history, c) && SentFits(history, after, c) && c.last <= target <= |history|
    ensures var d := Resynced(c, target, false);
            && PendingFits(history, d) && SentFits(history, after, d)
            && d.pending.Keys <= c.pending.Keys
            && (target == |history| ==> d.pending == map[])
  {
    FrameAppended(history, after, c.sent, Resync(target, false));
  }

  lemma Fewer(m: map<nat, Event>, n: map<nat, Event>)
    requires m.Keys <= n.Keys
    ensures |m| <= |n|
  {
    FewerKeys(m.Keys, n.Keys);
    assert |m| == |m.Keys| && |n| == |n.Keys|;
  }

  lemma {:induction false} FewerKeys(s: set<nat>, t: set<nat>)
    requires s <= t
    ensures |s| <= |t|
    decreases |s|
  {
    SomeElement(s);
    if s != {} {
      var e :| e in s;
      FewerKeys(s - {e}, t - {e});
    }
  }

  /** Flushing takes the run of buffered events that follows, keeps the rest, and stops only at a missing one. */
  lemma {:induction false} FlushLeaves(c: Connection)
    requires forall k :: k in c.pending ==> c.last < k
    ensures var d := Flushed(c);
            && d.pending == Above(c.pending, d.last) && d.last + 1 !in d.pending
            && c.last <= d.last && c.replaying == d.replaying && c.overflow == d.overflow
            && forall k :: c.last < k <= d.last ==> k in c.pending
    decreases |c.pending|
  {
    var sequence := c.last + 1;
    if sequence in c.pending {
      var next := c.(last := sequence, pending := c.pending - {sequence}, sent := c.sent + [Deliver(c.pending[sequence])]);
      FlushLeaves(next);
      forall k | c.last < k <= Flushed(c).last
        ensures k in c.pending
      {
        assert k > sequence ==> k in next.pending;
      }
      assert Above(c.pending, Flushed(c).last) == Above(next.pending, Flushed(c).last);
    } else {
      assert c.pending == Above(c.pending, c.last);
    }
  }

  lemma {:induction false} FlushKeeps(history: seq<Event>, after: nat, c: Connection)
    requires Numbered(history)
    requires PendingFits(history, c) && SentFits(history, after, c)
    ensures PendingFits(history, Flushed(c)) && SentFits(history, after, Flushed(c))
    decreases |c.pending|
  {
    var sequence := c.last + 1;
    if sequence in c.pending {
      var event := c.pending[sequence];
      assert event == history[c.last];
      var d := c.(last := sequence, pending := c.pending - {sequence}, sent := c.sent + [Deliver(event)]);
      SentNext(history, after, c, d);
      FlushKeeps(history, after, d);
    }
  }

  lemma {:induction false} MergeKeeps(history: seq<Event>, c: Connection, events: seq<Event>, low: nat)
    requires PendingFits(history, c) && c.last <= low && low + |events| <= |history| && Numbered(history)
    requires events == history[low..low + |events|]
    ensures var d := c.(pending := Merged(c.pending, c.last, events));
            && PendingFits(history, d)
            && forall k :: k in d.pending <==> k in c.pending || low < k <= low + |events|
    decreases |events|
  {
    if events != [] {
      var n := |events| - 1;
      assert events[..n] == history[low..low + n];
      MergeKeeps(history, c, events[..n], low);
      MergeOne(history, c, Merged(c.pending, c.last, events[..n]), low + n);
    }
  }

  lemma MergeOne(history: seq<Event>, c: Connection, merged: map<nat, Event>, at: nat)
    requires Numbered(history) && c.last <= at < |history| && PendingFits(history, c.(pending := merged))
    ensures var event := history[at];
            && event.sequence == at + 1 > c.last
            && PendingFits(history, c.(pending := merged[event.sequence := event]))
            && (event.sequence in merged ==> merged[event.sequence := event] == merged)
  {
  }

  lemma FetchedRunIsSent(history: seq<Event>, floor: nat, after: nat, c: Connection)
    requires Numbered(history) && floor <= c.last <= |history|
    requires PendingFits(history, c) && SentFits(history, after, c)
    ensures var d := Flushed(c.(pending := Merged(c.pending, c.last, WindowOf(history, floor, c.last, PENDING_LIMIT).events)));
            && PendingFits(history, d) && SentFits(history, after, d)
            && d.replaying == c.replaying && d.overflow == c.overflow
            && d.pending.Keys <= c.pending.Keys
            && d.last >= Min(c.last + PENDING_LIMIT, |history|)
  {
    var window := WindowOf(history, floor, c.last, PENDING_LIMIT);
    var merged := c.(pending := Merged(c.pending, c.last, window.events));
    MergeKeeps(history, c, window.events, c.last);
    FlushKeeps(history, after, merged);
    FlushLeaves(merged);
    assert Flushed(merged).last + 1 !in merged.pending;
  }

  /**
   * Backfill drains. Asked when the next event is missing, with the whole log to fetch from: everything committed
   * is then sent, or covered by the demand to resynchronise, unless more than one page is outstanding; then at
   * least a page is sent.
   */
  lemma BackfillDrains(history: seq<Event>, floor: nat, after: nat, c: Connection)
    requires Numbered(history) && floor <= |history|
    requires PendingFits(history, c) && SentFits(history, after, c)
    requires c.last + 1 !in c.pending
    ensures var d := Backfilled(c, Some(WindowOf(history, floor, c.last, PENDING_LIMIT)));
            && PendingFits(history, d) && SentFits(history, after, d)
            && d.replaying == c.replaying && d.overflow == c.overflow
            && d.pending.Keys <= c.pending.Keys
            && (c.last < floor || |history| - c.last <= PENDING_LIMIT ==> d.last == |history| && d.pending == map[])
            && (c.last >= floor && |history| - c.last > PENDING_LIMIT ==> d.last >= c.last + PENDING_LIMIT)
  {
    if c.last < floor {
      ResyncKeeps(history, after, c, |history|);
      FlushKeeps(history, after, Resynced(c, |history|, false));
      FlushLeaves(Resynced(c, |history|, false));
    } else {
      FetchedRunIsSent(history, floor, after, c);
    }
  }

  lemma BackfillKeeps(history: seq<Event>, floor: nat, after: nat, c: Connection, window: Option<Window>)
    requires Numbered(history) && floor <= |history|
    requires PendingFits(history, c) && SentFits(history, after, c)
    requires window.Some? ==> window.value == WindowOf(history, floor, c.last, PENDING_LIMIT)
    ensures var d := Backfilled(c, window);
            && PendingFits(history, d) && SentFits(history, after, d)
            && d.replaying == c.replaying && d.overflow == c.overflow
            && d.pending.Keys <= c.pending.Keys
  {
    if c.last + 1 in c.pending || window.None? {
      FlushKeeps(history, after, c);
      FlushLeaves(c);
    } else {
      BackfillDrains(history, floor, after, c);
    }
  }

  lemma {:induction false} MergedIsBeyond(pending: map<nat, Event>, last: nat, events: seq<Event>)
    requires forall k :: k in pending ==> last < k
    ensures forall k :: k in Merged(pending, last, events) ==> last < k
    decreases |events|
  {
    if events != [] {
      MergedIsBeyond(pending, last, events[..|events| - 1]);
    }
  }

  /** Whatever is fetched: nothing that could be sent next stays in the buffer. */
  lemma BackfillIsDrained(c: Connection, window: Option<Window>)
    requires forall k :: k in c.pending ==> c.last < k
    ensures Backfilled(c, window).last + 1 !in Backfilled(c, window).pending
  {
    if c.last + 1 in c.pending || window.None? {
      FlushLeaves(c);
    } else if window.value.latest != 0 && c.last < window.value.earliest - 1 {
      FlushLeaves(Resynced(c, window.value.latest, false));
    } else {
      MergedIsBeyond(c.pending, c.last, window.value.events);
      FlushLeaves(c.(pending := Merged(c.pending, c.last, window.value.events)));
    }
  }

  lemma QueueIsDrained(c: Connection, event: Event, window: Option<Window>)
    requires !c.replaying && c.last + 1 !in c.pending && forall k :: k in c.pending ==> c.last < k
    ensures QueuedLive(c, event, window).last + 1 !in QueuedLive(c, event, window).pending
  {
    if event.sequence > c.last {
      BackfillIsDrained(Buffered(c, event), window);
    }
  }

  lemma BufferKeeps(history: seq<Event>, after: nat, c: Connection, sequence: nat)
    requires Numbered(history) && ConnFits(history, after, c) && c.last < sequence <= |history|
    ensures ConnFits(history, after, Buffered(c, history[sequence - 1]))
  {
  }

  lemma QueueKeeps(history: seq<Event>, floor: nat, after: nat, c: Connection, sequence: nat, window: Option<Window>)
    requires Numbered(history) && floor <= |history| && ConnFits(history, after, c) && 1 <= sequence <= |history|
    requires window.Some? ==> window.value == WindowOf(history, floor, c.last, PENDING_LIMIT)
    ensures var d := QueuedLive(c, history[sequence - 1], window);
            && ConnFits(history, after, d) && d.replaying == c.replaying && (c.replaying ==> d.last == c.last)
  {
    if sequence > c.last {
      var buffered := Buffered(c, history[sequence - 1]);
      BufferKeeps(history, after, c, sequence);
      if !c.replaying {
        BackfillKeeps(history, floor, after, buffered, window);
        Fewer(Backfilled(buffered, window).pending, buffered.pending);
      }
    }
  }

  lemma BroadcastFits(s: Stream, sequence: nat)
    requires StreamInv(s) && 1 <= sequence <= |s.history|
    ensures ConnFits(s.history, s.after, AfterBroadcast(s, sequence).conn)
  {
    var event := s.history[sequence - 1];
    QueueKeeps(s.history, s.floor, s.after, s.conn, sequence, Missing(s, Buffered(s.conn, event)));
  }

  lemma ReplayStays(s: Stream, sequence: nat)
    requires 1 <= sequence <= |s.history| && s.floor <= |s.history| && s.conn.replaying
    ensures AfterBroadcast(s, sequence).conn.replaying && AfterBroadcast(s, sequence).conn.last == s.conn.last
  {
  }

  lemma LiveStays(s: Stream, sequence: nat)
    requires StreamInv(s) && 1 <= sequence <= |s.history| && s.handler.Live?
    ensures !AfterBroadcast(s, sequence).conn.replaying
  {
    QueueKeeps(s.history, s.floor, s.after, s.conn, sequence, Missing(s, Buffered(s.conn, s.history[sequence - 1])));
  }

  lemma LiveIsHandled(s: Stream, d: Connection)
    requires s.handler.Live? && !d.replaying && d.last + 1 !in d.pending
    ensures HandlerFits(s.(conn := d))
  {
  }

  lemma ReplayIsHandled(s: Stream, d: Connection)
    requires HandlerFits(s) && !s.handler.Live? && d.replaying && d.last == s.conn.last
    ensures HandlerFits(s.(conn := d))
  {
  }

  lemma BroadcastIsHandled(s: Stream, sequence: nat)
    requires StreamInv(s) && 1 <= sequence <= |s.history| && !s.handler.Closed?
    ensures HandlerFits(s.(conn := AfterBroadcast(s, sequence).conn))
  {
    var d := AfterBroadcast(s, sequence).conn;
    if s.handler.Live? {
      LiveStays(s, sequence);
      BroadcastIsDrained(s, sequence);
      LiveIsHandled(s, d);
    } else {
      ReplayStays(s, sequence);
      ReplayIsHandled(s, d);
    }
  }

  lemma BroadcastKeeps(s: Stream, sequence: nat)
    requires StreamInv(s) && 1 <= sequence <= |s.history| && !s.handler.Closed?
    ensures StreamInv(AfterBroadcast(s, sequence))
  {
    BroadcastFits(s, sequence);
    BroadcastIsHandled(s, sequence);
  }

  lemma {:induction false} PageUpTo(history: seq<Event>, events: seq<Event>, low: nat, target: nat)
    requires Numbered(history) && low + |events| <= |history| && events == history[low..low + |events|]
    ensures UpTo(events, target) == history[low..low + Min(|events|, Max(0, target - low))]
    decreases |events|
  {
    if events != [] {
      var n := |events| - 1;
      assert events[..n] == history[low..low + n] && events[n] == history[low + n];
      PageUpTo(history, events[..n], low, target);
      OneLonger(history, low, low + n);
    }
  }

  lemma DemandKeeps(history: seq<Event>, after: nat, c: Connection, target: nat)
    requires ConnFits(history, after, c) && c.last <= target <= |history|
    ensures ConnFits(history, after, Resynced(c, target, false))
  {
    ResyncKeeps(history, after, c, target);
    Fewer(Above(c.pending, target), c.pending);
  }

  /** A page of the log before the target is never empty and holds exactly the next events. */
  lemma PageFits(history: seq<Event>, floor: nat, cursor: nat, target: nat)
    requires Numbered(history) && floor <= cursor < target <= |history|
    ensures var page := UpTo(WindowOf(history, floor, cursor, PAGE_LIMIT).events, target);
            |page| == Min(PAGE_LIMIT, target - cursor) && page == history[cursor..cursor + |page|]
  {
    PageUpTo(history, WindowOf(history, floor, cursor, PAGE_LIMIT).events, cursor, target);
  }

  /** The loop always has a page to send, or resynchronises: it never falls through with events left out. */
  lemma TurnKeeps(s: Stream)
    requires StreamInv(s) && CanStream(s, Turn)
    ensures StreamInv(AfterTurn(s))
    ensures AfterTurn(s).handler.Done? ==> AfterTurn(s).conn.last == s.handler.target
  {
    var cursor, target := s.handler.cursor, s.handler.target;
    if cursor < target {
      if cursor < s.floor {
        DemandKeeps(s.history, s.after, s.conn, target);
      } else {
        PageFits(s.history, s.floor, cursor, target);
        PageEntered(s);
      }
    }
  }

  lemma PageEntered(s: Stream)
    requires LogFits(s) && s.handler.Turning? && HandlerFits(s) && s.floor <= s.handler.cursor < s.handler.target
    requires var page := UpTo(WindowOf(s.history, s.floor, s.handler.cursor, PAGE_LIMIT).events, s.handler.target);
             0 < |page| <= s.handler.target - s.handler.cursor
             && page == s.history[s.handler.cursor..s.handler.cursor + |page|]
    ensures AfterTurn(s).handler.Sending? && HandlerFits(AfterTurn(s)) && AfterTurn(s).conn == s.conn
  {
  }

  lemma PendingWithout(history: seq<Event>, c: Connection, d: Connection)
    requires PendingFits(history, c) && |c.pending| <= PENDING_LIMIT && c.last < |history|
    requires d.last == c.last + 1 && d.pending == c.pending - {c.last + 1}
    ensures PendingFits(history, d) && |d.pending| <= PENDING_LIMIT
  {
    Fewer(d.pending, c.pending);
  }

  lemma SentNext(history: seq<Event>, after: nat, c: Connection, d: Connection)
    requires Numbered(history) && SentFits(history, after, c) && c.last < |history|
    requires d.last == c.last + 1 && d.sent == c.sent + [Deliver(history[c.last])]
    ensures SentFits(history, after, d)
  {
    FrameAppended(history, after, c.sent, Deliver(history[c.last]));
  }

  lemma ReplayedNext(history: seq<Event>, c: Connection)
    requires Numbered(history) && c.last < |history|
    ensures Replayed(c, history[c.last])
         == c.(sent := c.sent + [Deliver(history[c.last])], last := c.last + 1, pending := c.pending - {c.last + 1})
  {
  }

  lemma ReplayKeeps(history: seq<Event>, after: nat, c: Connection)
    requires Numbered(history) && ConnFits(history, after, c) && c.last < |history|
    ensures ConnFits(history, after, Replayed(c, history[c.last])) && Replayed(c, history[c.last]).last == c.last + 1
  {
    var d := c.(sent := c.sent + [Deliver(history[c.last])], last := c.last + 1, pending := c.pending - {c.last + 1});
    ReplayedNext(history, c);
    SentNext(history, after, c, d);
    PendingWithout(history, c, d);
    assert ConnFits(history, after, d);
  }

  lemma SendKeeps(s: Stream)
    requires StreamInv(s) && CanStream(s, SendNext)
    ensures StreamInv(AfterSend(s))
  {
    assert s.handler.page[s.handler.next] == s.history[s.conn.last];
    ReplayKeeps(s.history, s.after, s.conn);
  }

  lemma ReadyKeeps(history: seq<Event>, after: nat, c: Connection)
    requires ConnFits(history, after, c)
    ensures ConnFits(history, after, c.(sent := c.sent + [Ready(c.last)]))
  {
    FrameAppended(history, after, c.sent, Ready(c.last));
  }

  /**
   * The end of the replay. The cursor is already at the target, so taking the maximum skips nothing; after an
   * overflow one resync covers everything buffered or dropped; otherwise the buffered run is sent.
   */
  lemma FinishKeeps(history: seq<Event>, after: nat, c: Connection)
    requires Numbered(history) && ConnFits(history, after, c)
    ensures var d := FinishedReplay(c, c.last);
            && ConnFits(history, after, d) && !d.replaying
            && (c.overflow != 0 ==> d.pending == map[] && d.last >= c.overflow)
  {
    var live := c.(last := Max(c.last, c.last), pending := Above(c.pending, c.last), replaying := false);
    assert live.pending == c.pending;
    if live.overflow != 0 {
      var target := Max(Max(c.last, live.overflow), Greatest(live.pending.Keys));
      DemandKeeps(history, after, live.(overflow := 0), target);
      assert Above(live.pending, target) == map[];
      ReadyKeeps(history, after, Resynced(live.(overflow := 0), target, false));
    } else {
      FlushKeeps(history, after, live);
      FlushLeaves(live);
      Fewer(Flushed(live).pending, live.pending);
      ReadyKeeps(history, after, Flushed(live));
    }
  }

  lemma CommitKeeps(s: Stream, event: Event)
    requires StreamInv(s) && CanStream(s, Commit(event))
    ensures StreamInv(AfterStream(s, Commit(event)))
  {
    LongerLog(s, event);
    LongerFits(s.history, event, s.after, s.conn);
    LongerIsHandled(s, event);
  }

  lemma LongerLog(s: Stream, event: Event)
    requires LogFits(s) && event.sequence == |s.history| + 1
    ensures LogFits(s.(history := s.history + [event]))
  {
  }

  lemma LongerFits(history: seq<Event>, event: Event, after: nat, c: Connection)
    requires ConnFits(history, after, c)
    ensures ConnFits(history + [event], after, c)
  {
    GrownHistory(history, history + [event], after, c.sent);
  }

  lemma LongerIsHandled(s: Stream, event: Event)
    requires HandlerFits(s)
    ensures HandlerFits(s.(history := s.history + [event]))
  {
  }

  lemma GrownHistory(history: seq<Event>, longer: seq<Event>, after: nat, frames: seq<Frame>)
    requires GapFree(history, after, frames) && history <= longer
    ensures GapFree(longer, after, frames)
  {
    forall k | 0 <= k < |frames|
      ensures FrameFits(longer, after, frames, k)
    {
      assert FrameFits(history, after, frames, k);
    }
  }

  lemma TrimKeeps(s: Stream, floor: nat)
    requires StreamInv(s) && CanStream(s, TrimTo(floor))
    ensures StreamInv(AfterStream(s, TrimTo(floor)))
  {
  }

  lemma FinishStepKeeps(s: Stream)
    requires StreamInv(s) && CanStream(s, Finish)
    ensures StreamInv(AfterStream(s, Finish))
  {
    FinishKeeps(s.history, s.after, s.conn);
    FinishIsDrained(s.history, s.conn);
  }

  lemma StreamStepKeeps(s: Stream, step: StreamStep)
    requires StreamInv(s) && CanStream(s, step)
    ensures StreamInv(AfterStream(s, step))
  {
    match step
    case Commit(event) => CommitKeeps(s, event);
    case TrimTo(floor) => TrimKeeps(s, floor);
    case Broadcast(sequence) => BroadcastKeeps(s, sequence);
    case Turn => TurnKeeps(s);
    case SendNext => SendKeeps(s);
    case Finish => FinishStepKeeps(s);
    case Close =>
  }

  // ---- Runs ----

  ghost predicate StreamNext(s: Stream, t: Stream) {
    s.floor <= |s.history| && exists step :: CanStream(s, step) && t == AfterStream(s, step)
  }

  ghost predicate StreamMoves(states: seq<Stream>, k: nat)
    requires 0 < k < |states|
  {
    StreamNext(states[k - 1], states[k])
  }

  ghost predicate StreamRun(states: seq<Stream>) {
    && |states| > 0
    && (exists history: seq<Event>, floor: nat, fetches: bool, after: nat ::
          && Numbered(history) && floor <= |history| && (|history| > 0 ==> floor < |history|)
          && states[0] == Opened(history, floor, fetches, after))
    && forall k :: 0 < k < |states| ==> StreamMoves(states, k)
  }

  lemma {:induction false} StreamRunKeeps(states: seq<Stream>, k: nat)
    requires StreamRun(states) && k < |states|
    ensures StreamInv(states[k])
  {
    if k == 0 {
      var history: seq<Event>, floor: nat, fetches: bool, after: nat :|
        Numbered(history) && floor <= |history| && (|history| > 0 ==> floor < |history|)
        && states[0] == Opened(history, floor, fetches, after);
      OpenedInv(history, floor, fetches, after);
    } else {
      StreamRunKeeps(states, k - 1);
      assert StreamMoves(states, k);
      var step :| CanStream(states[k - 1], step) && states[k] == AfterStream(states[k - 1], step);
      StreamStepKeeps(states[k - 1], step);
    }
  }

  /**
   * Gap-free delivery, over every interleaving of commits, trims, replay pages and broadcasts: each event sent is
   * the successor of what came before it with the content that was committed, and every committed event up to the
   * connection's last one was sent, was known to the client, or is covered by a resync.
   */
  lemma DeliveryIsGapFree(states: seq<Stream>, k: nat, sequence: nat)
    requires StreamRun(states) && k < |states|
    requires 1 <= sequence <= states[k].conn.last
    ensures var s := states[k];
            && GapFree(s.history, s.after, s.conn.sent) && s.conn.last <= |s.history|
            && (|| (sequence <= s.after && !ResetAmong(s.conn.sent))
                || SentAmong(s.conn.sent, s.history[sequence - 1])
                || ResyncAmong(s.conn.sent, sequence))
            && |s.conn.pending| <= PENDING_LIMIT
  {
    StreamRunKeeps(states, k);
    NothingSkipped(states[k].history, states[k].after, states[k].conn.sent, sequence);
  }

  // ---- What every step sends ----

  /** The frames of the events between two positions of the history. */
  function Run(history: seq<Event>, from: nat, to: nat): seq<Frame>
    requires from <= to <= |history|
  {
    seq(to - from, i requires 0 <= i < to - from => Deliver(history[from + i]))
  }

  lemma RunGrows(history: seq<Event>, from: nat, to: nat)
    requires from <= to < |history|
    ensures Run(history, from, to) + [Deliver(history[to])] == Run(history, from, to + 1)
  {
  }

  /** Flushing sends exactly the run of events that it passes. */
  lemma {:induction false} FlushedRun(history: seq<Event>, c: Connection)
    requires Numbered(history) && PendingFits(history, c) && c.last <= |history|
    ensures c.last <= Flushed(c).last <= |history|
    ensures Flushed(c).sent == c.sent + Run(history, c.last, Flushed(c).last)
    decreases |c.pending|
  {
    var next := c.last + 1;
    if next in c.pending {
      var d := c.(last := next, pending := c.pending - {next}, sent := c.sent + [Deliver(c.pending[next])]);
      assert c.pending[next] == history[c.last];
      FlushedRun(history, d);
      RunStarts(c.sent, history, c.last, Flushed(d).last);
    }
  }

  lemma RunAppends(sent: seq<Frame>, history: seq<Event>, from: nat, to: nat)
    requires from <= to < |history|
    ensures (sent + Run(history, from, to)) + [Deliver(history[to])] == sent + Run(history, from, to + 1)
  {
    RunGrows(history, from, to);
  }

  lemma RunsJoin(sent: seq<Frame>, history: seq<Event>, from: nat, middle: nat, to: nat)
    requires from <= middle <= to <= |history|
    ensures (sent + Run(history, from, middle)) + Run(history, middle, to) == sent + Run(history, from, to)
  {
    assert Run(history, from, middle) + Run(history, middle, to) == Run(history, from, to);
  }

  lemma RunStarts(sent: seq<Frame>, history: seq<Event>, from: nat, to: nat)
    requires from < to <= |history|
    ensures (sent + [Deliver(history[from])]) + Run(history, from + 1, to) == sent + Run(history, from, to)
  {
    assert [Deliver(history[from])] + Run(history, from + 1, to) == Run(history, from, to);
  }

  lemma BroadcastIsDrained(s: Stream, n: nat)
    requires 1 <= n <= |s.history| && s.floor <= |s.history| && !s.conn.replaying
    requires s.conn.last + 1 !in s.conn.pending && forall k :: k in s.conn.pending ==> s.conn.last < k
    ensures AfterBroadcast(s, n).conn.last + 1 !in AfterBroadcast(s, n).conn.pending
  {
    QueueIsDrained(s.conn, s.history[n - 1], Missing(s, Buffered(s.conn, s.history[n - 1])));
  }

  lemma FinishIsDrained(history: seq<Event>, c: Connection)
    requires PendingFits(history, c)
    ensures FinishedReplay(c, c.last).last + 1 !in FinishedReplay(c, c.last).pending
  {
    var live := c.(last := Max(c.last, c.last), pending := Above(c.pending, c.last), replaying := false);
    if live.overflow == 0 {
      FlushLeaves(live);
    }
  }

  lemma OneMore(m: map<nat, Event>, n: nat, event: Event)
    requires n !in m
    ensures |m[n := event]| == |m| + 1
  {
    assert m[n := event].Keys == m.Keys + {n};
    assert |m| == |m.Keys| && |m[n := event]| == |m[n := event].Keys|;
  }

  lemma OneFewer(m: map<nat, Event>, k: nat)
    requires k in m
    ensures |m - {k}| == |m| - 1
  {
    assert (m - {k}).Keys == m.Keys - {k};
    assert |m| == |m.Keys| && |m - {k}| == |(m - {k}).Keys|;
  }

  /** One entry too many costs the oldest. */
  lemma OldestGoes(pending: map<nat, Event>)
    requires |pending| == PENDING_LIMIT + 1
    ensures pending.Keys != {} && Bounded(pending) == pending - {Least(pending.Keys)}
  {
    assert |pending| == |pending.Keys|;
    OneFewer(pending, Least(pending.Keys));
  }

  /** With a full buffer behind a gap, the event that would close the gap is itself the oldest, and is dropped. */
  lemma OldestIsDropped(history: seq<Event>, c: Connection, n: nat)
    requires Numbered(history) && PendingFits(history, c) && n == c.last + 1 <= |history| && n !in c.pending
    requires |c.pending| == PENDING_LIMIT && !c.replaying
    ensures Buffered(c, history[n - 1]) == c
  {
    var longer := c.pending[n := history[n - 1]];
    OneMore(c.pending, n, history[n - 1]);
    OldestGoes(longer);
    assert forall k :: k in longer.Keys ==> n <= k;
    assert longer - {n} == c.pending;
  }

  lemma KeptWhole(history: seq<Event>, c: Connection, n: nat)
    requires Numbered(history) && c.last < n <= |history| && n !in c.pending && |c.pending| < PENDING_LIMIT
    ensures Buffered(c, history[n - 1]) == c.(pending := c.pending[n := history[n - 1]])
  {
    OneMore(c.pending, n, history[n - 1]);
  }

  /** What a live connection sends from its buffer, or for a gap from the log. */
  lemma LiveBackfill(history: seq<Event>, floor: nat, after: nat, c: Connection)
    requires Numbered(history) && floor <= |history| && c.last < |history|
    requires PendingFits(history, c) && SentFits(history, after, c) && c.last + 1 !in c.pending
    ensures var d := Backfilled(c, Some(WindowOf(history, floor, c.last, PENDING_LIMIT)));
            if c.last < floor then d.sent == c.sent + [Resync(|history|, false)] && d.last == |history| && d.pending == map[]
            else
              && c.last < d.last <= |history| && d.sent == c.sent + Run(history, c.last, d.last)
              && (d.last == |history| || d.last >= c.last + PENDING_LIMIT)
  {
    var window := WindowOf(history, floor, c.last, PENDING_LIMIT);
    BackfillDrains(history, floor, after, c);
    if c.last < floor {
      assert Above(c.pending, |history|) == map[];
    } else {
      MergeKeeps(history, c, window.events, c.last);
      FlushedRun(history, c.(pending := Merged(c.pending, c.last, window.events)));
    }
  }

  /**
   * What the broadcast of an event beyond its cursor makes a live connection send. The next event goes out at once,
   * with the run that was waiting behind it, unless the buffer is full, which drops it. Otherwise a connection that can
   * fetch closes the gap from the log up to its head or by a page, or demands a resync exactly when the log no longer
   * reaches back to its cursor; one that cannot fetch sends nothing.
   */
  ghost predicate LiveAnswer(history: seq<Event>, floor: nat, fetches: bool, c: Connection, n: nat, d: Connection)
    requires c.last < n <= |history|
  {
    if n == c.last + 1 && |c.pending| < PENDING_LIMIT then
      && n <= d.last <= |history| && d.sent == c.sent + Run(history, c.last, d.last)
      && (forall k :: n < k <= d.last ==> k in c.pending) && d.last + 1 !in c.pending
    else if !fetches then d.sent == c.sent && d.last == c.last
    else if c.last < floor then d.sent == c.sent + [Resync(|history|, false)] && d.last == |history| && d.pending == map[]
    else
      && c.last < d.last <= |history| && d.sent == c.sent + Run(history, c.last, d.last)
      && (d.last == |history| || d.last >= c.last + PENDING_LIMIT)
  }

  lemma LiveBroadcast(s: Stream, n: nat, d: Connection)
    requires StreamInv(s) && s.handler.Live? && s.conn.last < n <= |s.history| && d == AfterBroadcast(s, n).conn
    ensures LiveAnswer(s.history, s.floor, s.fetches, s.conn, n, d)
  {
    BroadcastAsks(s, n);
    QueueIsAnswered(s.history, s.floor, s.fetches, s.after, s.conn, n, d);
  }

  lemma BroadcastAsks(s: Stream, n: nat)
    requires 1 <= n <= |s.history| && s.floor <= |s.history|
    ensures AfterBroadcast(s, n).conn == QueuedLive(s.conn, s.history[n - 1], Asked(s.history, s.floor, s.fetches, s.conn.last))
  {
  }

  lemma QueueIsAnswered(history: seq<Event>, floor: nat, fetches: bool, after: nat, c: Connection, n: nat, d: Connection)
    requires Numbered(history) && floor <= |history| && ConnFits(history, after, c)
    requires c.last < n <= |history| && c.last + 1 !in c.pending && !c.replaying
    requires d == QueuedLive(c, history[n - 1], Asked(history, floor, fetches, c.last))
    ensures LiveAnswer(history, floor, fetches, c, n, d)
  {
    if n == c.last + 1 && |c.pending| < PENDING_LIMIT {
      NextIsAnswered(history, floor, fetches, c, Asked(history, floor, fetches, c.last));
    } else {
      GapIsAnswered(history, floor, fetches, after, c, n);
    }
  }

  lemma NextIsAnswered(history: seq<Event>, floor: nat, fetches: bool, c: Connection, window: Option<Window>)
    requires Numbered(history) && PendingFits(history, c) && c.last < |history| && c.last + 1 !in c.pending
    requires |c.pending| < PENDING_LIMIT && !c.replaying
    ensures LiveAnswer(history, floor, fetches, c, c.last + 1, QueuedLive(c, history[c.last], window))
  {
    var n := c.last + 1;
    var buffered := c.(pending := c.pending[n := history[c.last]]);
    KeptWhole(history, c, n);
    assert QueuedLive(c, history[c.last], window) == Flushed(buffered);
    NextIsSent(history, c, buffered);
    NextIsFollowed(c, history[c.last], buffered, Flushed(buffered));
  }

  lemma NextIsSent(history: seq<Event>, c: Connection, b: Connection)
    requires Numbered(history) && PendingFits(history, c) && c.last < |history|
    requires b == c.(pending := c.pending[c.last + 1 := history[c.last]])
    ensures Flushed(b).last <= |history| && c.last <= Flushed(b).last
    ensures Flushed(b).sent == c.sent + Run(history, c.last, Flushed(b).last)
  {
    FlushedRun(history, b);
  }

  lemma NextIsFollowed(c: Connection, event: Event, b: Connection, d: Connection)
    requires (forall k :: k in c.pending ==> c.last < k) && d == Flushed(b)
    requires b == c.(pending := c.pending[c.last + 1 := event])
    ensures c.last < d.last && (forall k :: c.last + 1 < k <= d.last ==> k in c.pending) && d.last + 1 !in c.pending
  {
    FlushTakes(b);
    forall k | c.last + 1 < k <= d.last
      ensures k in c.pending
    {
      assert k in b.pending;
    }
  }

  lemma FlushTakes(c: Connection)
    requires (forall k :: k in c.pending ==> c.last < k) && c.last + 1 in c.pending
    ensures var d := Flushed(c);
            c.last < d.last && d.last + 1 !in c.pending && forall k :: c.last < k <= d.last ==> k in c.pending
  {
    FlushLeaves(c);
  }

  lemma GapIsAnswered(history: seq<Event>, floor: nat, fetches: bool, after: nat, c: Connection, n: nat)
    requires Numbered(history) && floor <= |history| && PendingFits(history, c) && |c.pending| <= PENDING_LIMIT
    requires SentFits(history, after, c) && c.last < n <= |history| && c.last + 1 !in c.pending && !c.replaying
    requires n == c.last + 1 ==> |c.pending| == PENDING_LIMIT
    ensures LiveAnswer(history, floor, fetches, c, n,
                       QueuedLive(c, history[n - 1], Asked(history, floor, fetches, c.last)))
  {
    var buffered := Buffered(c, history[n - 1]);
    if n == c.last + 1 {
      OldestIsDropped(history, c, n);
    }
    GapStays(history, c, n);
    BufferFits(history, after, c, n);
    BufferedGap(history, floor, fetches, after, c, n, buffered);
  }

  lemma BufferFits(history: seq<Event>, after: nat, c: Connection, n: nat)
    requires Numbered(history) && PendingFits(history, c) && SentFits(history, after, c) && c.last < n <= |history|
    ensures PendingFits(history, Buffered(c, history[n - 1])) && SentFits(history, after, Buffered(c, history[n - 1]))
  {
  }

  lemma BufferedGap(history: seq<Event>, floor: nat, fetches: bool, after: nat, c: Connection, n: nat, b: Connection)
    requires Numbered(history) && floor <= |history| && c.last < n <= |history| && (n == c.last + 1 ==> |c.pending| >= PENDING_LIMIT)
    requires PendingFits(history, b) && SentFits(history, after, b) && b.last == c.last && b.sent == c.sent && b.last + 1 !in b.pending
    ensures LiveAnswer(history, floor, fetches, c, n,
                       Backfilled(b, Asked(history, floor, fetches, c.last)))
  {
    if fetches {
      LiveBackfill(history, floor, after, b);
    } else {
      NothingToFlush(b);
    }
  }

  lemma NothingToFlush(c: Connection)
    requires c.last + 1 !in c.pending
    ensures Backfilled(c, None) == c
  {
  }

  lemma GapStays(history: seq<Event>, c: Connection, n: nat)
    requires Numbered(history) && PendingFits(history, c) && c.last < n <= |history| && c.last + 1 !in c.pending
    requires n == c.last + 1 ==> Buffered(c, history[n - 1]) == c
    ensures var d := Buffered(c, history[n - 1]); c.last + 1 !in d.pending && d.last == c.last && d.sent == c.sent
  {
  }

  /** Over every run: what each broadcast beyond its cursor makes a live connection send, and that nothing sendable stays. */
  lemma LiveEventsAreAnswered(states: seq<Stream>, k: nat, n: nat)
    requires StreamRun(states) && k < |states| && states[k].handler.Live?
    requires states[k].conn.last < n <= |states[k].history|
    ensures var s := states[k];
            && s.floor <= |s.history| && LiveAnswer(s.history, s.floor, s.fetches, s.conn, n, AfterBroadcast(s, n).conn)
            && AfterBroadcast(s, n).conn.last + 1 !in AfterBroadcast(s, n).conn.pending
  {
    StreamRunKeeps(states, k);
    var s := states[k];
    assert AfterBroadcast(s, n).conn.last + 1 !in AfterBroadcast(s, n).conn.pending by {
      BroadcastIsDrained(s, n);
    }
    LiveBroadcast(s, n, AfterBroadcast(s, n).conn);
  }

  /** The broadcast of the next event is answered with it, exactly unless the buffer is full and the log cannot supply it. */
  lemma NextEventIsSent(states: seq<Stream>, k: nat)
    requires StreamRun(states) && k < |states| && states[k].handler.Live?
    requires states[k].conn.last < |states[k].history|
    ensures var s := states[k];
            && s.floor <= |s.history|
            && var sent := AfterBroadcast(s, s.conn.last + 1).conn.sent;
               && s.conn.sent <= sent
               && (SentAmong(sent[|s.conn.sent|..], s.history[s.conn.last]) <==>
                     |s.conn.pending| < PENDING_LIMIT || (s.fetches && s.floor <= s.conn.last))
  {
    var s := states[k];
    LiveEventsAreAnswered(states, k, s.conn.last + 1);
    AnswerHasTheNext(s.history, s.floor, s.fetches, s.conn, AfterBroadcast(s, s.conn.last + 1).conn);
  }

  lemma AnswerHasTheNext(history: seq<Event>, floor: nat, fetches: bool, c: Connection, d: Connection)
    requires c.last < |history| && LiveAnswer(history, floor, fetches, c, c.last + 1, d)
    ensures c.sent <= d.sent
    ensures SentAmong(d.sent[|c.sent|..], history[c.last]) <==> |c.pending| < PENDING_LIMIT || (fetches && floor <= c.last)
  {
    if |c.pending| < PENDING_LIMIT || (fetches && floor <= c.last) {
      assert d.sent[|c.sent|..] == Run(history, c.last, d.last);
      assert Run(history, c.last, d.last)[0] == Deliver(history[c.last]);
    }
  }

  /** The replay sends the next event of its page, and demands a resync exactly when the log no longer reaches back. */
  lemma ReplayFrames(s: Stream)
    requires StreamInv(s)
    ensures s.handler.Turning? ==>
              AfterTurn(s).conn.sent
              == s.conn.sent + if s.handler.cursor < s.handler.target && s.handler.cursor < s.floor
                               then [Resync(s.handler.target, false)] else []
    ensures s.handler.Sending? ==> s.conn.last < |s.history| && AfterSend(s).conn.sent == s.conn.sent + [Deliver(s.history[s.conn.last])]
  {
    if s.handler.Turning? && s.handler.cursor < s.handler.target && s.floor <= s.handler.cursor {
      PageFits(s.history, s.floor, s.handler.cursor, s.handler.target);
    }
    if s.handler.Sending? {
      assert s.handler.page[s.handler.next] == s.history[s.conn.last];
      ReplayedNext(s.history, s.conn);
    }
  }

  /** The end of the replay without an overflow sends the run that waited, all of it, and no resync. */
  lemma FinishFrames(history: seq<Event>, after: nat, c: Connection)
    requires Numbered(history) && ConnFits(history, after, c)
    ensures var d := FinishedReplay(c, c.last);
            if c.overflow == 0 then
              && c.last <= d.last <= |history| && d.sent == c.sent + Run(history, c.last, d.last) + [Ready(d.last)]
              && d.last + 1 !in c.pending && forall k :: c.last < k <= d.last ==> k in c.pending
            else
              && d.sent == c.sent + [Resync(d.last, false)] + [Ready(d.last)] && d.pending == map[]
              && d.last in {c.last, c.overflow} + c.pending.Keys
              && c.last <= d.last && c.overflow <= d.last && forall k :: k in c.pending ==> k <= d.last
  {
    var live := c.(last := Max(c.last, c.last), pending := Above(c.pending, c.last), replaying := false);
    assert live.pending == c.pending;
    if c.overflow == 0 {
      FlushedRun(history, live);
      FlushLeaves(live);
    } else {
      var target := Max(Max(c.last, c.overflow), Greatest(live.pending.Keys));
      assert Above(live.pending, target) == map[];
    }
  }

  /** An event that reached the connection is sent or covered, waits in the buffer, or is covered by the resync to come. */
  ghost predicate Kept(c: Connection, n: nat) {
    n <= c.last || n in c.pending || (c.replaying && n <= c.overflow)
  }

  lemma BufferedKeeps(history: seq<Event>, c: Connection, n: nat, k: nat)
    requires Numbered(history) && c.replaying && c.last < n <= |history| && |c.pending| <= PENDING_LIMIT
    requires k == n || Kept(c, k)
    ensures Kept(Buffered(c, history[n - 1]), k)
  {
    var longer := c.pending[n := history[n - 1]];
    if n in c.pending {
      assert longer.Keys == c.pending.Keys;
      assert |longer| == |longer.Keys| && |c.pending| == |c.pending.Keys|;
    } else {
      OneMore(c.pending, n, history[n - 1]);
      if |longer| > PENDING_LIMIT {
        OldestGoes(longer);
        assert Least(longer.Keys) <= n;
      }
    }
  }

  lemma QueuedIsKept(s: Stream, m: nat, n: nat)
    requires StreamInv(s) && 1 <= m <= |s.history| && s.conn.replaying && (n == m || Kept(s.conn, n))
    ensures Kept(AfterBroadcast(s, m).conn, n)
  {
    if m > s.conn.last {
      BufferedKeeps(s.history, s.conn, m, n);
    }
  }

  lemma FinishIsKept(s: Stream, n: nat)
    requires StreamInv(s) && s.handler.Done? && Kept(s.conn, n)
    ensures Kept(FinishedReplay(s.conn, s.handler.target), n)
  {
    FinishLeaves(s.history, s.after, s.conn, n);
  }

  lemma TurnIsKept(s: Stream, n: nat)
    requires StreamInv(s) && s.handler.Turning? && Kept(s.conn, n)
    ensures Kept(AfterTurn(s).conn, n)
  {
  }

  lemma SendIsKept(s: Stream, n: nat)
    requires StreamInv(s) && s.handler.Sending? && Kept(s.conn, n)
    ensures Kept(AfterSend(s).conn, n)
  {
    ReplayedNext(s.history, s.conn);
  }

  lemma OthersKeep(s: Stream, step: StreamStep, n: nat)
    requires CanStream(s, step) && s.floor <= |s.history| && (step.Commit? || step.TrimTo? || step.Close?) && Kept(s.conn, n)
    ensures Kept(AfterStream(s, step).conn, n)
  {
  }

  /** While the replay goes on, and at its end, no event that was broadcast to the connection is lost. */
  lemma HeardIsKept(s: Stream, step: StreamStep, n: nat)
    requires StreamInv(s) && CanStream(s, step) && s.conn.replaying
    requires Kept(s.conn, n) || step == Broadcast(n)
    ensures Kept(AfterStream(s, step).conn, n)
  {
    match step
    case Broadcast(m) => QueuedIsKept(s, m, n);
    case Finish => FinishIsKept(s, n);
    case Turn => TurnIsKept(s, n);
    case SendNext => SendIsKept(s, n);
    case _ => OthersKeep(s, step, n);
  }

  lemma FinishLeaves(history: seq<Event>, after: nat, c: Connection, n: nat)
    requires Numbered(history) && ConnFits(history, after, c) && Kept(c, n)
    ensures Kept(FinishedReplay(c, c.last), n)
  {
    FinishFrames(history, after, c);
    var live := c.(last := Max(c.last, c.last), pending := Above(c.pending, c.last), replaying := false);
    assert live.pending == c.pending;
    if c.overflow == 0 {
      FlushLeaves(live);
    }
  }

  lemma {:induction false} KeptDuringReplay(states: seq<Stream>, j: nat, k: nat, n: nat)
    requires StreamRun(states) && j <= k < |states| && Kept(states[j].conn, n)
    requires forall i :: j <= i < k ==> states[i].conn.replaying
    ensures Kept(states[k].conn, n)
    decreases k
  {
    if j < k {
      KeptDuringReplay(states, j, k - 1, n);
      RunStepKeepsHeard(states, k, n);
    }
  }

  lemma RunStepKeepsHeard(states: seq<Stream>, k: nat, n: nat)
    requires StreamRun(states) && 0 < k < |states| && Kept(states[k - 1].conn, n)
    requires states[k - 1].conn.replaying
    ensures Kept(states[k].conn, n)
  {
    StreamRunKeeps(states, k - 1);
    assert StreamMoves(states, k);
    NextKeepsHeard(states[k - 1], states[k], n);
  }

  lemma NextKeepsHeard(s: Stream, t: Stream, n: nat)
    requires s.conn.replaying && Kept(s.conn, n)
    ensures StreamInv(s) && StreamNext(s, t) ==> Kept(t.conn, n)
  {
    if StreamInv(s) && StreamNext(s, t) {
      var step :| CanStream(s, step) && t == AfterStream(s, step);
      HeardIsKept(s, step, n);
    }
  }

  /** Over every run: an event broadcast while the log is replayed is not lost before the connection is live. */
  lemma HeardDuringReplay(states: seq<Stream>, j: nat, k: nat, n: nat)
    requires StreamRun(states) && j < k < |states| && 1 <= n <= |states[j].history| && states[j].floor <= |states[j].history|
    requires states[j + 1] == AfterBroadcast(states[j], n)
    requires forall i :: j <= i < k ==> states[i].conn.replaying
    ensures Kept(states[k].conn, n)
  {
    StreamRunKeeps(states, j);
    QueuedIsKept(states[j], n, n);
    KeptDuringReplay(states, j + 1, k, n);
  }

  // ---- The replay comes to its end ----

  /** What events_ws does next, as long as it is not receiving. */
  function HandlerStep(handler: Handler): StreamStep {
    if handler.Turning? then Turn else if handler.Sending? then SendNext else Finish
  }

  /** How many steps of its own the replay may still take. */
  ghost function Remaining(s: Stream): int {
    match s.handler
    case Turning(_, target) => 2 * (target - s.conn.last) + 2
    case Sending(_, _, target) => 2 * (target - s.conn.last) + 1
    case Done(_) => 1
    case _ => 0
  }

  lemma TurnAdvances(s: Stream)
    requires StreamInv(s) && s.handler.Turning?
    ensures Remaining(AfterTurn(s)) < Remaining(s)
  {
    TurnKeeps(s);
  }

  lemma SendAdvances(s: Stream)
    requires StreamInv(s) && s.handler.Sending?
    ensures Remaining(AfterSend(s)) < Remaining(s)
  {
    assert s.handler.page[s.handler.next] == s.history[s.conn.last];
    ReplayedNext(s.history, s.conn);
  }

  /** Over every run: the replay can go on, and each of its steps brings it nearer to its end. */
  lemma ReplayAdvances(states: seq<Stream>, k: nat)
    requires StreamRun(states) && k < |states| && !states[k].handler.Live? && !states[k].handler.Closed?
    ensures var s := states[k];
            && s.floor <= |s.history| && CanStream(s, HandlerStep(s.handler))
            && Remaining(AfterStream(s, HandlerStep(s.handler))) < Remaining(s) <= 2 * |s.history| + 2
  {
    StreamRunKeeps(states, k);
    var s := states[k];
    if s.handler.Turning? {
      TurnAdvances(s);
    } else if s.handler.Sending? {
      SendAdvances(s);
    }
  }

  /** And what is committed, trimmed or broadcast meanwhile does not delay it. */
  lemma ReplayIsNotDelayed(s: Stream, step: StreamStep)
    requires StreamInv(s) && CanStream(s, step) && (step.Commit? || step.TrimTo? || step.Broadcast?)
    ensures AfterStream(s, step).handler == s.handler && Remaining(AfterStream(s, step)) == Remaining(s)
  {
    if step.Broadcast? && s.conn.replaying {
      ReplayStays(s, step.sequence);
    }
  }

  // ---- events_ws without interference ----

  /** [event for event in window if event["sequence"] <= target] */
  method SelectUpTo(events: seq<Event>, target: nat) returns (page: seq<Event>)
    ensures page == UpTo(events, target)
  {
    page := [];
    var i := 0;
    while i < |events|
      invariant 0 <= i <= |events|
      invariant page == UpTo(events[..i], target)
    {
      assert events[..i + 1][..i] == events[..i];
      if events[i].sequence <= target {
        page := page + [events[i]];
      }
      i := i + 1;
    }
    assert events[..i] == events;
  }

  /** What the replay has reached: gap-free up to a cursor that is the connection's. */
  ghost predicate Reached(history: seq<Event>, after: nat, c: Connection, cursor: nat) {
    ConnFits(history, after, c) && c.replaying && c.last == cursor && c.pending == map[] && c.overflow == 0
  }

  lemma ReachNext(history: seq<Event>, after: nat, c: Connection, cursor: nat, event: Event)
    requires Numbered(history) && Reached(history, after, c, cursor) && cursor < |history| && event == history[cursor]
    ensures Reached(history, after, Replayed(c, event), cursor + 1)
    ensures Replayed(c, event).sent == c.sent + [Deliver(event)]
  {
    ReplayKeeps(history, after, c);
    ReplayedNext(history, c);
  }

  method SendPage(connection: EventConnection, page: seq<Event>, ghost history: seq<Event>, ghost after: nat, ghost cursor: nat)
    requires Numbered(history) && Reached(history, after, connection.View(), cursor)
    requires cursor + |page| <= |history| && page == history[cursor..cursor + |page|]
    modifies connection
    ensures Reached(history, after, connection.View(), cursor + |page|)
    ensures connection.sent == old(connection.sent) + Run(history, cursor, cursor + |page|)
  {
    var i := 0;
    while i < |page|
      invariant 0 <= i <= |page|
      invariant Reached(history, after, connection.View(), cursor + i)
      invariant connection.sent == old(connection.sent) + Run(history, cursor, cursor + i)
    {
      ReachNext(history, after, connection.View(), cursor + i, page[i]);
      RunAppends(old(connection.sent), history, cursor, cursor + i);
      connection.SendReplay(page[i]);
      i := i + 1;
    }
  }

  /**
   * One turn of the replay loop; false when the loop is left early. The next page is sent whole, or a resync to the target
   * exactly when the log no longer reaches back to the cursor.
   */
  method ReplayTurn(connection: EventConnection, store: EventStore, after: nat, cursor: nat, target: nat)
    returns (next: nat, more: bool)
    requires store.Valid() && cursor < target == |store.history|
    requires Reached(store.history, after, connection.View(), cursor)
    modifies connection
    ensures next == (if cursor < store.Floor() then target else Min(target, cursor + PAGE_LIMIT)) && more == (cursor >= store.Floor())
    ensures Reached(store.history, after, connection.View(), next)
    ensures connection.sent == old(connection.sent) + if cursor < store.Floor() then [Resync(target, false)]
                                                      else Run(store.history, cursor, next)
  {
    ghost var c := connection.View();
    var window := store.EventWindowAfter(cursor, PAGE_LIMIT);
    if cursor < window.earliest - 1 {
      DemandKeeps(store.history, after, c, target);
      connection.RequireResync(target, false);
      return target, false;
    }
    var page := SelectUpTo(window.events, target);
    PageFits(store.history, store.Floor(), cursor, target);
    SendPage(connection, page, store.history, after, cursor);
    next, more := page[|page| - 1].sequence, true;
  }

  /** Live, at the log's head, and told so. */
  ghost predicate CaughtUp(history: seq<Event>, after: nat, c: Connection) {
    && ConnFits(history, after, c) && !c.replaying && c.last == |history|
    && |c.sent| > 0 && c.sent[|c.sent| - 1] == Ready(|history|)
  }

  /**
   * What an undisturbed replay sends: every event after the client's cursor and nothing else, or a resync for a cursor
   * that the log no longer reaches back to, or one with a reset for a cursor beyond the log; then that it is ready.
   */
  ghost function ReplayOf(history: seq<Event>, floor: nat, after: nat): seq<Frame> {
    (if after > |history| then [Resync(|history|, true)]
     else if after < floor then [Resync(|history|, false)]
     else Run(history, after, |history|))
    + [Ready(|history|)]
  }

  lemma FinishCatchesUp(history: seq<Event>, after: nat, c: Connection)
    requires Numbered(history) && Reached(history, after, c, |history|)
    ensures CaughtUp(history, after, FinishedReplay(c, |history|))
    ensures FinishedReplay(c, |history|).sent == c.sent + [Ready(|history|)]
  {
    FinishKeeps(history, after, c);
    var live := c.(last := Max(c.last, c.last), pending := Above(c.pending, c.last), replaying := false);
    FlushLeaves(live);
  }

  lemma OpenedReaches(history: seq<Event>, floor: nat, after: nat)
    requires Numbered(history) && floor <= |history| && (|history| > 0 ==> floor < |history|)
    ensures Reached(history, after, Opened(history, floor, true, after).conn, Min(after, |history|))
  {
    OpenedInv(history, floor, true, after);
  }

  /** The connection of an accepted socket, and where its replay starts. */
  method OpenConnection(store: EventStore, after: nat) returns (connection: EventConnection, cursor: nat, target: nat)
    requires store.Valid()
    ensures fresh(connection) && cursor <= target == |store.history|
    ensures Reached(store.history, after, connection.View(), cursor)
    ensures cursor == Min(after, target)
    ensures connection.sent == if after > target then [Resync(target, true)] else []
  {
    var window := store.EventWindowAfter(after, 1);
    target, cursor := window.latest, after;
    connection := new EventConnection(after, true);
    if after > target {
      connection.RequireResync(target, true);
      cursor := target;
    }
    assert connection.View() == Opened(store.history, store.Floor(), true, after).conn;
    OpenedReaches(store.history, store.Floor(), after);
  }

  /** The replay loop. */
  method ReplayPages(connection: EventConnection, store: EventStore, after: nat, from: nat, target: nat)
    requires store.Valid() && from <= target == |store.history|
    requires Reached(store.history, after, connection.View(), from)
    modifies connection
    ensures Reached(store.history, after, connection.View(), target)
    ensures connection.sent == old(connection.sent) + if from < target && from < store.Floor() then [Resync(target, false)]
                                                      else Run(store.history, from, target)
  {
    var cursor, more := from, true;
    if from >= store.Floor() {
      assert Run(store.history, from, from) == [];
    }
    while more && cursor < target
      invariant from <= cursor <= target && (!more ==> cursor == target)
      invariant Reached(store.history, after, connection.View(), cursor)
      invariant from >= store.Floor() ==> connection.sent == old(connection.sent) + Run(store.history, from, cursor)
      invariant from < store.Floor() && cursor == from ==> more && connection.sent == old(connection.sent)
      invariant from < store.Floor() && cursor > from ==> !more && connection.sent == old(connection.sent) + [Resync(target, false)]
      decreases target - cursor
    {
      ghost var before := cursor;
      cursor, more := ReplayTurn(connection, store, after, cursor, target);
      if from >= store.Floor() {
        RunsJoin(old(connection.sent), store.history, from, before, cursor);
      }
    }
    if from == target {
      assert Run(store.history, from, target) == [];
    }
  }

  method FinishAtHead(connection: EventConnection, target: nat, ghost history: seq<Event>, ghost after: nat)
    requires Numbered(history) && target == |history| && Reached(history, after, connection.View(), target)
    modifies connection
    ensures CaughtUp(history, after, connection.View())
    ensures connection.sent == old(connection.sent) + [Ready(|history|)]
  {
    ghost var c := connection.View();
    FinishCatchesUp(history, after, c);
    connection.FinishReplay(target);
    assert connection.View() == FinishedReplay(c, target);
  }

  /** The replay of events_ws while nothing else happens: the client ends at the log's head, and is told so. */
  method ReplayLog(store: EventStore, after: nat) returns (connection: EventConnection)
    requires store.Valid()
    ensures fresh(connection) && CaughtUp(store.history, after, connection.View())
    ensures connection.sent == ReplayOf(store.history, store.Floor(), after)
  {
    var cursor, target;
    connection, cursor, target := OpenConnection(store, after);
    ReplayPages(connection, store, after, cursor, target);
    FinishAtHead(connection, target, store.history, after);
    if after > target {
      assert Run(store.history, target, target) == [];
    }
  }
}
