/**
 * The event stream from the log to the page: the server's connection of EventStream on the one end of the newest
 * socket, the browser of ClientCursor on the other, and the frames on their way between them.
 */
module EndToEnd {
  import opened Common
  import opened EventLog
  import opened Delivery
  import opened EventStream
  import opened ClientCursor

  datatype Link = Link(stream: Stream, page: System)

  /** The server moves, the next frame arrives, the page opens a new socket, or the page does something of its own. */
  datatype LinkStep =
    | Server(step: StreamStep)
    | Arrive
    | Reconnect(fetches: bool)
    | Page(action: SystemStep)

  ghost predicate CanLink(l: Link, step: LinkStep) {
    match step
    case Server(s) => CanStream(l.stream, s)
    case Arrive => |l.page.received| < |l.stream.conn.sent|
    case Reconnect(fetches) => CanSystem(l.page, Reopen)
    case Page(s) => (s.ReceiveStale? || s.Take? || s.Settle? || s.Disconnect? || s.Stop?) && CanSystem(l.page, s)
  }

  ghost function AfterServer(l: Link, s: StreamStep): Link
    requires CanStream(l.stream, s) && l.stream.floor <= |l.stream.history|
  {
    Link(AfterStream(l.stream, s), if s.Commit? then l.page.(history := l.page.history + [s.event]) else l.page)
  }

  /** A socket delivers its frames in order. */
  ghost function AfterArrive(l: Link): Link
    requires |l.page.received| < |l.stream.conn.sent|
  {
    var frame := l.stream.conn.sent[|l.page.received|];
    l.(page := l.page.(client := AfterMessage(l.page.client, l.page.client.socket, frame), received := l.page.received + [frame]))
  }

  /** The new socket asks for what follows the page's cursor. */
  ghost function AfterReconnect(l: Link, fetches: bool): Link
    requires CanSystem(l.page, Reopen)
  {
    if l.page.client.stopped then l
    else Link(Opened(l.stream.history, l.stream.floor, fetches, l.page.client.cursor), AfterSystem(l.page, Reopen))
  }

  ghost function AfterLink(l: Link, step: LinkStep): Link
    requires CanLink(l, step) && l.stream.floor <= |l.stream.history|
  {
    match step
    case Server(s) => AfterServer(l, s)
    case Arrive => AfterArrive(l)
    case Reconnect(fetches) => AfterReconnect(l, fetches)
    case Page(s) => l.(page := AfterSystem(l.page, s))
  }

  /** Both ends are sound, and what the page has received is the beginning of what the server has sent. */
  ghost predicate LinkInv(l: Link) {
    && StreamInv(l.stream) && SystemInv(l.page)
    && l.page.history == l.stream.history && l.page.openedAt == l.stream.after
    && l.page.received <= l.stream.conn.sent
  }

  ghost predicate InitialLink(l: Link) {
    && InitialSystem(l.page)
    && exists history: seq<Event>, floor: nat, fetches: bool ::
         && Numbered(history) && floor <= |history| && (|history| > 0 ==> floor < |history|)
         && l.page.history == history && l.stream == Opened(history, floor, fetches, l.page.openedAt)
  }

  // ---- Frames are only ever added ----

  lemma {:induction false} FlushedSends(c: Connection)
    ensures c.sent <= Flushed(c).sent
    decreases |c.pending|
  {
    var sequence := c.last + 1;
    if sequence in c.pending {
      FlushedSends(c.(last := sequence, pending := c.pending - {sequence}, sent := c.sent + [Deliver(c.pending[sequence])]));
    }
  }

  lemma BackfilledSends(c: Connection, window: Option<Window>)
    ensures c.sent <= Backfilled(c, window).sent
  {
    FlushedSends(c);
    if window.Some? {
      FlushedSends(Resynced(c, window.value.latest, false));
      FlushedSends(c.(pending := Merged(c.pending, c.last, window.value.events)));
    }
  }

  lemma FinishedSends(c: Connection, target: nat)
    ensures c.sent <= FinishedReplay(c, target).sent
  {
    var last := Max(c.last, target);
    FlushedSends(c.(last := last, pending := Above(c.pending, last), replaying := false));
  }

  /** The connection has sent at least as much to the same client, over the same log or one event more. */
  ghost predicate SentMore(s: Stream, step: StreamStep, t: Stream) {
    && s.conn.sent <= t.conn.sent && t.after == s.after
    && t.history == if step.Commit? then s.history + [step.event] else s.history
  }

  lemma BroadcastSends(s: Stream, step: StreamStep)
    requires step.Broadcast? && CanStream(s, step) && s.floor <= |s.history|
    ensures SentMore(s, step, AfterStream(s, step))
  {
    var buffered := Buffered(s.conn, s.history[step.sequence - 1]);
    BackfilledSends(buffered, Missing(s, buffered));
  }

  lemma ReplaySends(s: Stream, step: StreamStep)
    requires (step.Turn? || step.SendNext?) && CanStream(s, step) && s.floor <= |s.history|
    ensures SentMore(s, step, AfterStream(s, step))
  {
  }

  lemma FinishSends(s: Stream, step: StreamStep)
    requires step.Finish? && CanStream(s, step) && s.floor <= |s.history|
    ensures SentMore(s, step, AfterStream(s, step))
  {
    FinishedSends(s.conn, s.handler.target);
  }

  lemma OthersSendNothing(s: Stream, step: StreamStep)
    requires (step.Commit? || step.TrimTo? || step.Close?) && CanStream(s, step) && s.floor <= |s.history|
    ensures SentMore(s, step, AfterStream(s, step))
  {
  }

  lemma SentGrows(s: Stream, step: StreamStep)
    requires CanStream(s, step) && s.floor <= |s.history|
    ensures SentMore(s, step, AfterStream(s, step))
  {
    if step.Broadcast? {
      BroadcastSends(s, step);
    } else if step.Finish? {
      FinishSends(s, step);
    } else if step.Turn? || step.SendNext? {
      ReplaySends(s, step);
    } else {
      OthersSendNothing(s, step);
    }
  }

  // ---- Every step keeps it ----

  lemma ServerKeeps(l: Link, s: StreamStep)
    requires LinkInv(l) && CanStream(l.stream, s)
    ensures LinkInv(AfterServer(l, s))
  {
    StreamStepKeeps(l.stream, s);
    SentGrows(l.stream, s);
    if s.Commit? {
      SystemStepKeeps(l.page, SystemStep.Commit(s.event));
    }
  }

  /** What the page takes for granted about the newest socket is what the server's end of it guarantees. */
  lemma ArriveKeeps(l: Link)
    requires LinkInv(l) && CanLink(l, Arrive)
    ensures CanSystem(l.page, Receive(l.stream.conn.sent[|l.page.received|]))
    ensures LinkInv(AfterArrive(l))
  {
    var n := |l.page.received|;
    var frame := l.stream.conn.sent[n];
    assert l.page.received + [frame] == l.stream.conn.sent[..n + 1];
    PrefixGapFree(l.stream.history, l.stream.after, l.stream.conn.sent, n + 1);
    SystemStepKeeps(l.page, Receive(frame));
  }

  lemma ReconnectKeeps(l: Link, fetches: bool)
    requires LinkInv(l) && CanLink(l, Reconnect(fetches))
    ensures LinkInv(AfterReconnect(l, fetches))
  {
    if !l.page.client.stopped {
      OpenedInv(l.stream.history, l.stream.floor, fetches, l.page.client.cursor);
      SystemStepKeeps(l.page, Reopen);
    }
  }

  lemma PageKeeps(l: Link, s: SystemStep)
    requires LinkInv(l) && CanLink(l, Page(s))
    ensures LinkInv(l.(page := AfterSystem(l.page, s)))
  {
    SystemStepKeeps(l.page, s);
  }

  lemma LinkStepKeeps(l: Link, step: LinkStep)
    requires LinkInv(l) && CanLink(l, step)
    ensures LinkInv(AfterLink(l, step))
  {
    match step
    case Server(s) => ServerKeeps(l, s);
    case Arrive => ArriveKeeps(l);
    case Reconnect(fetches) => ReconnectKeeps(l, fetches);
    case Page(s) => PageKeeps(l, s);
  }

  // ---- Runs ----

  ghost predicate LinkNext(l: Link, m: Link) {
    l.stream.floor <= |l.stream.history| && exists step :: CanLink(l, step) && m == AfterLink(l, step)
  }

  ghost predicate LinkRun(links: seq<Link>) {
    && |links| > 0 && InitialLink(links[0])
    && forall j, k :: 0 <= j < k < |links| && k == j + 1 ==> LinkNext(links[j], links[k])
  }

  lemma InitialLinkInv(l: Link)
    requires InitialLink(l)
    ensures LinkInv(l)
  {
    InitialSystemInv(l.page);
    var history: seq<Event>, floor: nat, fetches: bool :|
      Numbered(history) && floor <= |history| && (|history| > 0 ==> floor < |history|)
      && l.page.history == history && l.stream == Opened(history, floor, fetches, l.page.openedAt);
    OpenedInv(history, floor, fetches, l.page.openedAt);
  }

  /**
   * At least once, from the log to the page: whatever is committed, trimmed, broadcast late or never, replayed,
   * dropped with a socket or failed in a handler, the page's cursor has passed an event only if the page knew it at
   * the start, applied it, or reconciled a snapshot at or beyond it.
   */
  lemma {:induction false} EveryEventReachesThePage(links: seq<Link>, k: nat)
    requires LinkRun(links) && k < |links|
    ensures LinkInv(links[k])
    ensures forall sequence :: 1 <= sequence <= links[k].page.client.cursor ==> Covered(links[k].page, sequence)
  {
    if k == 0 {
      InitialLinkInv(links[0]);
    } else {
      EveryEventReachesThePage(links, k - 1);
      assert LinkNext(links[k - 1], links[k]);
      var step :| CanLink(links[k - 1], step) && links[k] == AfterLink(links[k - 1], step);
      LinkStepKeeps(links[k - 1], step);
    }
  }

  /** And when the connection stands at the log's head and its frames are handled, the page has every committed event. */
  lemma DrainedPageHasEverything(links: seq<Link>, k: nat, sequence: nat)
    requires LinkRun(links) && k < |links|
    requires var l := links[k];
             && l.stream.conn.last == |l.stream.history| <= MAX_SAFE_INTEGER && l.page.received == l.stream.conn.sent
             && !l.page.client.failed && !l.page.client.stopped
             && l.page.client.running.None? && l.page.client.queue == []
    requires 1 <= sequence <= |links[k].stream.history|
    ensures links[k].page.client.cursor == |links[k].stream.history|
    ensures Covered(links[k].page, sequence)
  {
    EveryEventReachesThePage(links, k);
    ClientCursor.CaughtUp(links[k].page);
  }
}
