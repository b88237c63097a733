/**
 * One event connection: the replay of the log, the buffer of live events beside it, and the frames it sends.
 * The operations are given as functions on the connection's state; the class after them does the same in place.
 */
module Delivery {
  import opened Common
  import opened EventLog

  datatype Frame =
    | Deliver(event: Event)
    | Resync(target: nat, resetCursor: bool)
    | Ready(sequence: nat)

  datatype Connection = Connection(last: nat, replaying: bool, pending: map<nat, Event>, overflow: nat, sent: seq<Frame>)

  const PENDING_LIMIT: nat := 200
  const PAGE_LIMIT: nat := 500

  // ---- What a client may rely on ----

  /** The sequence number a frame leaves the client at. */
  function Position(frame: Frame): nat {
    match frame
    case Deliver(event) => event.sequence
    case Resync(target, _) => target
    case Ready(sequence) => sequence
  }

  function Before(after: nat, frames: seq<Frame>, k: nat): nat
    requires k <= |frames|
  {
    if k == 0 then after else Position(frames[k - 1])
  }

  /** The next frame is the very next event, or a demand to resynchronise, or says where the client is. */
  predicate Follows(history: seq<Event>, cursor: nat, frame: Frame) {
    match frame
    case Deliver(event) => event.sequence == cursor + 1 && cursor < |history| && event == history[cursor]
    case Resync(target, reset) => target <= |history| && (if reset then target < cursor else target >= cursor)
    case Ready(sequence) => sequence == cursor
  }

  predicate FrameFits(history: seq<Event>, after: nat, frames: seq<Frame>, k: nat)
    requires k < |frames|
  {
    Follows(history, Before(after, frames, k), frames[k])
  }

  ghost predicate GapFree(history: seq<Event>, after: nat, frames: seq<Frame>) {
    forall k :: 0 <= k < |frames| ==> FrameFits(history, after, frames, k)
  }

  ghost predicate ResetAmong(frames: seq<Frame>) {
    exists k :: 0 <= k < |frames| && frames[k].Resync? && frames[k].resetCursor
  }

  ghost predicate SentAmong(frames: seq<Frame>, event: Event) {
    exists k :: 0 <= k < |frames| && frames[k] == Deliver(event)
  }

  ghost predicate ResyncAmong(frames: seq<Frame>, sequence: nat) {
    exists k :: 0 <= k < |frames| && frames[k].Resync? && frames[k].target >= sequence
  }

  /** A connection that dies has sent a beginning of these frames, which is gap-free as well. */
  lemma PrefixGapFree(history: seq<Event>, after: nat, frames: seq<Frame>, n: nat)
    requires GapFree(history, after, frames) && n <= |frames|
    ensures GapFree(history, after, frames[..n])
  {
    forall k | 0 <= k < n
      ensures FrameFits(history, after, frames[..n], k)
    {
      assert FrameFits(history, after, frames, k);
    }
  }

  /** Every event up to where the frames end was sent, or the client had it, or a resync demanded it. */
  lemma {:induction false} NothingSkipped(history: seq<Event>, after: nat, frames: seq<Frame>, sequence: nat)
    requires GapFree(history, after, frames)
    requires 1 <= sequence <= Before(after, frames, |frames|) && sequence <= |history|
    ensures || (sequence <= after && !ResetAmong(frames))
            || SentAmong(frames, history[sequence - 1])
            || ResyncAmong(frames, sequence)
    decreases |frames|
  {
    if |frames| > 0 {
      var n := |frames| - 1;
      var front, final := frames[..n], frames[n];
      assert FrameFits(history, after, frames, n);
      if final.Resync? || (final.Deliver? && sequence == final.event.sequence) {
      } else {
        PrefixGapFree(history, after, frames, n);
        NothingSkipped(history, after, front, sequence);
      }
    }
  }

  /** Between resets the positions never go back, so no event is sent twice. */
  lemma {:induction false} NeverTwice(history: seq<Event>, after: nat, frames: seq<Frame>, j: nat, k: nat)
    requires GapFree(history, after, frames) && !ResetAmong(frames)
    requires j < k < |frames|
    ensures Position(frames[j]) <= Position(frames[k])
    ensures frames[k].Deliver? ==> Position(frames[j]) < Position(frames[k])
    decreases k
  {
    assert FrameFits(history, after, frames, k);
    if j + 1 < k {
      NeverTwice(history, after, frames, j, k - 1);
    }
  }

  lemma FrameAppended(history: seq<Event>, after: nat, frames: seq<Frame>, frame: Frame)
    requires GapFree(history, after, frames) && Follows(history, Before(after, frames, |frames|), frame)
    ensures GapFree(history, after, frames + [frame])
    ensures Before(after, frames + [frame], |frames| + 1) == Position(frame)
  {
    var longer := frames + [frame];
    forall k | 0 <= k < |longer|
      ensures FrameFits(history, after, longer, k)
    {
      assert k < |frames| ==> FrameFits(history, after, frames, k);
      assert Before(after, longer, k) == Before(after, frames, k);
    }
  }

  // ---- The buffer ----

  lemma SomeElement(s: set<nat>)
    ensures s == {} || exists k :: k in s
  {
    if forall k :: k !in s {
      assert s == {};
    }
  }

  lemma {:induction false} LeastExists(s: set<nat>)
    requires s != {}
    ensures exists k :: k in s && forall j :: j in s ==> k <= j
    decreases |s|
  {
    SomeElement(s);
    var e :| e in s;
    assert forall j :: j in s ==> j == e || j in s - {e};
    if s - {e} == {} {
      assert forall j :: j in s ==> j == e;
    } else {
      LeastExists(s - {e});
      var k :| k in s - {e} && forall j :: j in s - {e} ==> k <= j;
      var least := Min(k, e);
      assert least in s && forall j :: j in s ==> least <= j;
    }
  }

  lemma {:induction false} GreatestExists(s: set<nat>)
    requires s != {}
    ensures exists k :: k in s && forall j :: j in s ==> j <= k
    decreases |s|
  {
    SomeElement(s);
    var e :| e in s;
    assert forall j :: j in s ==> j == e || j in s - {e};
    if s - {e} == {} {
      assert forall j :: j in s ==> j == e;
    } else {
      GreatestExists(s - {e});
      var k :| k in s - {e} && forall j :: j in s - {e} ==> j <= k;
      var greatest := Max(k, e);
      assert greatest in s && forall j :: j in s ==> j <= greatest;
    }
  }

  ghost function Least(s: set<nat>): (k: nat)
    requires s != {}
    ensures k in s && forall j :: j in s ==> k <= j
  {
    LeastExists(s);
    var k :| k in s && forall j :: j in s ==> k <= j;
    k
  }

  /** The greatest key, or 0. */
  ghost function Greatest(s: set<nat>): (k: nat)
    ensures s == {} ==> k == 0
    ensures s != {} ==> k in s && forall j :: j in s ==> j <= k
  {
    if s == {} then 0
    else
      GreatestExists(s);
      var k :| k in s && forall j :: j in s ==> j <= k;
      k
  }

  /** The oldest entries are dropped until the limit is kept. */
  ghost function Bounded(pending: map<nat, Event>): (kept: map<nat, Event>)
    ensures kept.Keys <= pending.Keys && forall k :: k in kept ==> kept[k] == pending[k]
    ensures |kept| <= PENDING_LIMIT
    ensures |pending| <= PENDING_LIMIT ==> kept == pending
    decreases |pending|
  {
    if |pending| <= PENDING_LIMIT then pending
    else Bounded(pending - {Least(pending.Keys)})
  }

  function Above(pending: map<nat, Event>, n: nat): map<nat, Event> {
    map k | k in pending && k > n :: pending[k]
  }

  /** The fetched events join the buffer where it has no event yet. */
  function Merged(pending: map<nat, Event>, last: nat, events: seq<Event>): map<nat, Event> {
    if events == [] then pending
    else
      var merged := Merged(pending, last, events[..|events| - 1]);
      var event := events[|events| - 1];
      if event.sequence > last && event.sequence !in merged then merged[event.sequence := event] else merged
  }

  // ---- The operations ----

  function Resynced(c: Connection, target: nat, reset: bool): Connection {
    c.(sent := c.sent + [Resync(target, reset)], last := target, pending := Above(c.pending, target))
  }

  function Flushed(c: Connection): Connection
    decreases |c.pending|
  {
    var sequence := c.last + 1;
    if sequence in c.pending then
      Flushed(c.(last := sequence, pending := c.pending - {sequence}, sent := c.sent + [Deliver(c.pending[sequence])]))
    else c
  }

  /** The window is the answer of fetch_missing, if the connection has one to ask. */
  function Backfilled(c: Connection, window: Option<Window>): Connection {
    if c.last + 1 in c.pending || window.None? then Flushed(c)
    else if window.value.latest != 0 && c.last < window.value.earliest - 1 then Flushed(Resynced(c, window.value.latest, false))
    else Flushed(c.(pending := Merged(c.pending, c.last, window.value.events)))
  }

  ghost function QueuedLive(c: Connection, event: Event, window: Option<Window>): Connection {
    if event.sequence <= c.last then c
    else
      var buffered := Buffered(c, event);
      if c.replaying then buffered else Backfilled(buffered, window)
  }

  ghost function Buffered(c: Connection, event: Event): Connection {
    var pending := c.pending[event.sequence := event];
    c.(pending := Bounded(pending),
       overflow := if |pending| > PENDING_LIMIT && c.replaying then Max(c.overflow, event.sequence) else c.overflow)
  }

  function Replayed(c: Connection, event: Event): Connection {
    if event.sequence <= c.last then c
    else c.(sent := c.sent + [Deliver(event)], last := event.sequence, pending := c.pending - {event.sequence})
  }

  ghost function FinishedReplay(c: Connection, target: nat): Connection {
    var last := Max(c.last, target);
    var live := c.(last := last, pending := Above(c.pending, last), replaying := false);
    var settled :=
      if live.overflow != 0
      then Resynced(live.(overflow := 0), Max(Max(last, live.overflow), Greatest(live.pending.Keys)), false)
      else Flushed(live);
    settled.(sent := settled.sent + [Ready(settled.last)])
  }

  /** EventConnection with the frames its socket has taken so far. */
  class EventConnection {
    const fetches: bool
    var last: nat
    var replaying: bool
    var pending: map<nat, Event>
    var overflow: nat
    var sent: seq<Frame>

    constructor (after: nat, fetches: bool)
      ensures this.fetches == fetches && View() == Connection(after, true, map[], 0, [])
    {
      this.fetches, last, replaying, pending, overflow, sent := fetches, after, true, map[], 0, [];
    }

    function View(): Connection
      reads this
    {
      Connection(last, replaying, pending, overflow, sent)
    }

    /** What fetch_missing answers to this connection. */
    ghost function Fetched(store: EventStore, c: Connection): Option<Window>
      reads store
      requires store.Valid()
    {
      if fetches then Some(WindowOf(store.history, store.Floor(), c.last, PENDING_LIMIT)) else None
    }

    method SendReplay(event: Event)
      modifies this
      ensures View() == Replayed(old(View()), event)
    {
      if event.sequence <= last {
        return;
      }
      sent := sent + [Deliver(event)];
      last := event.sequence;
      pending := pending - {event.sequence};
    }

    /** sorted(pending)[: len(pending) - limit], deleted one by one. */
    method DropOldest()
      modifies this`pending
      ensures pending == Bounded(old(pending))
    {
      while |pending| > PENDING_LIMIT
        invariant Bounded(pending) == Bounded(old(pending))
        decreases |pending|
      {
        var oldest := FindLeast(pending.Keys);
        pending := pending - {oldest};
      }
    }

    method FindLeast(keys: set<nat>) returns (least: nat)
      requires keys != {}
      ensures least == Least(keys)
    {
      var todo := keys;
      SomeElement(todo);
      least :| least in todo;
      while todo != {}
        invariant least in keys && todo <= keys
        invariant forall k :: k in keys && k !in todo ==> least <= k
        decreases |todo|
      {
        SomeElement(todo);
        var k :| k in todo;
        if k < least {
          least := k;
        }
        todo := todo - {k};
      }
    }

    /** max(self.pending, default=0) */
    method FindGreatest(keys: set<nat>) returns (greatest: nat)
      ensures greatest == Greatest(keys)
    {
      var todo := keys;
      greatest := 0;
      while todo != {}
        invariant todo <= keys
        invariant greatest in keys || greatest == 0
        invariant greatest == 0 ==> forall k :: k in keys && k !in todo ==> k == 0
        invariant forall k :: k in keys && k !in todo ==> k <= greatest
        decreases |todo|
      {
        SomeElement(todo);
        var k :| k in todo;
        if k > greatest {
          greatest := k;
        }
        todo := todo - {k};
      }
      if keys != {} {
        assert Greatest(keys) in keys;
      }
    }

    /** The first half of queue_live. */
    method Buffer(event: Event)
      modifies this`pending, this`overflow
      ensures View() == Buffered(old(View()), event)
    {
      pending := pending[event.sequence := event];
      if |pending| > PENDING_LIMIT {
        DropOldest();
        if replaying {
          overflow := Max(overflow, event.sequence);
        }
      }
    }

    method QueueLive(event: Event, store: EventStore)
      requires store.Valid()
      modifies this
      ensures View() == QueuedLive(old(View()), event, Fetched(store, Buffered(old(View()), event)))
    {
      if event.sequence <= last {
        return;
      }
      Buffer(event);
      if !replaying {
        BackfillAndFlush(store);
      }
    }

    method FinishReplay(target: nat)
      modifies this
      ensures View() == FinishedReplay(old(View()), target)
    {
      last := Max(last, target);
      pending := map k | k in pending && k > last :: pending[k];
      replaying := false;
      if overflow != 0 {
        var newest := FindGreatest(pending.Keys);
        var resync := Max(Max(last, overflow), newest);
        overflow := 0;
        RequireResync(resync, false);
      } else {
        FlushPending();
      }
      sent := sent + [Ready(last)];
    }

    method RequireResync(target: nat, reset: bool)
      modifies this`sent, this`last, this`pending
      ensures View() == Resynced(old(View()), target, reset)
    {
      sent := sent + [Resync(target, reset)];
      last := target;
      pending := map k | k in pending && k > target :: pending[k];
    }

    method BackfillAndFlush(store: EventStore)
      requires store.Valid()
      modifies this`sent, this`last, this`pending
      ensures View() == Backfilled(old(View()), Fetched(store, old(View())))
    {
      if last + 1 !in pending && fetches {
        var window := store.EventWindowAfter(last, PENDING_LIMIT);
        if window.latest != 0 && last < window.earliest - 1 {
          RequireResync(window.latest, false);
          FlushPending();
          return;
        }
        var i := 0;
        while i < |window.events|
          invariant 0 <= i <= |window.events|
          invariant pending == Merged(old(pending), last, window.events[..i])
          invariant sent == old(sent) && last == old(last)
        {
          var event := window.events[i];
          assert window.events[..i + 1][..i] == window.events[..i];
          if event.sequence > last && event.sequence !in pending {
            pending := pending[event.sequence := event];
          }
          i := i + 1;
        }
        assert window.events[..i] == window.events;
      }
      FlushPending();
    }

    method FlushPending()
      modifies this`sent, this`last, this`pending
      ensures View() == Flushed(old(View()))
    {
      while last + 1 in pending
        invariant Flushed(View()) == Flushed(old(View()))
        decreases |pending|
      {
        var sequence := last + 1;
        sent := sent + [Deliver(pending[sequence])];
        pending := pending - {sequence};
        last := sequence;
      }
    }
  }
}
