/** The login rate limiter: per client a queue of recent failures, pruned from the front, for a bounded set of clients. */
module Limiter {
  type Client = string

  /** The failures after a cutoff: the plain filtered list that the pruned queue stands for. */
  function Recent(times: seq<real>, cutoff: real): seq<real> {
    if times == [] then []
    else
      var front := Recent(times[..|times| - 1], cutoff);
      if times[|times| - 1] > cutoff then front + [times[|times| - 1]] else front
  }

  function Between(times: seq<real>, low: real, high: real): seq<real> {
    if times == [] then []
    else
      var front := Between(times[..|times| - 1], low, high);
      if low < times[|times| - 1] <= high then front + [times[|times| - 1]] else front
  }

  ghost predicate UpTo(times: seq<real>, now: real) {
    forall k :: 0 <= k < |times| ==> times[k] <= now
  }

  /** A failure counts, as often as it was recorded, exactly while it lies after the cutoff. */
  lemma {:induction false} CountsExactly(times: seq<real>, cutoff: real, t: real)
    ensures multiset(Recent(times, cutoff))[t] == if t > cutoff then multiset(times)[t] else 0
  {
    if times != [] {
      var n := |times| - 1;
      CountsExactly(times[..n], cutoff, t);
      assert times == times[..n] + [times[n]];
    }
  }

  /** In order, and each recorded while fewer than the limit lay in the window before it. */
  ghost predicate Admitted(times: seq<real>, window: real, limit: int) {
    times != [] ==>
      && Admitted(times[..|times| - 1], window, limit)
      && UpTo(times, times[|times| - 1])
      && |Recent(times[..|times| - 1], times[|times| - 1] - window)| < limit
  }

  lemma {:induction false} LaterCutoff(times: seq<real>, earlier: real, later: real)
    requires earlier <= later
    ensures Recent(Recent(times, earlier), later) == Recent(times, later)
    ensures |Recent(times, later)| <= |Recent(times, earlier)|
  {
    if times != [] {
      LaterCutoff(times[..|times| - 1], earlier, later);
      var front := Recent(times[..|times| - 1], earlier);
      assert (front + [times[|times| - 1]])[..|front|] == front;
    }
  }

  lemma {:induction false} BetweenIsRecent(times: seq<real>, low: real, high: real)
    requires UpTo(times, high)
    ensures Between(times, low, high) == Recent(times, low)
  {
    if times != [] {
      BetweenIsRecent(times[..|times| - 1], low, high);
    }
  }

  /** Wherever a window of the configured length is laid, it holds at most the permitted number of failures. */
  lemma {:induction false} WindowHoldsAtMost(times: seq<real>, window: real, limit: int, start: real)
    requires Admitted(times, window, limit) && limit >= 1
    ensures |Between(times, start, start + window)| <= limit
    decreases |times|
  {
    if times != [] {
      var n := |times| - 1;
      if times[n] <= start + window {
        WindowWithLast(times[..n], times[n], window, limit, start);
      } else {
        WindowHoldsAtMost(times[..n], window, limit, start);
      }
    }
  }

  /** The last failure of the window was recorded while fewer than the limit lay before it. */
  lemma WindowWithLast(front: seq<real>, last: real, window: real, limit: int, start: real)
    requires UpTo(front, last) && last <= start + window && |Recent(front, last - window)| < limit
    ensures |Between(front, start, start + window)| < limit
  {
    assert UpTo(front, start + window);
    BetweenIsRecent(front, start, start + window);
    LaterCutoff(front, last - window, start);
  }

  /** Nothing is left after the last of the entries that a prune drops. */
  lemma {:induction false} AllExpired(times: seq<real>, cutoff: real)
    requires UpTo(times, cutoff)
    ensures Recent(times, cutoff) == []
  {
    if times != [] {
      AllExpired(times[..|times| - 1], cutoff);
    }
  }

  lemma {:induction false} RecentOfSum(first: seq<real>, second: seq<real>, cutoff: real)
    ensures Recent(first + second, cutoff) == Recent(first, cutoff) + Recent(second, cutoff)
    decreases |second|
  {
    if second == [] {
      assert first + second == first;
    } else {
      RecentOfSum(first, second[..|second| - 1], cutoff);
      assert (first + second)[..|first + second| - 1] == first + second[..|second| - 1];
    }
  }

  ghost predicate Ascending(times: seq<real>) {
    times != [] ==> Ascending(times[..|times| - 1]) && UpTo(times, times[|times| - 1])
  }

  lemma {:induction false} StartsLate(times: seq<real>, cutoff: real)
    requires Ascending(times) && (times != [] ==> times[0] > cutoff)
    ensures Recent(times, cutoff) == times
  {
    if times != [] {
      StartsLate(times[..|times| - 1], cutoff);
      assert times == times[..|times| - 1] + [times[|times| - 1]];
    }
  }

  lemma {:induction false} RestAscends(times: seq<real>)
    requires Ascending(times) && times != []
    ensures Ascending(times[1..])
  {
    if |times| > 1 {
      RestAscends(times[..|times| - 1]);
      assert times[1..][..|times| - 2] == times[..|times| - 1][1..];
    }
  }

  lemma {:induction false} RecentAscends(times: seq<real>, window: real, limit: int, cutoff: real)
    requires Admitted(times, window, limit)
    ensures Ascending(Recent(times, cutoff))
    ensures times != [] ==> UpTo(Recent(times, cutoff), times[|times| - 1])
  {
    if times != [] {
      var n := |times| - 1;
      RecentAscends(times[..n], window, limit, cutoff);
      var front := Recent(times[..n], cutoff);
      if n > 0 {
        assert times[..n][n - 1] <= times[n];
      }
      assert (front + [times[n]])[..|front|] == front;
    }
  }

  // ---- The ordered dictionary ----

  ghost predicate Distinct(order: seq<Client>) {
    order != [] ==> Distinct(order[..|order| - 1]) && order[|order| - 1] !in order[..|order| - 1]
  }

  function Removed(order: seq<Client>, client: Client): (rest: seq<Client>)
    ensures forall c :: c in rest <==> c in order && c != client
    ensures |rest| <= |order| && (client in order ==> |rest| < |order|)
    ensures client !in order ==> rest == order
  {
    if order == [] then []
    else
      var front := Removed(order[..|order| - 1], client);
      assert order == order[..|order| - 1] + [order[|order| - 1]];
      if order[|order| - 1] == client then front else front + [order[|order| - 1]]
  }

  lemma {:induction false} RemovedDistinct(order: seq<Client>, client: Client)
    requires Distinct(order)
    ensures Distinct(Removed(order, client)) && Distinct(Removed(order, client) + [client])
  {
    if order != [] {
      RemovedDistinct(order[..|order| - 1], client);
      var front := Removed(order[..|order| - 1], client);
      assert (front + [order[|order| - 1]])[..|front|] == front;
    }
    assert (Removed(order, client) + [client])[..|Removed(order, client)|] == Removed(order, client);
  }

  /** All failures recorded for a client since it was last reset or evicted, and the cutoff of its last prune. */
  datatype Record = Record(accepted: seq<real>, cutoff: real)

  /** The queue is what filtering the whole record after the last cutoff gives. */
  ghost predicate Fits(record: Record, queue: seq<real>, window: real, limit: int, clock: real) {
    && Admitted(record.accepted, window, limit)
    && UpTo(record.accepted, clock)
    && (record.accepted != [] ==> record.cutoff <= clock - window)
    && queue == Recent(record.accepted, record.cutoff)
  }

  lemma QueueAscends(record: Record, queue: seq<real>, window: real, limit: int, clock: real)
    requires Fits(record, queue, window, limit, clock)
    ensures Ascending(queue)
  {
    RecentAscends(record.accepted, window, limit, record.cutoff);
  }

  lemma PrunedTwice(record: Record, queue: seq<real>, window: real, limit: int, clock: real)
    requires Fits(record, queue, window, limit, clock)
    ensures Recent(queue, clock - window) == Recent(record.accepted, clock - window)
  {
    LaterCutoff(record.accepted, if record.accepted == [] then clock - window else record.cutoff, clock - window);
  }

  lemma StillFits(record: Record, queue: seq<real>, window: real, limit: int, clock: real, now: real)
    requires Fits(record, queue, window, limit, clock) && clock <= now
    ensures Fits(record, queue, window, limit, now)
  {
  }

  lemma AppendedFits(record: Record, queue: seq<real>, window: real, limit: int, now: real)
    requires Fits(record, queue, window, limit, now) && record.cutoff == now - window && window > 0.0
    requires |queue| < limit
    ensures Fits(record.(accepted := record.accepted + [now]), queue + [now], window, limit, now)
  {
    assert (record.accepted + [now])[..|record.accepted|] == record.accepted;
  }

  function QueueIn(failures: map<Client, seq<real>>, client: Client): seq<real> {
    if client in failures then failures[client] else []
  }

  function RecordIn(records: map<Client, Record>, client: Client): Record {
    if client in records then records[client] else Record([], 0.0)
  }

  ghost predicate AllFit(records: map<Client, Record>, failures: map<Client, seq<real>>, window: real, limit: int, clock: real) {
    forall c :: Fits(RecordIn(records, c), QueueIn(failures, c), window, limit, clock)
  }

  /** One client's record and queue are replaced by others that fit. */
  lemma OneReplaced(records: map<Client, Record>, failures: map<Client, seq<real>>, window: real, limit: int, clock: real,
                    client: Client, newRecords: map<Client, Record>, newFailures: map<Client, seq<real>>)
    requires AllFit(records, failures, window, limit, clock)
    requires newRecords == records - {client} || (client in newRecords && newRecords == records[client := newRecords[client]])
    requires newFailures == failures - {client} || (client in newFailures && newFailures == failures[client := newFailures[client]])
    requires Fits(RecordIn(newRecords, client), QueueIn(newFailures, client), window, limit, clock)
    ensures AllFit(newRecords, newFailures, window, limit, clock)
  {
    forall c
      ensures Fits(RecordIn(newRecords, c), QueueIn(newFailures, c), window, limit, clock)
    {
      if c != client {
        assert RecordIn(newRecords, c) == RecordIn(records, c) && QueueIn(newFailures, c) == QueueIn(failures, c);
      }
    }
  }

  lemma AllStillFit(records: map<Client, Record>, failures: map<Client, seq<real>>, window: real, limit: int, clock: real, now: real)
    requires AllFit(records, failures, window, limit, clock) && clock <= now
    ensures AllFit(records, failures, window, limit, now)
  {
    forall c
      ensures Fits(RecordIn(records, c), QueueIn(failures, c), window, limit, now)
    {
      StillFits(RecordIn(records, c), QueueIn(failures, c), window, limit, clock, now);
    }
  }

  class LoginRateLimiter {
    const maxFailures: int
    const window: real
    const maxClients: int
    var failures: map<Client, seq<real>>
    var order: seq<Client>
    ghost var records: map<Client, Record>
    ghost var clock: real

    constructor (maxFailures: int, window: real, maxClients: int)
      requires maxFailures >= 1 && window > 0.0 && maxClients >= 1
      ensures Valid() && clock == 0.0 && forall c :: Accepted(c) == []
    {
      this.maxFailures, this.window, this.maxClients := maxFailures, window, maxClients;
      failures, order, records, clock := map[], [], map[], 0.0;
    }

    function FailuresOf(client: Client): seq<real>
      reads this`failures
    {
      QueueIn(failures, client)
    }

    ghost function RecordOf(client: Client): Record
      reads this`records
    {
      RecordIn(records, client)
    }

    ghost function Accepted(client: Client): seq<real>
      reads this`records
    {
      RecordOf(client).accepted
    }

    /** The dictionary's keys in the order of their last use. */
    ghost predicate Ordered()
      reads this`failures, this`order
    {
      && Distinct(order) && |order| <= maxClients
      && (forall c :: c in order <==> c in failures)
      && (forall c :: c in failures ==> 0 < |failures[c]| <= maxFailures)
    }

    ghost predicate Valid()
      reads this
    {
      && maxFailures >= 1 && window > 0.0 && maxClients >= 1
      && Ordered()
      && AllFit(records, failures, window, maxFailures, clock)
    }

    /** The failures of one client inside any window of the configured length never exceed the limit. */
    lemma AtMostTheLimit(client: Client, start: real)
      requires Valid()
      ensures |Between(Accepted(client), start, start + window)| <= maxFailures
    {
      assert Fits(RecordOf(client), FailuresOf(client), window, maxFailures, clock);
      WindowHoldsAtMost(Accepted(client), window, maxFailures, start);
    }

    method PopExpired(times: seq<real>, cutoff: real) returns (kept: seq<real>)
      requires Ascending(times)
      ensures kept == Recent(times, cutoff) && |kept| <= |times|
    {
      kept := times;
      while kept != [] && kept[0] <= cutoff
        invariant Ascending(kept) && |kept| <= |times|
        invariant Recent(kept, cutoff) == Recent(times, cutoff)
        decreases |kept|
      {
        RecentOfSum([kept[0]], kept[1..], cutoff);
        assert [kept[0]] + kept[1..] == kept;
        AllExpired([kept[0]], cutoff);
        RestAscends(kept);
        kept := kept[1..];
      }
      StartsLate(kept, cutoff);
    }

    /** Drops what left the window and moves the client to the end of the order, or out of the dictionary. */
    method Prune(client: Client, now: real) returns (current: seq<real>)
      requires Valid() && now >= clock
      modifies this
      ensures Valid() && clock == now && forall c :: Accepted(c) == old(Accepted(c))
      ensures current == FailuresOf(client) == Recent(Accepted(client), now - window)
      ensures RecordOf(client).cutoff == now - window
      ensures failures == if current == [] then old(failures) - {client} else old(failures)[client := current]
      ensures order == Removed(old(order), client) + if current == [] then [] else [client]
    {
      Tick(now);
      current := PruneAtClock(client, now);
    }

    method PruneAtClock(client: Client, now: real) returns (current: seq<real>)
      requires Valid() && now == clock
      modifies this`failures, this`order, this`records
      ensures Valid() && forall c :: Accepted(c) == old(Accepted(c))
      ensures current == FailuresOf(client) == Recent(Accepted(client), clock - window)
      ensures RecordOf(client).cutoff == clock - window
      ensures failures == if current == [] then old(failures) - {client} else old(failures)[client := current]
      ensures order == Removed(old(order), client) + if current == [] then [] else [client]
    {
      QueueAfterPrune(client);
      current := PopExpired(FailuresOf(client), now - window);
      StorePruned(client, current);
    }

    /** What is left of a client's queue once the failures outside the window are popped. */
    lemma QueueAfterPrune(client: Client)
      requires Valid()
      ensures Ascending(FailuresOf(client))
      ensures var kept := Recent(FailuresOf(client), clock - window);
              && kept == Recent(Accepted(client), clock - window)
              && Fits(RecordOf(client).(cutoff := clock - window), kept, window, maxFailures, clock)
    {
      assert Fits(RecordOf(client), FailuresOf(client), window, maxFailures, clock);
      QueueAscends(RecordOf(client), FailuresOf(client), window, maxFailures, clock);
      PrunedTwice(RecordOf(client), FailuresOf(client), window, maxFailures, clock);
    }

    ghost method Tick(now: real)
      requires Valid() && now >= clock
      modifies this`clock
      ensures Valid() && clock == now
    {
      AllStillFit(records, failures, window, maxFailures, clock, now);
      clock := now;
    }

    method StorePruned(client: Client, kept: seq<real>)
      requires Valid() && |kept| <= |FailuresOf(client)|
      requires Fits(RecordOf(client).(cutoff := clock - window), kept, window, maxFailures, clock)
      modifies this`failures, this`order, this`records
      ensures Valid()
      ensures RecordOf(client).cutoff == clock - window && forall c :: Accepted(c) == old(Accepted(c))
      ensures failures == if kept == [] then old(failures) - {client} else old(failures)[client := kept]
      ensures order == Removed(old(order), client) + if kept == [] then [] else [client]
    {
      assert client in failures || kept == [];
      Replace(client, kept);
      assert QueueIn(failures, client) == kept;
      records := records[client := RecordOf(client).(cutoff := clock - window)];
      OneReplaced(old(records), old(failures), window, maxFailures, clock, client, records, failures);
    }

    /** The queue is stored and its client moved to the end; an empty one is dropped. */
    method Replace(client: Client, queue: seq<real>)
      requires Ordered() && |queue| <= maxFailures && (client in failures || queue == [] || |order| < maxClients)
      modifies this`failures, this`order
      ensures Ordered()
      ensures failures == if queue == [] then old(failures) - {client} else old(failures)[client := queue]
      ensures order == Removed(old(order), client) + if queue == [] then [] else [client]
    {
      RemovedDistinct(order, client);
      if queue != [] {
        failures := failures[client := queue];
        order := Removed(order, client) + [client];
      } else {
        failures := failures - {client};
        order := Removed(order, client);
      }
    }

    method IsLimited(client: Client, now: real) returns (limited: bool)
      requires Valid() && now >= clock
      modifies this
      ensures Valid() && clock == now && forall c :: Accepted(c) == old(Accepted(c))
      ensures limited <==> |Recent(old(Accepted(client)), now - window)| >= maxFailures
    {
      var current := Prune(client, now);
      limited := |current| >= maxFailures;
    }

    /** Refused when the window is full; else recorded, and the least recently used client may be forgotten for it. */
    method RecordFailure(client: Client, now: real) returns (limited: bool)
      requires Valid() && now >= clock
      modifies this
      ensures Valid() && clock == now
      ensures limited <==> |Recent(old(Accepted(client)), now - window)| >= maxFailures
      ensures limited ==> forall c :: Accepted(c) == old(Accepted(c))
      ensures !limited ==> Accepted(client) == old(Accepted(client)) + [now]
      ensures !limited ==> forall c :: c != client ==>
                Accepted(c) == if client !in old(failures) && |old(order)| >= maxClients && c == old(order)[0] then []
                               else old(Accepted(c))
    {
      var current := Prune(client, now);
      if |current| >= maxFailures {
        return true;
      }
      if client !in failures && |order| >= maxClients {
        Reset(order[0]);
      }
      Append(client, now);
      limited := false;
    }

    method Append(client: Client, now: real)
      requires Valid() && now == clock && RecordOf(client).cutoff == now - window
      requires |FailuresOf(client)| < maxFailures && (client in failures || |order| < maxClients)
      modifies this`failures, this`order, this`records
      ensures Valid()
      ensures Accepted(client) == old(Accepted(client)) + [now]
      ensures forall c :: c != client ==> Accepted(c) == old(Accepted(c))
    {
      AppendedFits(RecordOf(client), FailuresOf(client), window, maxFailures, now);
      Replace(client, FailuresOf(client) + [now]);
      records := records[client := RecordOf(client).(accepted := Accepted(client) + [now])];
      OneReplaced(old(records), old(failures), window, maxFailures, clock, client, records, failures);
    }

    /** The client's failures are forgotten; also how a client is evicted. */
    method Reset(client: Client)
      requires Valid()
      modifies this`failures, this`order, this`records
      ensures Valid()
      ensures failures == old(failures) - {client} && order == Removed(old(order), client)
      ensures RecordOf(client) == Record([], 0.0)
      ensures forall c :: c != client ==> RecordOf(c) == old(RecordOf(c))
    {
      Replace(client, []);
      records := records - {client};
      OneReplaced(old(records), old(failures), window, maxFailures, clock, client, records, failures);
    }
  }
}
