/** The events table: appended with consecutive numbers, trimmed to its newest rows, read in windows. */
module EventLog {
  import opened Common

  datatype Event = Event(sequence: nat, kind: string, entity: string, payload: string)

  datatype Window = Window(earliest: nat, latest: nat, events: seq<Event>)

  /** Every event ever committed, in order: the n-th has number n. */
  predicate Numbered(history: seq<Event>) {
    forall i :: 0 <= i < |history| ==> history[i].sequence == i + 1
  }

  /** The window after a sequence number when the first `floor` events are trimmed. */
  function WindowOf(history: seq<Event>, floor: nat, after: nat, limit: nat): Window
    requires floor <= |history|
  {
    var low := Min(Max(after, floor), |history|);
    Window(floor + 1, |history|, history[low..Min(low + limit, |history|)])
  }

  lemma OneLonger(history: seq<Event>, low: nat, high: nat)
    requires low <= high < |history|
    ensures history[low..high] + [history[high]] == history[low..high + 1]
  {
  }

  /** The rows of a window once the scan stands before position `at` of the history. */
  ghost function Scanned(history: seq<Event>, low: nat, at: nat): seq<Event>
    requires low <= |history| && at <= |history|
  {
    history[low..Max(low, at)]
  }

  lemma ScanStep(history: seq<Event>, low: nat, at: nat)
    requires low <= |history| && at < |history|
    ensures Scanned(history, low, at + 1) == if low <= at then Scanned(history, low, at) + [history[at]] else Scanned(history, low, at)
  {
    if low <= at {
      OneLonger(history, low, at);
    }
  }

  /** Exactly the rows after the cursor are taken. */
  lemma TakenExactly(history: seq<Event>, floor: nat, after: nat, at: nat)
    requires Numbered(history) && floor <= at < |history|
    ensures history[at].sequence > after <==> Min(Max(after, floor), |history|) <= at
  {
  }

  lemma ScanEnds(history: seq<Event>, floor: nat, after: nat, limit: nat, at: nat)
    requires floor <= at <= |history|
    requires var low := Min(Max(after, floor), |history|);
             |Scanned(history, low, at)| <= limit && (at == |history| || |Scanned(history, low, at)| == limit)
    ensures WindowOf(history, floor, after, limit).events == Scanned(history, Min(Max(after, floor), |history|), at)
  {
  }

  lemma AppendedRows(history: seq<Event>, rows: seq<Event>, event: Event)
    requires Numbered(history) && |rows| <= |history| && rows == history[|history| - |rows|..]
    requires event.sequence == |history| + 1
    ensures Numbered(history + [event]) && rows + [event] == (history + [event])[|history| - |rows|..]
  {
  }

  class EventStore {
    const retention: nat
    var rows: seq<Event>
    var issued: nat
    ghost var history: seq<Event>

    constructor (retention: nat)
      requires retention >= 1
      ensures Valid() && history == [] && this.retention == retention
    {
      this.retention, rows, issued, history := retention, [], 0, [];
    }

    ghost function Floor(): nat
      reads this
      requires Valid()
    {
      |history| - |rows|
    }

    /** The table holds the newest events of the history, all consecutive, and at least one once there was any. */
    ghost predicate Valid()
      reads this
    {
      && retention >= 1
      && Numbered(history) && issued == |history|
      && |rows| <= |history| && rows == history[|history| - |rows|..]
      && (history != [] ==> rows != [])
    }

    /** INSERT, then the trim of the same transaction. */
    method Append(kind: string, entity: string, payload: string) returns (event: Event)
      requires Valid()
      modifies this
      ensures Valid()
      ensures history == old(history) + [event] && event == Event(|history|, kind, entity, payload)
      ensures |rows| == Min(retention, old(|rows|) + 1)
    {
      event := Event(issued + 1, kind, entity, payload);
      AppendedRows(history, rows, event);
      issued, history, rows := issued + 1, history + [event], rows + [event];
      var deleted := Trim();
    }

    /** DELETE of every row older than the newest `retention` rows. */
    method Trim() returns (deleted: nat)
      requires Valid()
      modifies this`rows
      ensures Valid()
      ensures |rows| == Min(retention, old(|rows|)) && deleted == old(|rows|) - |rows|
    {
      if |rows| < retention {
        return 0;
      }
      var start := |rows| - retention;
      var cutoff := rows[start].sequence;
      var before := |rows|;
      var kept: seq<Event> := [];
      var i := 0;
      while i < |rows|
        invariant 0 <= i <= |rows|
        invariant kept == if i <= start then [] else rows[start..i]
      {
        assert rows[i] == history[|history| - |rows| + i];
        if rows[i].sequence >= cutoff {
          kept := kept + [rows[i]];
        }
        i := i + 1;
      }
      rows := kept;
      deleted := before - |rows|;
    }

    /** The bounds of the table and its first `limit` rows after a number, in one transaction. */
    method EventWindowAfter(after: nat, limit: nat) returns (window: Window)
      requires Valid()
      ensures window == WindowOf(history, Floor(), after, limit)
    {
      var events: seq<Event> := [];
      var i := 0;
      ghost var floor := Floor();
      ghost var low := Min(Max(after, floor), |history|);
      while i < |rows| && |events| < limit
        invariant 0 <= i <= |rows|
        invariant |events| <= limit
        invariant events == Scanned(history, low, floor + i)
      {
        assert rows[i] == history[floor + i];
        ScanStep(history, low, floor + i);
        TakenExactly(history, floor, after, floor + i);
        if rows[i].sequence > after {
          events := events + [rows[i]];
        }
        i := i + 1;
      }
      ScanEnds(history, floor, after, limit, floor + i);
      window := Window(if |rows| > 0 then rows[0].sequence else 1, if |rows| > 0 then rows[|rows| - 1].sequence else 0, events);
    }
  }
}
