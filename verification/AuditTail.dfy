/** The reader of the audit log's last lines, which seeks backwards in chunks. */
module AuditTail {
  import opened Common

  const CHUNK: nat := 8192
  const LF: byte := 10
  const CR: byte := 13

  function Count(s: Bytes): nat {
    if s == [] then 0 else Count(s[..|s| - 1]) + if s[|s| - 1] == LF then 1 else 0
  }

  lemma {:induction false} CountSum(a: Bytes, b: Bytes)
    ensures Count(a + b) == Count(a) + Count(b)
    decreases |b|
  {
    if b == [] {
      assert a + b == a;
    } else {
      CountSum(a, b[..|b| - 1]);
      assert (a + b)[..|a + b| - 1] == a + b[..|b| - 1];
    }
  }

  // ---- bytes.splitlines ----

  function LineEnd(s: Bytes): (e: nat)
    ensures e <= |s|
    ensures e < |s| ==> s[e] == LF || s[e] == CR
    ensures forall k :: 0 <= k < e ==> s[k] != LF && s[k] != CR
  {
    if s == [] || s[0] == LF || s[0] == CR then 0 else 1 + LineEnd(s[1..])
  }

  /** Past the terminator: a line feed, a carriage return, or both together. */
  function NextLine(s: Bytes): (next: nat)
    requires s != []
    ensures 0 < next <= |s|
  {
    var e := LineEnd(s);
    if e == |s| then e
    else if s[e] == CR && e + 1 < |s| && s[e + 1] == LF then e + 2
    else e + 1
  }

  function SplitLines(s: Bytes): seq<Bytes> {
    if s == [] then [] else [s[..LineEnd(s)]] + SplitLines(s[NextLine(s)..])
  }

  /** No line feed and no carriage return. */
  predicate OneLine(s: Bytes) {
    forall k :: 0 <= k < |s| ==> s[k] != LF && s[k] != CR
  }

  /** A line feed, a carriage return and a line feed, or a carriage return that none follows. */
  predicate Ends(end: Bytes, rest: Bytes) {
    end == [LF] || end == [CR, LF] || (end == [CR] && (rest == [] || rest[0] != LF))
  }

  lemma {:induction false} LineStops(line: Bytes, rest: Bytes)
    requires OneLine(line) && (rest == [] || rest[0] == LF || rest[0] == CR)
    ensures LineEnd(line + rest) == |line|
  {
    if line == [] {
      assert line + rest == rest;
    } else {
      assert (line + rest)[1..] == line[1..] + rest;
      LineStops(line[1..], rest);
    }
  }

  lemma TerminatorIsPassed(line: Bytes, end: Bytes, rest: Bytes)
    requires OneLine(line) && Ends(end, rest)
    ensures LineEnd(line + (end + rest)) == |line| && NextLine(line + (end + rest)) == |line| + |end|
  {
    var s := line + (end + rest);
    LineStops(line, end + rest);
    assert s[|line|] == end[0];
    if |line| + 1 < |s| {
      assert s[|line| + 1] == (end + rest)[1];
    }
  }

  /** What the lines of a file are: a line and its terminator come before the lines of the rest. */
  lemma LineComesFirst(line: Bytes, end: Bytes, rest: Bytes)
    requires OneLine(line) && Ends(end, rest)
    ensures SplitLines(line + (end + rest)) == [line] + SplitLines(rest)
  {
    TerminatorIsPassed(line, end, rest);
    Parts(line, end, rest);
  }

  lemma Parts(line: Bytes, end: Bytes, rest: Bytes)
    ensures (line + (end + rest))[..|line|] == line && (line + (end + rest))[|line| + |end|..] == rest
  {
  }

  /** And what has no terminator is a last line unless it is empty. */
  lemma UnendedLineIsLast(line: Bytes)
    requires OneLine(line)
    ensures SplitLines(line) == if line == [] then [] else [line]
  {
    LineStops(line, []);
    assert line + [] == line;
    assert line[..|line|] == line && line[|line|..] == [];
  }

  /** The first line of a piece that ends in a line feed does not depend on what follows the piece. */
  lemma FirstLine(a: Bytes, b: Bytes)
    requires a != [] && a[|a| - 1] == LF
    ensures LineEnd(a) < |a| && LineEnd(a + b) == LineEnd(a) && NextLine(a + b) == NextLine(a)
    ensures (a + b)[..LineEnd(a)] == a[..LineEnd(a)]
  {
    assert forall k :: 0 <= k < |a| ==> (a + b)[k] == a[k];
  }

  lemma SplitFirst(a: Bytes, b: Bytes)
    requires a != [] && a[|a| - 1] == LF
    ensures SplitLines(a + b) == [a[..LineEnd(a)]] + SplitLines(a[NextLine(a)..] + b)
  {
    FirstLine(a, b);
    assert (a + b)[NextLine(a)..] == a[NextLine(a)..] + b;
  }

  lemma Associates(a: seq<Bytes>, b: seq<Bytes>, c: seq<Bytes>)
    ensures a + (b + c) == (a + b) + c
  {
  }

  lemma SplitStep(a: Bytes, b: Bytes)
    requires a != [] && a[|a| - 1] == LF
    requires SplitLines(a[NextLine(a)..] + b) == SplitLines(a[NextLine(a)..]) + SplitLines(b)
    ensures SplitLines(a + b) == SplitLines(a) + SplitLines(b)
  {
    SplitFirst(a, b);
    Associates([a[..LineEnd(a)]], SplitLines(a[NextLine(a)..]), SplitLines(b));
  }

  /** Lines may be split piece by piece wherever a piece ends in a line feed. */
  lemma {:induction false} SplitAtLineFeed(a: Bytes, b: Bytes)
    requires a == [] || a[|a| - 1] == LF
    ensures SplitLines(a + b) == SplitLines(a) + SplitLines(b)
    decreases |a|
  {
    if a == [] {
      assert a + b == b;
    } else {
      SplitAtLineFeed(a[NextLine(a)..], b);
      SplitStep(a, b);
    }
  }

  lemma OneLineFeed(s: Bytes)
    requires s != []
    ensures Count(s[..NextLine(s)]) <= 1
  {
    var e, next := LineEnd(s), NextLine(s);
    NoLineFeed(s[..e]);
    CountSum(s[..e], s[e..next]);
    assert s[..e] + s[e..next] == s[..next];
    if next == e + 2 {
      assert s[e..next] == [CR] + [LF];
      CountSum([CR], [LF]);
    } else if next == e + 1 {
      assert s[e..next] == [s[e]];
    } else {
      assert s[e..next] == [];
    }
  }

  lemma {:induction false} NoLineFeed(s: Bytes)
    requires forall k :: 0 <= k < |s| ==> s[k] != LF
    ensures Count(s) == 0
  {
    if s != [] {
      NoLineFeed(s[..|s| - 1]);
    }
  }

  /** There are at least as many lines as line feeds. */
  lemma {:induction false} EnoughLines(s: Bytes)
    ensures |SplitLines(s)| >= Count(s)
    decreases |s|
  {
    if s != [] {
      var next := NextLine(s);
      OneLineFeed(s);
      CountSum(s[..next], s[next..]);
      assert s[..next] + s[next..] == s;
      EnoughLines(s[next..]);
    }
  }

  /** lines[-limit:] */
  function Slice(lines: seq<Bytes>, limit: int): seq<Bytes> {
    if limit > 0 then lines[Max(0, |lines| - limit)..] else lines[Min(-limit, |lines|)..]
  }

  lemma SliceIsLast(lines: seq<Bytes>, limit: int)
    requires limit >= 1
    ensures var last := Slice(lines, limit); |last| == Min(limit, |lines|) && last == lines[|lines| - |last|..]
  {
  }

  function FirstLineFeed(s: Bytes): (k: nat)
    requires Count(s) > 0
    ensures k < |s| && s[k] == LF && Count(s[..k]) == 0
  {
    if Count(s[..|s| - 1]) > 0 then
      var k := FirstLineFeed(s[..|s| - 1]);
      assert s[..|s| - 1][..k] == s[..k];
      k
    else |s| - 1
  }

  /** A tail with more than `limit` line feeds has the same last lines as the whole file. */
  lemma TailSuffices(before: Bytes, tail: Bytes, limit: int)
    requires limit >= 1 && Count(tail) > limit
    ensures Slice(SplitLines(tail), limit) == Slice(SplitLines(before + tail), limit)
  {
    var k := FirstLineFeed(tail);
    var head, rest := tail[..k + 1], tail[k + 1..];
    assert tail == head + rest;
    assert head[..k] == tail[..k];
    CountSum(head, rest);
    EnoughLines(rest);
    SplitAtLineFeed(head, rest);
    assert before + tail == (before + head) + rest;
    SplitAtLineFeed(before + head, rest);
    SameEnd(SplitLines(head), SplitLines(before + head), SplitLines(rest), limit);
  }

  lemma SameEnd(a: seq<Bytes>, b: seq<Bytes>, rest: seq<Bytes>, limit: int)
    requires 1 <= limit <= |rest|
    ensures Slice(a + rest, limit) == Slice(b + rest, limit)
  {
    assert Slice(a + rest, limit) == rest[|rest| - limit..];
    assert Slice(b + rest, limit) == rest[|rest| - limit..];
  }

  /** read_audit_events up to the decoding of the lines: exactly the last `limit` lines of the file, for any limit from 1. */
  method ReadLastLines(file: Bytes, limit: int) returns (lines: seq<Bytes>)
    ensures limit >= 1 ==> |lines| == Min(limit, |SplitLines(file)|) && lines == SplitLines(file)[|SplitLines(file)| - |lines|..]
    ensures limit == 0 && file != [] ==> lines != []
  {
    var position := |file|;
    var tail: Bytes := [];
    while position > 0 && Count(tail) <= limit
      invariant 0 <= position <= |file|
      invariant tail == file[position..]
      invariant position < |file| ==> tail != []
      decreases position
    {
      var chunk := Min(CHUNK, position);
      position := position - chunk;
      PieceBefore(file, position, position + chunk);
      tail := file[position..position + chunk] + tail;
    }
    lines := Slice(SplitLines(tail), limit);
    if limit >= 1 {
      TailHasTheLastLines(file, position, limit);
    }
  }

  lemma PieceBefore(file: Bytes, from: nat, to: nat)
    requires from <= to <= |file|
    ensures file[from..to] + file[to..] == file[from..]
  {
  }

  lemma TailHasTheLastLines(file: Bytes, position: nat, limit: int)
    requires limit >= 1 && position <= |file| && (position == 0 || Count(file[position..]) > limit)
    ensures var all, last := SplitLines(file), Slice(SplitLines(file[position..]), limit);
            |last| == Min(limit, |all|) && last == all[|all| - |last|..]
  {
    if position == 0 {
      assert file[position..] == file;
    } else {
      assert file == file[..position] + file[position..];
      TailSuffices(file[..position], file[position..], limit);
    }
    SliceIsLast(SplitLines(file), limit);
  }
}
