/** Paging backwards through the messages by the key (created_at, id), while messages are added and deleted. */
module Pagination {
  import opened Common

  // ---- SQLite's order of text and of (created_at, id) ----

  predicate TextLess(a: string, b: string) {
    b != "" && (a == "" || a[0] < b[0] || (a[0] == b[0] && TextLess(a[1..], b[1..])))
  }

  lemma {:induction false} TextOrder(a: string, b: string)
    ensures !(TextLess(a, b) && TextLess(b, a)) && !TextLess(a, a)
    ensures a != b ==> TextLess(a, b) || TextLess(b, a)
  {
    if a != "" {
      TextOrder(a[1..], if b == "" then "" else b[1..]);
      if b != "" && a[0] == b[0] && a[1..] == b[1..] {
        assert a == [a[0]] + a[1..] == b;
      }
    }
  }

  lemma {:induction false} TextTransitive(a: string, b: string, c: string)
    requires TextLess(a, b) && TextLess(b, c)
    ensures TextLess(a, c)
  {
    if a != "" && a[0] == b[0] == c[0] {
      TextTransitive(a[1..], b[1..], c[1..]);
    }
  }

  type Id = string

  /** A messages row: when it was created, whether it is deleted now, and the completed upload it belongs to, if any. */
  datatype Row = Row(at: string, deleted: bool, uploadId: Option<Id>)

  datatype Key = Key(at: string, id: Id)

  predicate Less(a: Key, b: Key) {
    TextLess(a.at, b.at) || (a.at == b.at && TextLess(a.id, b.id))
  }

  lemma LessIsOrder(a: Key, b: Key)
    ensures !(Less(a, b) && Less(b, a)) && !Less(a, a)
    ensures a != b ==> Less(a, b) || Less(b, a)
  {
    TextOrder(a.at, b.at);
    TextOrder(b.at, a.at);
    TextOrder(a.id, b.id);
  }

  lemma LessTransitive(a: Key, b: Key, c: Key)
    requires Less(a, b) && Less(b, c)
    ensures Less(a, c)
  {
    if TextLess(a.at, b.at) && TextLess(b.at, c.at) {
      TextTransitive(a.at, b.at, c.at);
    } else if a.at == b.at && b.at == c.at {
      TextTransitive(a.id, b.id, c.id);
    }
  }

  function KeyOf(table: map<Id, Row>, id: Id): Key
    requires id in table
  {
    Key(table[id].at, id)
  }

  // ---- The query ----

  /** WHERE deleted_at IS NULL AND (before IS NULL OR (created_at, id) < (SELECT ... WHERE id = before)) */
  function Candidates(table: map<Id, Row>, before: Option<Id>): set<Id> {
    set id | id in table && !table[id].deleted
             && (before.None? || (before.value in table && Less(KeyOf(table, id), KeyOf(table, before.value))))
  }

  ghost predicate Newest(table: map<Id, Row>, ids: set<Id>, id: Id) {
    id in ids && id in table && forall other :: other in ids && other in table && other != id ==> Less(KeyOf(table, other), KeyOf(table, id))
  }

  lemma {:induction false} NewestExists(table: map<Id, Row>, ids: set<Id>)
    requires ids != {} && ids <= table.Keys
    ensures exists id :: Newest(table, ids, id)
    decreases |ids|
  {
    var e :| e in ids;
    var rest := ids - {e};
    if rest == {} {
      assert forall other :: other in ids ==> other == e || other in rest;
      assert Newest(table, ids, e);
    } else {
      NewestExists(table, rest);
      var n :| Newest(table, rest, n);
      LessIsOrder(KeyOf(table, n), KeyOf(table, e));
      if Less(KeyOf(table, e), KeyOf(table, n)) {
        assert forall other :: other in ids ==> other == e || other in rest;
        assert Newest(table, ids, n);
      } else {
        forall other | other in ids && other != e
          ensures Less(KeyOf(table, other), KeyOf(table, e))
        {
          assert other in rest;
          if other != n {
            LessTransitive(KeyOf(table, other), KeyOf(table, n), KeyOf(table, e));
          }
        }
        assert Newest(table, ids, e);
      }
    }
  }

  /** ORDER BY created_at DESC, id DESC LIMIT n */
  ghost function Top(table: map<Id, Row>, ids: set<Id>, n: nat): seq<Id>
    requires ids <= table.Keys
    decreases n
  {
    if n == 0 || ids == {} then []
    else
      NewestExists(table, ids);
      var id :| Newest(table, ids, id);
      [id] + Top(table, ids - {id}, n - 1)
  }

  ghost predicate Descending(table: map<Id, Row>, page: seq<Id>) {
    && (forall k :: 0 <= k < |page| ==> page[k] in table)
    && forall j, k :: 0 <= j < k < |page| ==> Less(KeyOf(table, page[k]), KeyOf(table, page[j]))
  }

  ghost predicate Ascending(table: map<Id, Row>, items: seq<Id>) {
    && (forall k :: 0 <= k < |items| ==> items[k] in table)
    && forall j, k :: 0 <= j < k < |items| ==> Less(KeyOf(table, items[j]), KeyOf(table, items[k]))
  }

  /** The page holds the newest candidates in descending order; whatever it leaves out is older than all of it. */
  lemma {:induction false} TopIsNewest(table: map<Id, Row>, ids: set<Id>, n: nat)
    requires ids <= table.Keys
    ensures var page := Top(table, ids, n);
            && |page| == Min(n, |ids|)
            && Descending(table, page)
            && (forall k :: 0 <= k < |page| ==> page[k] in ids)
            && (forall id, k :: id in ids && id !in page && 0 <= k < |page| ==> Less(KeyOf(table, id), KeyOf(table, page[k])))
    decreases n
  {
    if n > 0 && ids != {} {
      var page := Top(table, ids, n);
      var id := page[0];
      assert Newest(table, ids, id) && page[1..] == Top(table, ids - {id}, n - 1);
      TopIsNewest(table, ids - {id}, n - 1);
      forall other, k | other in ids && other !in page && 0 <= k < |page|
        ensures Less(KeyOf(table, other), KeyOf(table, page[k]))
      {
        assert other !in page[1..] && other != id;
        assert k > 0 ==> page[k] == page[1..][k - 1];
      }
    }
  }

  datatype Page = Page(items: seq<Id>, nextBefore: Option<Id>)

  /** reversed(page) */
  function OldestFirst(page: seq<Id>): (items: seq<Id>)
    ensures |items| == |page|
    ensures forall id :: id in items <==> id in page
  {
    var items := seq(|page|, k requires 0 <= k < |page| => page[|page| - 1 - k]);
    assert forall k :: 0 <= k < |page| ==> items[|page| - 1 - k] == page[k];
    items
  }

  /** list_messages: limit + 1 rows are read to see whether there are more. */
  ghost function ListMessages(table: map<Id, Row>, before: Option<Id>, limit: nat): Page
    requires limit >= 1
  {
    var rows := Top(table, Candidates(table, before), limit + 1);
    var page := if |rows| > limit then rows[..limit] else rows;
    Page(OldestFirst(page), if |rows| > limit then Some(page[limit - 1]) else None)
  }

  /** One page: everything between its end and the cursor, nothing else, in ascending order. */
  lemma PageIsASlice(table: map<Id, Row>, before: Option<Id>, limit: nat)
    requires limit >= 1
    ensures var page := ListMessages(table, before, limit);
            && (forall id :: id in page.items <==>
                  id in Candidates(table, before)
                  && (page.nextBefore.Some? ==> id == page.nextBefore.value
                                                || (page.nextBefore.value in table && Less(KeyOf(table, page.nextBefore.value), KeyOf(table, id)))))
            && (page.nextBefore.Some? ==> page.nextBefore.value in Candidates(table, before) && |page.items| == limit)
            && Ascending(table, page.items)
  {
    var ids := Candidates(table, before);
    var rows := Top(table, ids, limit + 1);
    TopIsNewest(table, ids, limit + 1);
    var kept := if |rows| > limit then rows[..limit] else rows;
    var page := ListMessages(table, before, limit);
    KeptAscends(table, kept);
    if |rows| <= limit {
      AllKept(table, ids, rows);
    } else {
      forall id | id in ids
        ensures id in kept <==> id == rows[limit - 1] || Less(KeyOf(table, rows[limit - 1]), KeyOf(table, id))
      {
        CutAt(table, ids, rows, limit, id);
      }
    }
  }

  /** The order of the query: by time, and by id among messages of the same time. */
  predicate Before(table: map<Id, Row>, id: Id, other: Id)
    requires id in table && other in table
  {
    TextLess(table[id].at, table[other].at) || (table[id].at == table[other].at && TextLess(id, other))
  }

  /** A next cursor is given only when something is left behind it. */
  lemma MoreIsLeft(table: map<Id, Row>, before: Option<Id>, limit: nat)
    requires limit >= 1 && ListMessages(table, before, limit).nextBefore.Some?
    ensures exists id :: id in Candidates(table, before) && id !in ListMessages(table, before, limit).items
  {
    var rows := Top(table, Candidates(table, before), limit + 1);
    TopIsNewest(table, Candidates(table, before), limit + 1);
    forall j | 0 <= j < limit
      ensures rows[..limit][j] != rows[limit]
    {
      Unique(table, rows, j, limit);
    }
    assert rows[limit] in Candidates(table, before);
  }

  /** A page in terms of the rows: undeleted messages from before the cursor, oldest first, the newest of them. */
  lemma PageInColumns(table: map<Id, Row>, before: Option<Id>, limit: nat)
    requires limit >= 1
    ensures var page := ListMessages(table, before, limit);
            && |page.items| <= limit
            && (forall id :: id in page.items ==>
                  id in table && !table[id].deleted && (before.Some? ==> before.value in table && Before(table, id, before.value)))
            && (forall j, k :: 0 <= j < k < |page.items| ==> Before(table, page.items[j], page.items[k]))
            && (forall id :: id in table && !table[id].deleted && id !in page.items
                             && (before.Some? ==> before.value in table && Before(table, id, before.value)) ==>
                  page.nextBefore.Some? && page.nextBefore.value in table && Before(table, id, page.nextBefore.value))
            && (page.nextBefore.Some? ==>
                  && |page.items| == limit && page.nextBefore.value == page.items[0]
                  && exists id :: id in table && !table[id].deleted && id !in page.items
                                  && (before.Some? ==> before.value in table && Before(table, id, before.value)))
  {
    var page := ListMessages(table, before, limit);
    PageIsASlice(table, before, limit);
    if page.nextBefore.Some? {
      MoreIsLeft(table, before, limit);
      OldestIsTheCursor(table, before, limit);
    }
    TopIsNewest(table, Candidates(table, before), limit + 1);
    forall id | id in Candidates(table, before) && id !in page.items
      ensures page.nextBefore.Some? && page.nextBefore.value in table && Before(table, id, page.nextBefore.value)
    {
      LessIsOrder(KeyOf(table, page.nextBefore.value), KeyOf(table, id));
    }
  }

  lemma KeptAscends(table: map<Id, Row>, kept: seq<Id>)
    requires Descending(table, kept)
    ensures Ascending(table, OldestFirst(kept))
  {
  }

  ghost function Members(s: seq<Id>): set<Id> {
    set id | id in s
  }

  lemma Unique(table: map<Id, Row>, rows: seq<Id>, j: nat, k: nat)
    requires Descending(table, rows) && j < |rows| && k < |rows| && j != k
    ensures rows[j] != rows[k]
  {
    LessIsOrder(KeyOf(table, rows[j]), KeyOf(table, rows[k]));
    LessIsOrder(KeyOf(table, rows[k]), KeyOf(table, rows[j]));
  }

  lemma {:induction false} DistinctCount(rows: seq<Id>)
    requires forall j, k :: 0 <= j < k < |rows| ==> rows[j] != rows[k]
    ensures |Members(rows)| == |rows|
  {
    if rows != [] {
      var n := |rows| - 1;
      DistinctCount(rows[..n]);
      assert rows[n] !in rows[..n];
      assert Members(rows) == Members(rows[..n]) + {rows[n]};
    }
  }

  lemma AllKept(table: map<Id, Row>, ids: set<Id>, rows: seq<Id>)
    requires ids <= table.Keys && |rows| == |ids| && Descending(table, rows)
    requires forall k :: 0 <= k < |rows| ==> rows[k] in ids
    ensures forall id :: id in ids <==> id in rows
  {
    forall j, k | 0 <= j < k < |rows|
      ensures rows[j] != rows[k]
    {
      Unique(table, rows, j, k);
    }
    DistinctCount(rows);
    SameSize(Members(rows), ids);
    assert forall id :: id in rows <==> id in Members(rows);
  }

  lemma SameSize(s: set<Id>, t: set<Id>)
    requires s <= t && |s| == |t|
    ensures s == t
  {
    assert |t - s| == |t| - |s|;
  }

  lemma CutAt(table: map<Id, Row>, ids: set<Id>, rows: seq<Id>, limit: nat, id: Id)
    requires ids <= table.Keys && Descending(table, rows) && 1 <= limit < |rows| && id in ids
    requires forall k :: 0 <= k < |rows| ==> rows[k] in ids
    requires id !in rows ==> forall k :: 0 <= k < |rows| ==> Less(KeyOf(table, id), KeyOf(table, rows[k]))
    ensures id in rows[..limit] <==> id == rows[limit - 1] || Less(KeyOf(table, rows[limit - 1]), KeyOf(table, id))
  {
    var last := rows[limit - 1];
    LessIsOrder(KeyOf(table, last), KeyOf(table, id));
    if id in rows {
      var k :| 0 <= k < |rows| && rows[k] == id;
      if k < limit {
        assert rows[..limit][k] == id;
      } else {
        assert Less(KeyOf(table, id), KeyOf(table, last));
        forall j | 0 <= j < limit
          ensures rows[..limit][j] != id
        {
          Unique(table, rows, j, k);
        }
      }
    }
  }

  // ---- A walk over changing tables ----

  /** Between two pages messages may be added, deleted and restored, but no row disappears or changes its key. */
  ghost predicate Evolves(before: map<Id, Row>, after: map<Id, Row>) {
    forall id :: id in before ==> id in after && after[id].at == before[id].at && after[id].uploadId == before[id].uploadId
  }

  /** Page k is read from table k, from the top or from where page k-1 ended; only the last page has no successor. */
  ghost predicate ReadAt(tables: seq<map<Id, Row>>, pages: seq<Page>, limit: nat, k: nat)
    requires limit >= 1 && |tables| == |pages| && k < |pages|
  {
    && pages[k] == ListMessages(tables[k], CursorOf(pages, k), limit)
    && (k > 0 ==> pages[k - 1].nextBefore.Some? && Evolves(tables[k - 1], tables[k]))
  }

  ghost predicate Walk(tables: seq<map<Id, Row>>, pages: seq<Page>, limit: nat)
    requires limit >= 1
  {
    |tables| == |pages| > 0 && forall k :: 0 <= k < |pages| ==> ReadAt(tables, pages, limit, k)
  }

  function CursorOf(pages: seq<Page>, k: nat): Option<Id>
    requires k <= |pages|
  {
    if k == 0 then None else pages[k - 1].nextBefore
  }

  ghost predicate AtOrAbove(table: map<Id, Row>, id: Id, end: Id) {
    id in table && end in table && !Less(KeyOf(table, id), KeyOf(table, end))
  }

  /** A page ends at or below everything it returns, and below where it started. */
  lemma PageEnds(tables: seq<map<Id, Row>>, pages: seq<Page>, limit: nat, k: nat)
    requires limit >= 1 && Walk(tables, pages, limit) && k < |pages| && pages[k].nextBefore.Some?
    ensures forall id :: id in pages[k].items ==> AtOrAbove(tables[k], id, pages[k].nextBefore.value)
    ensures k > 0 ==>
              var start := pages[k - 1].nextBefore;
              start.Some? && start.value in tables[k] && pages[k].nextBefore.value in tables[k]
              && Less(KeyOf(tables[k], pages[k].nextBefore.value), KeyOf(tables[k], start.value))
  {
    var end := pages[k].nextBefore.value;
    assert ReadAt(tables, pages, limit, k);
    PageIsASlice(tables[k], CursorOf(pages, k), limit);
    forall id | id in pages[k].items
      ensures AtOrAbove(tables[k], id, end)
    {
      LessIsOrder(KeyOf(tables[k], id), KeyOf(tables[k], end));
    }
  }

  /** What page k returns lies at or above its own end; so does everything on the pages before it. */
  lemma {:induction false} ReturnedIsAbove(tables: seq<map<Id, Row>>, pages: seq<Page>, limit: nat, j: nat, k: nat, id: Id)
    requires limit >= 1 && Walk(tables, pages, limit)
    requires j <= k < |pages| && id in pages[j].items && pages[k].nextBefore.Some?
    ensures AtOrAbove(tables[k], id, pages[k].nextBefore.value)
    decreases k
  {
    PageEnds(tables, pages, limit, k);
    if j < k {
      assert ReadAt(tables, pages, limit, k);
      ReturnedIsAbove(tables, pages, limit, j, k - 1, id);
      StillAbove(tables[k], id, pages[k - 1].nextBefore.value, pages[k].nextBefore.value);
    }
  }

  lemma StillAbove(table: map<Id, Row>, id: Id, start: Id, end: Id)
    requires id in table && start in table && end in table
    requires !Less(KeyOf(table, id), KeyOf(table, start)) && Less(KeyOf(table, end), KeyOf(table, start))
    ensures !Less(KeyOf(table, id), KeyOf(table, end))
  {
    LessIsOrder(KeyOf(table, id), KeyOf(table, start));
    LessIsOrder(KeyOf(table, id), KeyOf(table, end));
    if id != start {
      LessTransitive(KeyOf(table, end), KeyOf(table, start), KeyOf(table, id));
    }
  }

  lemma AtMostOnce(tables: seq<map<Id, Row>>, pages: seq<Page>, limit: nat, j: nat, k: nat, id: Id)
    requires limit >= 1 && Walk(tables, pages, limit)
    requires j < k < |pages| && id in pages[j].items
    ensures id !in pages[k].items
  {
    assert ReadAt(tables, pages, limit, k);
    ReturnedIsAbove(tables, pages, limit, j, k - 1, id);
    PageIsASlice(tables[k], CursorOf(pages, k), limit);
  }

  /** A message that stays undeleted is returned, or still lies below the cursor. */
  lemma {:induction false} NotYetOrBelow(tables: seq<map<Id, Row>>, pages: seq<Page>, limit: nat, k: nat, id: Id)
    requires limit >= 1 && Walk(tables, pages, limit) && k <= |pages|
    requires forall i :: 0 <= i < |tables| ==> id in tables[i] && !tables[i][id].deleted
    ensures || (exists j :: 0 <= j < k && id in pages[j].items)
            || (k > 0 && CursorOf(pages, k).Some? && CursorOf(pages, k).value in tables[k - 1]
                && Less(KeyOf(tables[k - 1], id), KeyOf(tables[k - 1], CursorOf(pages, k).value)))
            || k == 0
    decreases k
  {
    if k > 0 {
      assert ReadAt(tables, pages, limit, k - 1);
      NotYetOrBelow(tables, pages, limit, k - 1, id);
      if !exists j :: 0 <= j < k - 1 && id in pages[j].items {
        assert id in Candidates(tables[k - 1], CursorOf(pages, k - 1));
        PageIsASlice(tables[k - 1], CursorOf(pages, k - 1), limit);
        if id !in pages[k - 1].items {
          LessIsOrder(KeyOf(tables[k - 1], id), KeyOf(tables[k - 1], pages[k - 1].nextBefore.value));
        }
      }
    }
  }

  /**
   * Exactly once: a walk that has reached its last page has returned every message that was there and undeleted
   * all the time on exactly one page, whatever was added, deleted or restored in between, cursor rows included.
   */
  lemma EveryMessageExactlyOnce(tables: seq<map<Id, Row>>, pages: seq<Page>, limit: nat, id: Id)
    requires limit >= 1 && Walk(tables, pages, limit) && pages[|pages| - 1].nextBefore.None?
    requires forall i :: 0 <= i < |tables| ==> id in tables[i] && !tables[i][id].deleted
    ensures exists k :: 0 <= k < |pages| && id in pages[k].items
    ensures forall j, k :: 0 <= j < k < |pages| && id in pages[j].items ==> id !in pages[k].items
  {
    NotYetOrBelow(tables, pages, limit, |pages|, id);
    forall j, k | 0 <= j < k < |pages| && id in pages[j].items
      ensures id !in pages[k].items
    {
      AtMostOnce(tables, pages, limit, j, k, id);
    }
  }

  ghost function Returned(pages: seq<Page>, n: nat): set<Id>
    requires n <= |pages|
  {
    if n == 0 then {} else Returned(pages, n - 1) + Members(pages[n - 1].items)
  }

  lemma {:induction false} ReturnedFrom(pages: seq<Page>, n: nat, id: Id)
    requires n <= |pages|
    ensures id in Returned(pages, n) <==> exists j :: 0 <= j < n && id in pages[j].items
  {
    if n > 0 {
      ReturnedFrom(pages, n - 1, id);
    }
  }

  lemma {:induction false} ReturnedCount(tables: seq<map<Id, Row>>, pages: seq<Page>, limit: nat, n: nat)
    requires limit >= 1 && Walk(tables, pages, limit) && n < |pages|
    ensures |Returned(pages, n)| == n * limit
  {
    if n == 0 {
      assert Returned(pages, 0) == {};
      assert n * limit == 0;
    } else {
      ReturnedCount(tables, pages, limit, n - 1);
      NewOnes(tables, pages, limit, n - 1);
      OneMoreTime(n, limit);
    }
  }

  /** The rows that appeared, between two pages of the first n, below where the walk stood at that moment. */
  ghost function Late(tables: seq<map<Id, Row>>, pages: seq<Page>, n: nat): set<Id>
    requires |tables| == |pages| && 0 < n <= |pages|
  {
    if n == 1 then {} else Late(tables, pages, n - 1) + AppearedBelow(tables[n - 2], tables[n - 1], pages[n - 2].nextBefore)
  }

  function AppearedBelow(before: map<Id, Row>, after: map<Id, Row>, cursor: Option<Id>): set<Id> {
    set id | id in after && id !in before
             && cursor.Some? && cursor.value in after && Less(KeyOf(after, id), KeyOf(after, cursor.value))
  }

  /** What page k returns below a cursor it has not passed was there from the start, or came late. */
  lemma {:induction false} BelowIsOldOrLate(tables: seq<map<Id, Row>>, pages: seq<Page>, limit: nat, k: nat, id: Id)
    requires limit >= 1 && Walk(tables, pages, limit) && k < |pages|
    requires id in tables[k]
    requires k > 0 ==> pages[k - 1].nextBefore.Some? && pages[k - 1].nextBefore.value in tables[k]
                       && Less(KeyOf(tables[k], id), KeyOf(tables[k], pages[k - 1].nextBefore.value))
    ensures id in tables[0] || id in Late(tables, pages, k + 1)
  {
    if k > 0 && id in tables[k - 1] {
      assert ReadAt(tables, pages, limit, k) && ReadAt(tables, pages, limit, k - 1);
      PageEnds(tables, pages, limit, k - 1);
      if k > 1 {
        var end, start := pages[k - 1].nextBefore.value, pages[k - 2].nextBefore.value;
        LessTransitive(KeyOf(tables[k - 1], id), KeyOf(tables[k - 1], end), KeyOf(tables[k - 1], start));
      }
      BelowIsOldOrLate(tables, pages, limit, k - 1, id);
    }
  }

  lemma {:induction false} LateGrows(tables: seq<map<Id, Row>>, pages: seq<Page>, j: nat, n: nat)
    requires |tables| == |pages| && 0 < j <= n <= |pages|
    ensures Late(tables, pages, j) <= Late(tables, pages, n)
  {
    if j < n {
      LateGrows(tables, pages, j, n - 1);
    }
  }

  lemma ReturnedIsOldOrLate(tables: seq<map<Id, Row>>, pages: seq<Page>, limit: nat, n: nat)
    requires limit >= 1 && Walk(tables, pages, limit) && 0 < n < |pages|
    ensures Returned(pages, n) <= tables[0].Keys + Late(tables, pages, n)
  {
    forall id | id in Returned(pages, n)
      ensures id in tables[0] || id in Late(tables, pages, n)
    {
      ReturnedFrom(pages, n, id);
      var j :| 0 <= j < n && id in pages[j].items;
      assert ReadAt(tables, pages, limit, j);
      PageIsASlice(tables[j], CursorOf(pages, j), limit);
      BelowIsOldOrLate(tables, pages, limit, j, id);
      LateGrows(tables, pages, j + 1, n);
    }
  }

  /**
   * The walk ends. Each of its n pages before the last returned `limit` messages for the first time, and all of them
   * were in the table at the start or appeared later below the cursor of their moment.
   */
  lemma WalkTerminates(tables: seq<map<Id, Row>>, pages: seq<Page>, limit: nat, n: nat)
    requires limit >= 1 && Walk(tables, pages, limit) && 0 < n < |pages|
    ensures n * limit <= |tables[0]| + |Late(tables, pages, n)|
  {
    ReturnedCount(tables, pages, limit, n);
    ReturnedIsOldOrLate(tables, pages, limit, n);
    Subset(Returned(pages, n), tables[0].Keys + Late(tables, pages, n));
    assert |tables[0].Keys + Late(tables, pages, n)| <= |tables[0].Keys| + |Late(tables, pages, n)|;
    assert |tables[0]| == |tables[0].Keys|;
  }

  /** New messages are younger than any cursor, so however many arrive, the walk is bounded by what was there before it. */
  lemma NewerMessagesDoNotProlong(tables: seq<map<Id, Row>>, pages: seq<Page>, limit: nat, n: nat)
    requires limit >= 1 && Walk(tables, pages, limit) && 0 < n < |pages|
    requires forall k :: 0 < k < n ==> AppearedBelow(tables[k - 1], tables[k], pages[k - 1].nextBefore) == {}
    ensures n * limit <= |tables[0]|
  {
    NoneLate(tables, pages, n);
    WalkTerminates(tables, pages, limit, n);
  }

  lemma {:induction false} NoneLate(tables: seq<map<Id, Row>>, pages: seq<Page>, n: nat)
    requires |tables| == |pages| && 0 < n <= |pages|
    requires forall k :: 0 < k < n ==> AppearedBelow(tables[k - 1], tables[k], pages[k - 1].nextBefore) == {}
    ensures Late(tables, pages, n) == {}
  {
    if n > 1 {
      NoneLate(tables, pages, n - 1);
    }
  }

  lemma OneMoreTime(n: nat, limit: nat)
    requires n > 0
    ensures (n - 1) * limit + limit == n * limit
  {
  }

  lemma Subset(s: set<Id>, t: set<Id>)
    requires s <= t
    ensures |s| <= |t|
  {
    assert |t - s| == |t| - |s|;
  }

  lemma NewOnes(tables: seq<map<Id, Row>>, pages: seq<Page>, limit: nat, n: nat)
    requires limit >= 1 && Walk(tables, pages, limit) && n + 1 < |pages|
    ensures |Returned(pages, n + 1)| == |Returned(pages, n)| + limit
  {
    var page := Members(pages[n].items);
    assert ReadAt(tables, pages, limit, n) && ReadAt(tables, pages, limit, n + 1);
    PageIsASlice(tables[n], CursorOf(pages, n), limit);
    AscendingItems(tables[n], pages[n].items);
    forall id | id in page
      ensures id !in Returned(pages, n)
    {
      ReturnedFrom(pages, n, id);
      if j :| 0 <= j < n && id in pages[j].items {
        AtMostOnce(tables, pages, limit, j, n, id);
      }
    }
    assert Returned(pages, n) * page == {};
  }

  lemma AscendingItems(table: map<Id, Row>, items: seq<Id>)
    requires Ascending(table, items)
    ensures |Members(items)| == |items|
  {
    forall j, k | 0 <= j < k < |items|
      ensures items[j] != items[k]
    {
      LessIsOrder(KeyOf(table, items[j]), KeyOf(table, items[k]));
    }
    DistinctCount(items);
  }

  // ---- The endpoint's own check of the cursor ----

  predicate IsHex(c: char) {
    '0' <= c <= '9' || 'a' <= c <= 'f'
  }

  /** MESSAGE_ID_PATTERN: the form of new_sortable_id, 13 digits and 32 hexadecimal digits. */
  predicate IsMessageId(id: Id) {
    |id| == 45 && (forall k :: 0 <= k < 13 ==> '0' <= id[k] <= '9') && (forall k :: 13 <= k < 45 ==> IsHex(id[k]))
  }

  /** GET /api/messages: a cursor of another form is refused before the query. */
  ghost function Endpoint(table: map<Id, Row>, before: Option<Id>, limit: nat): Option<Page>
    requires limit >= 1
  {
    if before.Some? && !IsMessageId(before.value) then None else Some(ListMessages(table, before, limit))
  }

  /** Completed uploads get a message id of 32 hexadecimal digits; all other messages one of the accepted form. */
  predicate Formed(table: map<Id, Row>) {
    forall id :: id in table ==>
      if table[id].uploadId.Some? then |id| == 32 && (forall k :: 0 <= k < 32 ==> IsHex(id[k])) else IsMessageId(id)
  }

  /**
   * A walk over changing tables is served to its end exactly when none of its pages before the last has a completed
   * upload's message as its oldest.
   */
  lemma EndpointServesTheWalk(tables: seq<map<Id, Row>>, pages: seq<Page>, limit: nat)
    requires limit >= 1 && Walk(tables, pages, limit)
    requires forall k :: 0 <= k < |tables| ==> Formed(tables[k])
    ensures (forall k :: 0 <= k < |pages| ==> Endpoint(tables[k], CursorOf(pages, k), limit) == Some(pages[k]))
       <==> (forall k :: 0 <= k < |pages| - 1 ==> OldestIsNoUpload(tables[k], pages[k]))
  {
    forall k | 0 <= k < |pages| - 1
      ensures pages[k].nextBefore.Some? && (OldestIsNoUpload(tables[k], pages[k]) <==> IsMessageId(pages[k].nextBefore.value))
    {
      OldestEndsThePage(tables, pages, limit, k);
    }
    forall k | 0 <= k < |pages|
      ensures Endpoint(tables[k], CursorOf(pages, k), limit) == Some(pages[k])
         <==> (k > 0 ==> OldestIsNoUpload(tables[k - 1], pages[k - 1]))
    {
      assert ReadAt(tables, pages, limit, k);
    }
    if forall k :: 0 <= k < |pages| ==> Endpoint(tables[k], CursorOf(pages, k), limit) == Some(pages[k]) {
      forall k | 0 <= k < |pages| - 1
        ensures OldestIsNoUpload(tables[k], pages[k])
      {
        assert Endpoint(tables[k + 1], CursorOf(pages, k + 1), limit) == Some(pages[k + 1]);
      }
    }
  }

  predicate OldestIsNoUpload(table: map<Id, Row>, page: Page) {
    page.items != [] && page.items[0] in table && table[page.items[0]].uploadId.None?
  }

  /** The oldest message of a page with a successor is the cursor that it hands out. */
  lemma OldestIsTheCursor(table: map<Id, Row>, before: Option<Id>, limit: nat)
    requires limit >= 1 && ListMessages(table, before, limit).nextBefore.Some?
    ensures var page := ListMessages(table, before, limit);
            page.items != [] && page.items[0] == page.nextBefore.value && page.items[0] in table
  {
    TopIsNewest(table, Candidates(table, before), limit + 1);
  }

  lemma OldestEndsThePage(tables: seq<map<Id, Row>>, pages: seq<Page>, limit: nat, k: nat)
    requires limit >= 1 && Walk(tables, pages, limit) && k < |pages| - 1 && Formed(tables[k])
    ensures pages[k].nextBefore.Some?
    ensures OldestIsNoUpload(tables[k], pages[k]) <==> IsMessageId(pages[k].nextBefore.value)
  {
    assert ReadAt(tables, pages, limit, k) && ReadAt(tables, pages, limit, k + 1);
    OldestIsTheCursor(tables[k], CursorOf(pages, k), limit);
  }

  // ---- What a client can reach ----

  /** The candidates from the newest down to this one. */
  function Down(table: map<Id, Row>, ids: set<Id>, id: Id): set<Id>
    requires ids <= table.Keys && id in table
  {
    set other | other in ids && !Less(KeyOf(table, other), KeyOf(table, id))
  }

  /** The message is the last of a full page that is not the last page. */
  ghost predicate AtPageEnd(table: map<Id, Row>, ids: set<Id>, limit: nat, id: Id)
    requires limit >= 1 && ids <= table.Keys
  {
    id in ids && |Down(table, ids, id)| % limit == 0 && |Down(table, ids, id)| < |ids|
  }

  /** All messages that a client gets by following next_before until there is none, or until it is refused. */
  ghost function Fetched(table: map<Id, Row>, before: Option<Id>, limit: nat): set<Id>
    requires limit >= 1
    decreases |Candidates(table, before)|
  {
    match Endpoint(table, before, limit)
    case None => {}
    case Some(page) =>
      if page.nextBefore.None? then Members(page.items)
      else
        NextCandidates(table, before, limit);
        Members(page.items) + Fetched(table, page.nextBefore, limit)
  }

  /** The next page has exactly the candidates that this page left. */
  lemma NextCandidates(table: map<Id, Row>, before: Option<Id>, limit: nat)
    requires limit >= 1 && ListMessages(table, before, limit).nextBefore.Some?
    ensures var page := ListMessages(table, before, limit);
            var ids, rest := Candidates(table, before), Candidates(table, page.nextBefore);
            && page.nextBefore.value in ids && |page.items| == limit && |Members(page.items)| == limit
            && ids == Members(page.items) + rest && Members(page.items) !! rest
            && |rest| == |ids| - limit < |ids|
            && Down(table, ids, page.nextBefore.value) == Members(page.items)
  {
    var page := ListMessages(table, before, limit);
    var ids, rest, end := Candidates(table, before), Candidates(table, page.nextBefore), page.nextBefore.value;
    PageIsASlice(table, before, limit);
    AscendingItems(table, page.items);
    forall id | id in ids
      ensures id in Members(page.items) <==> id !in rest
      ensures id in Members(page.items) <==> !Less(KeyOf(table, id), KeyOf(table, end))
    {
      LessIsOrder(KeyOf(table, id), KeyOf(table, end));
    }
    forall id | id in rest
      ensures id in ids
    {
      if before.Some? {
        LessTransitive(KeyOf(table, id), KeyOf(table, end), KeyOf(table, before.value));
      }
    }
    assert ids == Members(page.items) + rest;
  }

  lemma DownSplits(table: map<Id, Row>, before: Option<Id>, limit: nat, id: Id)
    requires limit >= 1 && ListMessages(table, before, limit).nextBefore.Some?
    requires id in Candidates(table, ListMessages(table, before, limit).nextBefore)
    ensures var page := ListMessages(table, before, limit);
            var rest := Candidates(table, page.nextBefore);
            |Down(table, Candidates(table, before), id)| == limit + |Down(table, rest, id)|
  {
    var page := ListMessages(table, before, limit);
    var ids, rest, end := Candidates(table, before), Candidates(table, page.nextBefore), page.nextBefore.value;
    NextCandidates(table, before, limit);
    forall other | other in Members(page.items)
      ensures !Less(KeyOf(table, other), KeyOf(table, id))
    {
      assert other in Down(table, ids, end);
      NotBelowLess(table, other, end, id);
    }
    assert Down(table, ids, id) == Members(page.items) + Down(table, rest, id);
    assert Members(page.items) !! Down(table, rest, id);
  }

  /** Above the end of the page there are fewer than a page's messages. */
  lemma InsideThePage(table: map<Id, Row>, before: Option<Id>, limit: nat, id: Id)
    requires limit >= 1 && ListMessages(table, before, limit).nextBefore.Some?
    requires id in ListMessages(table, before, limit).items && id != ListMessages(table, before, limit).nextBefore.value
    ensures id in table && 0 < |Down(table, Candidates(table, before), id)| < limit
  {
    var page := ListMessages(table, before, limit);
    var ids, end := Candidates(table, before), page.nextBefore.value;
    NextCandidates(table, before, limit);
    assert id in Down(table, ids, end);
    LessIsOrder(KeyOf(table, id), KeyOf(table, end));
    LessIsOrder(KeyOf(table, id), KeyOf(table, id));
    forall other | other in Down(table, ids, id)
      ensures other in Members(page.items) - {end}
    {
      NotBelowLess(table, other, id, end);
      assert other in Down(table, ids, end);
    }
    assert id in Down(table, ids, id);
    Subset(Down(table, ids, id), Members(page.items) - {end});
  }

  lemma EndOfTheRest(table: map<Id, Row>, before: Option<Id>, limit: nat, id: Id)
    requires limit >= 1 && ListMessages(table, before, limit).nextBefore.Some?
    requires id in Candidates(table, ListMessages(table, before, limit).nextBefore)
    ensures id in Candidates(table, before) && id != ListMessages(table, before, limit).nextBefore.value
    ensures AtPageEnd(table, Candidates(table, before), limit, id)
       <==> AtPageEnd(table, Candidates(table, ListMessages(table, before, limit).nextBefore), limit, id)
  {
    NextCandidates(table, before, limit);
    DownSplits(table, before, limit, id);
    LessIsOrder(KeyOf(table, id), KeyOf(table, id));
    OnePageLess(|Down(table, Candidates(table, before), id)|, limit);
  }

  lemma EndOfThePage(table: map<Id, Row>, before: Option<Id>, limit: nat)
    requires limit >= 1 && ListMessages(table, before, limit).nextBefore.Some?
    ensures AtPageEnd(table, Candidates(table, before), limit, ListMessages(table, before, limit).nextBefore.value)
  {
    NextCandidates(table, before, limit);
    OlderIsLeft(table, before, limit);
  }

  /** A page end among the remaining candidates is a page end among all; the only other one is this page's own. */
  lemma PageEndsOfTheRest(table: map<Id, Row>, before: Option<Id>, limit: nat, id: Id)
    requires limit >= 1 && ListMessages(table, before, limit).nextBefore.Some?
    requires id in Candidates(table, before) && id != ListMessages(table, before, limit).nextBefore.value
    ensures AtPageEnd(table, Candidates(table, before), limit, id)
       <==> AtPageEnd(table, Candidates(table, ListMessages(table, before, limit).nextBefore), limit, id)
  {
    if id in Candidates(table, ListMessages(table, before, limit).nextBefore) {
      EndOfTheRest(table, before, limit, id);
    } else {
      NextCandidates(table, before, limit);
      InsideThePage(table, before, limit, id);
      NoWholePage(|Down(table, Candidates(table, before), id)|, limit);
    }
  }

  /** At or above something that is above a third: above the third, or the same. */
  lemma NotBelowLess(table: map<Id, Row>, high: Id, middle: Id, low: Id)
    requires high in table && middle in table && low in table
    requires !Less(KeyOf(table, high), KeyOf(table, middle)) && Less(KeyOf(table, low), KeyOf(table, middle))
    ensures !Less(KeyOf(table, high), KeyOf(table, low)) && high != low
  {
    LessIsOrder(KeyOf(table, high), KeyOf(table, low));
    LessIsOrder(KeyOf(table, middle), KeyOf(table, low));
    if Less(KeyOf(table, high), KeyOf(table, low)) {
      LessTransitive(KeyOf(table, high), KeyOf(table, low), KeyOf(table, middle));
    }
  }

  lemma NoWholePage(n: nat, limit: nat)
    requires 0 < n < limit
    ensures n % limit != 0
  {
  }

  lemma OnePageLess(n: nat, limit: nat)
    requires limit >= 1 && n >= limit
    ensures (n - limit) % limit == n % limit
  {
    var d := n / limit - (n - limit) / limit - 1;
    assert d * limit == (n - limit) % limit - n % limit;
    Multiple(d, limit);
  }

  lemma Multiple(d: int, limit: nat)
    requires limit >= 1
    ensures d >= 1 ==> d * limit >= limit
    ensures d <= -1 ==> d * limit + limit <= 0
  {
  }

  /**
   * Exactly when a client can page through all messages of a table: no undeleted message of a completed upload is the
   * last of a full page with older messages behind it, counted from the newest in steps of the limit.
   */
  lemma ClientReachesAllMessages(table: map<Id, Row>, limit: nat)
    requires limit >= 1 && Formed(table)
    ensures Fetched(table, None, limit) == Candidates(table, None) <==> !UploadAtPageEnd(table, None, limit)
  {
    ReachesTheRest(table, None, limit);
  }

  /** A completed upload's message ends a full page that is not the last. */
  ghost predicate UploadAtPageEnd(table: map<Id, Row>, before: Option<Id>, limit: nat)
    requires limit >= 1
  {
    exists id :: id in table && table[id].uploadId.Some? && AtPageEnd(table, Candidates(table, before), limit, id)
  }

  lemma {:induction false} ReachesTheRest(table: map<Id, Row>, before: Option<Id>, limit: nat)
    requires limit >= 1 && Formed(table) && (before.Some? ==> IsMessageId(before.value))
    ensures Fetched(table, before, limit) <= Candidates(table, before)
    ensures Fetched(table, before, limit) == Candidates(table, before) <==> !UploadAtPageEnd(table, before, limit)
    decreases |Candidates(table, before)|
  {
    var page := ListMessages(table, before, limit);
    if page.nextBefore.None? {
      LastPageIsShort(table, before, limit);
    } else {
      NextCandidates(table, before, limit);
      if table[page.nextBefore.value].uploadId.Some? {
        RefusedPageLosesTheRest(table, before, limit);
      } else {
        ReachesTheRest(table, page.nextBefore, limit);
        AcceptedPageKeepsTheRest(table, before, limit);
      }
    }
  }

  lemma AcceptedPageKeepsTheRest(table: map<Id, Row>, before: Option<Id>, limit: nat)
    requires limit >= 1 && Formed(table) && (before.Some? ==> IsMessageId(before.value))
    requires ListMessages(table, before, limit).nextBefore.Some?
    requires ListMessages(table, before, limit).nextBefore.value in table
    requires table[ListMessages(table, before, limit).nextBefore.value].uploadId.None?
    requires var next := ListMessages(table, before, limit).nextBefore;
             Fetched(table, next, limit) <= Candidates(table, next)
    ensures var next := ListMessages(table, before, limit).nextBefore;
            && Fetched(table, before, limit) <= Candidates(table, before)
            && (Fetched(table, before, limit) == Candidates(table, before) <==> Fetched(table, next, limit) == Candidates(table, next))
            && (UploadAtPageEnd(table, before, limit) <==> UploadAtPageEnd(table, next, limit))
  {
    var page := ListMessages(table, before, limit);
    var items, rest, more := Members(page.items), Candidates(table, page.nextBefore), Fetched(table, page.nextBefore, limit);
    NextCandidates(table, before, limit);
    assert Fetched(table, before, limit) == items + more;
    SameTail(items, more, rest);
    UploadEndsOfTheRest(table, before, limit);
  }

  lemma SameTail(items: set<Id>, more: set<Id>, rest: set<Id>)
    requires items !! rest && more <= rest
    ensures items + more == items + rest <==> more == rest
  {
    assert (items + more) - items == more && (items + rest) - items == rest;
  }

  lemma UploadEndsOfTheRest(table: map<Id, Row>, before: Option<Id>, limit: nat)
    requires limit >= 1 && ListMessages(table, before, limit).nextBefore.Some?
    requires ListMessages(table, before, limit).nextBefore.value in table
    requires table[ListMessages(table, before, limit).nextBefore.value].uploadId.None?
    ensures UploadAtPageEnd(table, before, limit) <==> UploadAtPageEnd(table, ListMessages(table, before, limit).nextBefore, limit)
  {
    var next := ListMessages(table, before, limit).nextBefore;
    NextCandidates(table, before, limit);
    forall id | id in table && table[id].uploadId.Some?
      ensures AtPageEnd(table, Candidates(table, before), limit, id) <==> AtPageEnd(table, Candidates(table, next), limit, id)
    {
      if id in Candidates(table, before) {
        PageEndsOfTheRest(table, before, limit, id);
      } else {
        assert id !in Candidates(table, next);
      }
    }
  }

  lemma RefusedPageLosesTheRest(table: map<Id, Row>, before: Option<Id>, limit: nat)
    requires limit >= 1 && Formed(table) && (before.Some? ==> IsMessageId(before.value))
    requires ListMessages(table, before, limit).nextBefore.Some?
    requires ListMessages(table, before, limit).nextBefore.value in table
    requires table[ListMessages(table, before, limit).nextBefore.value].uploadId.Some?
    ensures Fetched(table, before, limit) < Candidates(table, before)
    ensures UploadAtPageEnd(table, before, limit)
  {
    var page := ListMessages(table, before, limit);
    NextCandidates(table, before, limit);
    OlderIsLeft(table, before, limit);
    assert Fetched(table, page.nextBefore, limit) == {};
    EndOfThePage(table, before, limit);
  }

  /** A page with a successor leaves at least one older message. */
  lemma OlderIsLeft(table: map<Id, Row>, before: Option<Id>, limit: nat)
    requires limit >= 1 && ListMessages(table, before, limit).nextBefore.Some?
    ensures |Candidates(table, before)| > limit
  {
    TopIsNewest(table, Candidates(table, before), limit + 1);
  }

  lemma ShortHasNoPageEnd(table: map<Id, Row>, ids: set<Id>, limit: nat)
    requires limit >= 1 && ids <= table.Keys && |ids| <= limit
    ensures forall id :: !AtPageEnd(table, ids, limit, id)
  {
    forall id | id in ids
      ensures !AtPageEnd(table, ids, limit, id)
    {
      LessIsOrder(KeyOf(table, id), KeyOf(table, id));
      assert id in Down(table, ids, id);
      assert |Down(table, ids, id)| > 0;
    }
  }

  /** The page without a successor holds all candidates, and none of them ends a page before the last. */
  lemma LastPageIsShort(table: map<Id, Row>, before: Option<Id>, limit: nat)
    requires limit >= 1 && ListMessages(table, before, limit).nextBefore.None?
    ensures Members(ListMessages(table, before, limit).items) == Candidates(table, before)
    ensures forall id :: !AtPageEnd(table, Candidates(table, before), limit, id)
  {
    PageIsASlice(table, before, limit);
    TopIsNewest(table, Candidates(table, before), limit + 1);
    ShortHasNoPageEnd(table, Candidates(table, before), limit);
  }

  /**
   * The message of a completed resumable upload has a 32-digit id. When it ends a page, the endpoint hands it out
   * as the cursor and then refuses it: the older message here is never reached.
   */
  lemma UploadCursorIsRefused(text: Id, upload: Id)
    requires IsMessageId(text) && |upload| == 32 && forall k :: 0 <= k < 32 ==> IsHex(upload[k])
    ensures var table := map[text := Row("2024", false, None), upload := Row("2025", false, Some("u"))];
            && Endpoint(table, None, 1) == Some(Page([upload], Some(upload)))
            && Endpoint(table, Some(upload), 1).None?
            && Fetched(table, None, 1) == {upload}
  {
    var table := map[text := Row("2024", false, None), upload := Row("2025", false, Some("u"))];
    var older, newer := KeyOf(table, text), KeyOf(table, upload);
    YearOrder();
    assert Less(older, newer);
    LessIsOrder(older, newer);
    assert Candidates(table, None) == {text, upload};
    assert Newest(table, {text, upload}, upload);
    TopIsNewest(table, {text, upload}, 2);
    assert {text, upload} - {upload} == {text};
    assert |{text, upload}| == 2;
    var rows := Top(table, {text, upload}, 2);
    OnlyNewest(table, {text, upload}, rows[0], upload);
    assert OldestFirst([upload]) == [upload];
  }

  lemma OnlyNewest(table: map<Id, Row>, ids: set<Id>, a: Id, b: Id)
    requires Newest(table, ids, a) && Newest(table, ids, b)
    ensures a == b
  {
    LessIsOrder(KeyOf(table, a), KeyOf(table, b));
  }

  lemma YearOrder()
    ensures TextLess("2024", "2025")
  {
    assert "2024"[1..] == "024" && "2025"[1..] == "025";
    assert "024"[1..] == "24" && "025"[1..] == "25";
    assert "24"[1..] == "4" && "25"[1..] == "5";
    assert TextLess("4", "5");
    assert TextLess("24", "25");
    assert TextLess("024", "025");
  }
}
