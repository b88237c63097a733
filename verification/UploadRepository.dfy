/** UploadRepository: the tables and the transactions that update them in place. */
module UploadTables {
  import opened Common
  import opened Sums
  import opened Grid
  import opened UploadRows

  datatype Message = Message(fileId: Option<Id>, requestId: Id)

  datatype FileRow = FileRow(size: int, sha: Digest)

  /** The creation command and the limits it is checked against. */
  datatype Creation = Creation(meta: Meta, maxActive: int, budget: Option<int>)

  function ActiveOne(s: Session): int {
    if Active(s.status) then 1 else 0
  }

  /** What an active session may still need on disk, as the admission query sees it. */
  function Commitment(s: Session): int {
    if !Active(s.status) || Projected(s.publication) then 0 else 2 * s.meta.size - s.confirmed
  }

  ghost predicate SessionFor(sessions: map<Id, Session>, requestId: Id) {
    exists id :: id in sessions && sessions[id].meta.requestId == requestId
  }

  ghost predicate MessageFor(messages: map<Id, Message>, requestId: Id) {
    exists id :: id in messages && messages[id].requestId == requestId
  }

  /** The guards of the insert branch of create_or_get, in their order. */
  ghost function Admission(
      sessions: map<Id, Session>, messages: map<Id, Message>, reservations: set<Id>, creation: Creation): Result<(), UploadError>
  {
    if MessageFor(messages, creation.meta.requestId) || creation.meta.requestId in reservations then Err(Conflict)
    else if Sum(sessions, ActiveOne) >= creation.maxActive then Err(CapacityExceeded)
    else if creation.budget.Some? && Sum(sessions, Commitment) + 2 * creation.meta.size > creation.budget.value
      then Err(CommitmentExceeded)
    else Ok(())
  }

  /** The unique constraints on files.id and messages.client_request_id that the inserts of finalize_publication meet. */
  ghost predicate Insertable(messages: map<Id, Message>, files: map<Id, FileRow>, uploadId: Id, requestId: Id, messageId: Id) {
    uploadId !in files && messageId !in messages && !MessageFor(messages, requestId)
  }

  class UploadRepository {
    var sessions: map<Id, Session>
    var messages: map<Id, Message>
    var files: map<Id, FileRow>
    var reservations: set<Id>

    constructor ()
      ensures sessions == map[] && messages == map[] && files == map[] && reservations == {}
    {
      sessions, messages, files, reservations := map[], map[], map[], {};
    }

    /** SELECT ... WHERE client_request_id = ? over the sessions. */
    method FindSession(requestId: Id) returns (found: Option<Id>)
      ensures found.Some? ==> found.value in sessions && sessions[found.value].meta.requestId == requestId
      ensures found.None? ==> !SessionFor(sessions, requestId)
    {
      var todo := sessions.Keys;
      while todo != {}
        invariant todo <= sessions.Keys
        invariant forall id :: id in sessions && id !in todo ==> sessions[id].meta.requestId != requestId
        decreases |todo|
      {
        var id :| id in todo;
        if sessions[id].meta.requestId == requestId {
          return Some(id);
        }
        todo := todo - {id};
      }
      found := None;
    }

    method FindMessage(requestId: Id) returns (found: bool)
      ensures found <==> MessageFor(messages, requestId)
    {
      var todo := messages.Keys;
      while todo != {}
        invariant todo <= messages.Keys
        invariant forall id :: id in messages && id !in todo ==> messages[id].requestId != requestId
        decreases |todo|
      {
        var id :| id in todo;
        if messages[id].requestId == requestId {
          return true;
        }
        todo := todo - {id};
      }
      found := false;
    }

    /** The count of active sessions and the sum of their commitments. */
    method SumSessions() returns (active: int, committed: int)
      ensures active == Sum(sessions, ActiveOne) && committed == Sum(sessions, Commitment)
    {
      var rest := sessions;
      active, committed := 0, 0;
      while rest != map[]
        invariant active + Sum(rest, ActiveOne) == Sum(sessions, ActiveOne)
        invariant committed + Sum(rest, Commitment) == Sum(sessions, Commitment)
        decreases |rest|
      {
        var id :| id in rest;
        Without(rest, ActiveOne, id);
        Without(rest, Commitment, id);
        active, committed := active + ActiveOne(rest[id]), committed + Commitment(rest[id]);
        rest := rest - {id};
      }
    }

    /** SELECT COALESCE(SUM(size_bytes), 0) over the parts of one session. */
    method SumParts(parts: map<int, Part>) returns (total: int)
      ensures total == PartBytes(parts)
    {
      var rest := parts;
      total := 0;
      while rest != map[]
        invariant total + PartBytes(rest) == PartBytes(parts)
        decreases |rest|
      {
        SomeKey(rest);
        var i :| i in rest;
        Without(rest, PartSize, i);
        total := total + rest[i].size;
        rest := rest - {i};
      }
    }

    /** A replayed request returns its session unchanged; a new one is admitted or refused without effect. */
    method CreateOrGet(creation: Creation, newId: Id, now: int, ttl: int) returns (result: Result<Id, UploadError>)
      requires newId !in sessions
      modifies this
      ensures messages == old(messages) && files == old(files) && reservations == old(reservations)
      ensures SessionFor(old(sessions), creation.meta.requestId) ==>
                && sessions == old(sessions)
                && (result.Ok? ==> result.value in sessions && sessions[result.value].meta == creation.meta)
                && (result.Err? ==>
                      && result.error == Conflict
                      && exists id :: id in sessions && sessions[id].meta.requestId == creation.meta.requestId
                                      && sessions[id].meta != creation.meta)
      ensures !SessionFor(old(sessions), creation.meta.requestId) ==>
                var admission := Admission(old(sessions), messages, reservations, creation);
                && (result.Err? ==> admission == Err(result.error) && sessions == old(sessions))
                && (result.Ok? ==>
                      && admission.Ok? && result.value == newId
                      && sessions == old(sessions)[newId :=
                           Session(creation.meta, Queued, Unpublished, 0, None, None, None, now + ttl, map[])])
    {
      var existing := FindSession(creation.meta.requestId);
      if existing.Some? {
        if sessions[existing.value].meta != creation.meta {
          return Err(Conflict);
        }
        return Ok(existing.value);
      }
      var taken := FindMessage(creation.meta.requestId);
      if taken || creation.meta.requestId in reservations {
        return Err(Conflict);
      }
      var active, committed := SumSessions();
      if active >= creation.maxActive {
        return Err(CapacityExceeded);
      }
      if creation.budget.Some? && committed + 2 * creation.meta.size > creation.budget.value {
        return Err(CommitmentExceeded);
      }
      sessions := sessions[newId := NewSession(creation.meta, now, ttl)];
      result := Ok(newId);
    }

    method ConfirmRow(id: Id, index: int, part: Part, now: int, ttl: int) returns (result: Result<Session, UploadError>)
      requires id in sessions
      modifies this`sessions
      ensures result == ConfirmPart(old(sessions)[id], index, part, now, ttl)
      ensures sessions == if result.Ok? then old(sessions)[id := result.value] else old(sessions)
    {
      var s := sessions[id];
      if index < 0 || part.start < 0 || part.end < part.start || part.size <= 0
         || part.end - part.start + 1 != part.size || part.end >= s.meta.size {
        return Err(Conflict);
      }
      if index in s.parts {
        if s.parts[index] != part {
          return Err(Conflict);
        }
        assert sessions[id := s] == sessions;
        return Ok(s);
      }
      if s.status !in {Queued, Uploading, Paused} {
        return Err(StateConflict);
      }
      var parts := s.parts[index := part];
      var confirmed := SumParts(parts);
      var status := if s.status == Queued then Uploading else s.status;
      var t := s.(parts := parts, status := status, confirmed := confirmed, expiresAt := now + ttl);
      sessions := sessions[id := t];
      result := Ok(t);
    }

    /** The scan over the parts ordered by start byte: it succeeds exactly when the parts tile the file. */
    method ScanParts(s: Session) returns (complete: bool)
      requires s.meta.size > 0
      requires forall i :: i in s.parts ==> s.parts[i].start >= 0 && s.parts[i].end >= s.parts[i].start
      ensures complete <==> Tiles(s.parts, s.meta.size)
    {
      var cursor := 0;
      var todo := s.parts.Keys;
      while todo != {}
        invariant todo <= s.parts.Keys
        invariant Scanned(s.parts, s.parts.Keys - todo, cursor)
        decreases |todo|
      {
        var i := EarliestStart(s.parts, todo);
        var row := s.parts[i];
        if row.start != cursor || row.end - row.start + 1 != row.size {
          ScanStuck(s.parts, s.meta.size, todo, i, cursor);
          return false;
        }
        ScanAdvances(s.parts, s.parts.Keys - todo, i, cursor);
        assert s.parts.Keys - (todo - {i}) == s.parts.Keys - todo + {i};
        cursor := row.end + 1;
        todo := todo - {i};
      }
      complete := cursor == s.meta.size;
      assert s.parts.Keys - todo == s.parts.Keys;
      ScanEnds(s.parts, s.meta.size, cursor);
    }

    method BeginCompletionRow(id: Id, now: int, ttl: int) returns (result: Result<Session, UploadError>)
      requires id in sessions
      requires sessions[id].meta.size > 0
      requires forall i :: i in sessions[id].parts ==> sessions[id].parts[i].start >= 0 && sessions[id].parts[i].end >= sessions[id].parts[i].start
      modifies this`sessions
      ensures result == BeginCompletion(old(sessions)[id], now, ttl)
      ensures sessions == if result.Ok? then old(sessions)[id := result.value] else old(sessions)
    {
      var s := sessions[id];
      if s.status != Uploading {
        return Err(StateConflict);
      }
      var complete := ScanParts(s);
      if !complete {
        return Err(StateConflict);
      }
      var t := s.(status := Verifying, publication := Assembling, expiresAt := now + ttl);
      sessions := sessions[id := t];
      result := Ok(t);
    }

    /** The update of one row by a transaction whose outcome is already decided. */
    method Store(id: Id, outcome: Result<Session, UploadError>)
      requires id in sessions
      modifies this`sessions
      ensures sessions == if outcome.Ok? then old(sessions)[id := outcome.value] else old(sessions)
    {
      if outcome.Ok? {
        sessions := sessions[id := outcome.value];
      }
    }

    /** DELETE of the named parts, then the recomputed sum; shared by reconcile_missing_parts and invalidate_part. */
    method RemoveParts(id: Id, gone: set<int>, code: string, now: int, ttl: int)
      requires id in sessions
      modifies this`sessions
      ensures var s := old(sessions)[id];
              var parts := s.parts - gone;
              sessions == old(sessions)[id :=
                if Terminal(s.status) then s.(parts := parts)
                else s.(parts := parts, status := Failed, error := Some(code), publication := Unpublished,
                        fileSha := None, confirmed := PartBytes(parts), expiresAt := now + ttl)]
    {
      var s := sessions[id];
      var parts := s.parts - gone;
      var confirmed := SumParts(parts);
      sessions := sessions[id := s.(parts := parts)];
      if !Terminal(s.status) {
        sessions := sessions[id := sessions[id].(status := Failed, error := Some(code), publication := Unpublished,
                                                 fileSha := None, confirmed := confirmed, expiresAt := now + ttl)];
      }
    }

    method ReconcileRow(id: Id, missing: set<int>, now: int, ttl: int)
      requires id in sessions
      modifies this`sessions
      ensures sessions == old(sessions)[id := ReconcileMissing(old(sessions)[id], missing, now, ttl)]
    {
      if !Projected(sessions[id].publication) {
        RemoveParts(id, missing, "missing_part", now, ttl);
      }
    }

    method InvalidateRow(id: Id, index: int, code: string, now: int, ttl: int) returns (result: Result<Session, UploadError>)
      requires id in sessions
      modifies this`sessions
      ensures result == InvalidatePart(old(sessions)[id], index, code, now, ttl)
      ensures sessions == if result.Ok? then old(sessions)[id := result.value] else old(sessions)
    {
      if Terminal(sessions[id].status) {
        return Err(StateConflict);
      }
      RemoveParts(id, {index}, code, now, ttl);
      result := Ok(sessions[id]);
    }

    /** finalize_publication: both inserts and the session update commit together, or nothing does. */
    method FinalizeRow(id: Id, pending: Pending, messageId: Id) returns (result: Result<Session, UploadError>)
      requires id in sessions && messageId !in messages
      modifies this`sessions, this`messages, this`files
      ensures var s := old(sessions)[id];
              var allowed := old(Insertable(messages, files, id, s.meta.requestId, messageId));
              && result == (if Finalize(s, pending, messageId).Err? || s.status == Complete || allowed
                            then Finalize(s, pending, messageId) else Err(IntegrityViolation))
              && (if result.Ok? && s.status != Complete then
                    && sessions == old(sessions)[id := result.value]
                    && messages == old(messages)[messageId := Message(Some(id), s.meta.requestId)]
                    && files == old(files)[id := FileRow(pending.size, pending.sha)]
                  else sessions == old(sessions) && messages == old(messages) && files == old(files))
    {
      var s := sessions[id];
      result := Finalize(s, pending, messageId);
      if result.Err? || s.status == Complete {
        return;
      }
      var taken := FindMessage(s.meta.requestId);
      if id in files || taken {
        return Err(IntegrityViolation);
      }
      files := files[id := FileRow(pending.size, pending.sha)];
      messages := messages[messageId := Message(Some(id), s.meta.requestId)];
      sessions := sessions[id := result.value];
    }
  }

  ghost predicate CoveredBy(parts: map<int, Part>, rows: set<int>, b: int) {
    exists i :: i in parts && i in rows && parts[i].start <= b <= parts[i].end
  }

  /** The rows seen so far tile the bytes below the cursor. */
  ghost predicate Scanned(parts: map<int, Part>, rows: set<int>, cursor: int) {
    && rows <= parts.Keys && 0 <= cursor
    && (forall i :: i in rows ==> 0 <= parts[i].start <= parts[i].end < cursor && parts[i].size == parts[i].end - parts[i].start + 1)
    && (forall i, j :: i in rows && j in rows && i != j ==> parts[i].end < parts[j].start || parts[j].end < parts[i].start)
    && (forall b :: 0 <= b < cursor ==> CoveredBy(parts, rows, b))
    && (cursor == 0 || exists i :: i in rows && parts[i].end == cursor - 1)
  }

  lemma ScanAdvances(parts: map<int, Part>, rows: set<int>, i: int, cursor: int)
    requires Scanned(parts, rows, cursor) && i in parts && i !in rows
    requires parts[i].start == cursor <= parts[i].end && parts[i].end - parts[i].start + 1 == parts[i].size
    ensures Scanned(parts, rows + {i}, parts[i].end + 1)
  {
    forall b | 0 <= b <= parts[i].end
      ensures CoveredBy(parts, rows + {i}, b)
    {
      if b < cursor {
        assert CoveredBy(parts, rows, b);
        var k :| k in parts && k in rows && parts[k].start <= b <= parts[k].end;
        assert k in rows + {i};
      } else {
        assert i in rows + {i};
      }
    }
    assert i in rows + {i};
  }

  /** A scan that passes every row has seen a tiling exactly when it ends at the size. */
  lemma ScanEnds(parts: map<int, Part>, size: int, cursor: int)
    requires Scanned(parts, parts.Keys, cursor) && size > 0
    ensures cursor == size <==> Tiles(parts, size)
  {
    if cursor == size {
      forall b | 0 <= b < size
        ensures Covered(parts, b)
      {
        assert CoveredBy(parts, parts.Keys, b);
      }
    } else if cursor < size {
      assert !Covered(parts, cursor);
    }
  }

  lemma SomeMember(rows: set<int>)
    ensures rows == {} || exists i :: i in rows
  {
    if forall i :: i !in rows {
      assert rows == {};
    }
  }

  lemma SomeKey(parts: map<int, Part>)
    ensures parts == map[] || exists i :: i in parts
  {
    if forall i :: i !in parts {
      assert parts == map[];
    }
  }

  /** ORDER BY start_byte: the next row is one with the smallest start. */
  method EarliestStart(parts: map<int, Part>, rows: set<int>) returns (first: int)
    requires rows != {} && rows <= parts.Keys
    ensures first in rows
    ensures forall i :: i in rows ==> parts[first].start <= parts[i].start
  {
    var todo := rows;
    SomeMember(todo);
    first :| first in todo;
    todo := todo - {first};
    while todo != {}
      invariant first in rows && todo <= rows
      invariant forall i :: i in rows && i !in todo ==> parts[first].start <= parts[i].start
      decreases |todo|
    {
      SomeMember(todo);
      var i :| i in todo;
      if parts[i].start < parts[first].start {
        first := i;
      }
      todo := todo - {i};
    }
  }

  /** When the earliest remaining row does not start at the cursor, or lies about its size, the rows do not tile. */
  lemma ScanStuck(parts: map<int, Part>, size: int, todo: set<int>, i: int, cursor: int)
    requires todo <= parts.Keys && i in todo && Scanned(parts, parts.Keys - todo, cursor)
    requires parts[i].start >= 0 && parts[i].end >= parts[i].start
    requires forall k :: k in todo ==> parts[i].start <= parts[k].start
    requires parts[i].start != cursor || parts[i].end - parts[i].start + 1 != parts[i].size
    ensures !Tiles(parts, size)
  {
    if parts[i].start > cursor {
      forall k | k in parts
        ensures !(parts[k].start <= cursor <= parts[k].end)
      {
        assert k in todo || k in parts.Keys - todo;
      }
      assert !Covered(parts, cursor);
    } else if parts[i].start < cursor {
      assert CoveredBy(parts, parts.Keys - todo, parts[i].start);
      var k :| k in parts && k in parts.Keys - todo && parts[k].start <= parts[i].start <= parts[k].end;
      assert k != i && !(parts[k].end < parts[i].start) && !(parts[i].end < parts[k].start);
    }
  }
}
